/** The file destination's worker thread (file_output.rs) and its metrics (output_metrics.rs): what
    it does with each job it accepted, and what it counts. */
module FileOutput {
  import opened Wrappers

  const SAMPLE_CAPACITY := 1024
  const MAX_U64 := 0xFFFF_FFFF_FFFF_FFFF

  /** A count as far as 64 bits hold it. */
  function Capped(n: nat): (c: nat)
    ensures c <= n && c <= MAX_U64 && (n <= MAX_U64 ==> c == n)
  {
    if n <= MAX_U64 then n else MAX_U64
  }

  function SaturatingAdd(a: nat, b: nat): nat {
    Capped(a + b)
  }

  // ---- Recent samples ----

  /** The last `SAMPLE_CAPACITY` of a history. */
  function Recent<T>(all: seq<T>): (recent: seq<T>)
    ensures |recent| <= SAMPLE_CAPACITY && |recent| <= |all|
  {
    if |all| <= SAMPLE_CAPACITY then all else all[|all| - SAMPLE_CAPACITY..]
  }

  /** Keeping the recent ones as samples come is keeping the recent ones of them all. */
  lemma RecentOfOneMore<T>(all: seq<T>, x: T)
    ensures Recent(all + [x]) == Recent(Recent(all) + [x])
  {
  }

  method PushBounded(samples: seq<nat>, value: nat) returns (r: seq<nat>)
    requires |samples| <= SAMPLE_CAPACITY
    ensures r == Recent(samples + [value])
  {
    r := samples;
    if |r| == SAMPLE_CAPACITY {
      r := r[1..];
    }
    r := r + [value];
    assert |samples| == SAMPLE_CAPACITY ==> (samples + [value])[1..] == r;
  }

  // ---- Metrics ----

  datatype Write = Write(bytes: nat, encodeNs: nat, writeNs: nat, collisions: nat)

  function Bytes(writes: seq<Write>): nat {
    if writes == [] then 0 else Bytes(writes[..|writes| - 1]) + writes[|writes| - 1].bytes
  }

  function Collisions(writes: seq<Write>): nat {
    if writes == [] then 0 else Collisions(writes[..|writes| - 1]) + writes[|writes| - 1].collisions
  }

  function EncodeTimes(writes: seq<Write>): (times: seq<nat>)
    ensures |times| == |writes|
  {
    if writes == [] then [] else EncodeTimes(writes[..|writes| - 1]) + [writes[|writes| - 1].encodeNs]
  }

  function WriteTimes(writes: seq<Write>): (times: seq<nat>)
    ensures |times| == |writes|
  {
    if writes == [] then [] else WriteTimes(writes[..|writes| - 1]) + [writes[|writes| - 1].writeNs]
  }

  lemma OneMoreWrite(writes: seq<Write>, w: Write)
    ensures Bytes(writes + [w]) == Bytes(writes) + w.bytes
    ensures Collisions(writes + [w]) == Collisions(writes) + w.collisions
  {
    assert (writes + [w])[..|writes|] == writes;
  }

  lemma OneMoreTime(writes: seq<Write>, w: Write)
    ensures Recent(EncodeTimes(writes + [w])) == Recent(Recent(EncodeTimes(writes)) + [w.encodeNs])
    ensures Recent(WriteTimes(writes + [w])) == Recent(Recent(WriteTimes(writes)) + [w.writeNs])
  {
    assert (writes + [w])[..|writes|] == writes;
    RecentOfOneMore(EncodeTimes(writes), w.encodeNs);
    RecentOfOneMore(WriteTimes(writes), w.writeNs);
  }

  class OutputMetrics {
    var written: nat
    var failed: nat
    var abandoned: nat
    var collisions: nat
    var bytes: nat
    var encodeNs: seq<nat>
    var writeNs: seq<nat>
    /** The whole run's writes, failures and abandoned jobs. */
    ghost var writes: seq<Write>
    ghost var failures: nat
    ghost var leftovers: nat

    constructor ()
      ensures Valid() && writes == [] && failures == leftovers == 0
    {
      written, failed, abandoned, collisions, bytes := 0, 0, 0, 0, 0;
      encodeNs, writeNs, writes, failures, leftovers := [], [], [], 0, 0;
    }

    /** Counts and sums over the whole run, and samples of its recent part. */
    ghost predicate Valid()
      reads this
    {
      && written == Capped(|writes|) && failed == Capped(failures) && abandoned == Capped(leftovers)
      && bytes == Capped(Bytes(writes)) && collisions == Capped(Collisions(writes))
      && SamplesAre(writes)
    }

    ghost predicate SamplesAre(all: seq<Write>)
      reads this`encodeNs, this`writeNs
    {
      encodeNs == Recent(EncodeTimes(all)) && writeNs == Recent(WriteTimes(all))
    }

    method RecordTimes(w: Write, ghost before: seq<Write>)
      requires SamplesAre(before)
      modifies this`encodeNs, this`writeNs
      ensures SamplesAre(before + [w])
    {
      OneMoreTime(before, w);
      encodeNs := PushBounded(encodeNs, w.encodeNs);
      writeNs := PushBounded(writeNs, w.writeNs);
    }

    method RecordWrite(w: Write)
      requires Valid()
      modifies this
      ensures Valid() && writes == old(writes) + [w] && failures == old(failures) && leftovers == old(leftovers)
    {
      OneMoreWrite(writes, w);
      written := SaturatingAdd(written, 1);
      bytes := SaturatingAdd(bytes, w.bytes);
      collisions := SaturatingAdd(collisions, w.collisions);
      RecordTimes(w, writes);
      writes := writes + [w];
    }

    method RecordFailure()
      requires Valid()
      modifies this`failed, this`failures
      ensures Valid() && failures == old(failures) + 1
    {
      failed := SaturatingAdd(failed, 1);
      failures := failures + 1;
    }

    method RecordAbandoned()
      requires Valid()
      modifies this`abandoned, this`leftovers
      ensures Valid() && leftovers == old(leftovers) + 1
    {
      abandoned := SaturatingAdd(abandoned, 1);
      leftovers := leftovers + 1;
    }

    /** Nothing to report of a destination that was never used. */
    predicate IsEmpty()
      requires Valid()
      reads this
      ensures IsEmpty() <==> writes == [] && failures == 0 && leftovers == 0
    {
      written == 0 && failed == 0 && abandoned == 0
    }

    ghost function Settled(): nat
      reads this
    {
      |writes| + failures + leftovers
    }
  }

  // ---- The worker ----

  type Job = nat

  datatype Received = Work(job: Job) | Timeout | Disconnected

  /** A job taken up, and what writing its capture came to. */
  datatype Attempt = Attempt(job: Job, written: Option<Write>)

  /** The jobs taken up, in order. */
  function JobsOf(attempts: seq<Attempt>): seq<Job> {
    seq(|attempts|, i requires 0 <= i < |attempts| => attempts[i].job)
  }

  /** What was written, in order. */
  function WritesOf(attempts: seq<Attempt>): seq<Write> {
    if attempts == [] then []
    else
      var newest := attempts[|attempts| - 1];
      WritesOf(attempts[..|attempts| - 1]) + if newest.written.Some? then [newest.written.value] else []
  }

  lemma OneMoreAttempt(attempts: seq<Attempt>, newest: Attempt)
    ensures WritesOf(attempts + [newest]) ==
      WritesOf(attempts) + if newest.written.Some? then [newest.written.value] else []
    ensures JobsOf(attempts + [newest]) == JobsOf(attempts) + [newest.job]
  {
    assert (attempts + [newest])[..|attempts|] == attempts;
  }

  /** The worker's end of its queue, with those who send to it and ask it to stop. `coming` is what
      producers have yet to offer, and `patience` how often they let a wait run out before that. */
  class JobQueue {
    var jobs: seq<Job>
    var coming: seq<Job>
    var patience: nat
    var stopAsked: bool
    /** Every job ever queued, what writing those taken up came to, and those counted out. */
    ghost var accepted: seq<Job>
    ghost var attempts: seq<Attempt>
    ghost var abandoned: seq<Job>

    constructor (coming: seq<Job>, patience: nat)
      ensures this.coming == coming && Fresh()
    {
      jobs, this.coming, this.patience, stopAsked := [], coming, patience, false;
      accepted, attempts, abandoned := [], [], [];
    }

    ghost predicate Fresh()
      reads this
    {
      jobs == [] && !stopAsked && accepted == [] && attempts == [] && abandoned == []
    }

    /** Jobs are taken up in the order they came; the rest waits, but for what is counted out. */
    ghost predicate Valid()
      reads this
    {
      accepted == JobsOf(attempts) + abandoned + jobs
    }

    /** Producers put in some of what they have, whenever they like. */
    method Producers()
      requires Valid()
      modifies this`jobs, this`coming, this`accepted
      ensures Valid() && |jobs| + |coming| == old(|jobs| + |coming|)
      ensures old(jobs) <= jobs && old(accepted) <= accepted
    {
      while coming != []
        invariant Valid() && |jobs| + |coming| == old(|jobs| + |coming|)
        invariant old(jobs) <= jobs && old(accepted) <= accepted
        decreases |coming|
      {
        if * {
          return;
        }
        jobs, coming, accepted := jobs + [coming[0]], coming[1..], accepted + [coming[0]];
      }
    }

    /** Looks whether a stop is asked for, which it is at the latest when nothing else happens. */
    method LookForStop() returns (asked: bool)
      modifies this`stopAsked
      ensures asked == stopAsked && (old(stopAsked) || patience == 0 ==> asked)
    {
      if * {
        stopAsked := true;
      }
      if patience == 0 {
        stopAsked := true;
      }
      asked := stopAsked;
    }

    /** The next job, or nothing: none came in time, or there is no one left to send one. */
    method Receive() returns (received: Received)
      requires Valid() && 0 < patience
      modifies this`jobs, this`coming, this`patience, this`accepted
      ensures received.Work? ==> accepted == JobsOf(attempts) + abandoned + [received.job] + jobs
      ensures !received.Work? ==> Valid()
      ensures received.Work? ==> |jobs| + |coming| < old(|jobs| + |coming|) && patience == old(patience)
      ensures received == Timeout ==> |jobs| + |coming| == old(|jobs| + |coming|) && patience < old(patience)
      ensures received == Disconnected ==> jobs == [] && coming == []
    {
      Producers();
      if jobs != [] {
        received := Work(jobs[0]);
        assert jobs == [jobs[0]] + jobs[1..];
        jobs := jobs[1..];
      } else if coming == [] {
        received := Disconnected;
      } else {
        patience := patience - 1;
        received := Timeout;
      }
    }

    /** `write_capture` of a job, which succeeds or fails. */
    method WriteCapture(job: Job) returns (written: Option<Write>)
      requires abandoned == [] && accepted == JobsOf(attempts) + [job] + jobs
      modifies this`attempts
      ensures Valid() && attempts == old(attempts) + [Attempt(job, written)]
    {
      written := *;
      OneMoreAttempt(attempts, Attempt(job, written));
      attempts := attempts + [Attempt(job, written)];
      assert accepted == JobsOf(attempts) + abandoned + jobs;
    }

    /** `try_iter`: the next job still queued, if there is one. */
    method TryNext() returns (job: Option<Job>)
      requires Valid()
      modifies this`jobs, this`coming, this`accepted, this`abandoned
      ensures Valid() && |jobs| + |coming| <= old(|jobs| + |coming|)
      ensures if job.Some? then abandoned == old(abandoned) + [job.value] && |jobs| + |coming| < old(|jobs| + |coming|)
              else abandoned == old(abandoned) && jobs == []
    {
      Producers();
      if jobs == [] {
        return None;
      }
      job := Some(jobs[0]);
      ghost var rest := jobs[1..];
      assert jobs == [jobs[0]] + rest;
      assert JobsOf(attempts) + abandoned + ([jobs[0]] + rest) == JobsOf(attempts) + (abandoned + [jobs[0]]) + rest;
      abandoned := abandoned + [jobs[0]];
      jobs := jobs[1..];
    }
  }

  /** The metrics are those of the attempts and of the jobs counted out. */
  ghost predicate Accounts(metrics: OutputMetrics, queue: JobQueue)
    reads metrics, queue
  {
    && metrics.Valid() && queue.Valid() && metrics.writes == WritesOf(queue.attempts)
    && metrics.failures + |metrics.writes| == |queue.attempts| && metrics.leftovers == |queue.abandoned|
  }

  /** The thread `start` spawns: it works until a stop is asked for or no one is left to send jobs; then it
      counts out what is still queued. Every job accepted by the time that is done was written or failed,
      in order, or, only where a stop was asked for, is counted out; and the metrics say which. */
  method Work(queue: JobQueue, metrics: OutputMetrics)
    requires metrics.Valid() && metrics.Settled() == 0 && queue.Fresh()
    modifies queue, metrics
    ensures Accounts(metrics, queue) && queue.jobs == []
    ensures queue.accepted == JobsOf(queue.attempts) + queue.abandoned
    ensures metrics.Settled() == |queue.accepted|
    ensures queue.abandoned != [] ==> queue.stopAsked
  {
    while true
      invariant Accounts(metrics, queue) && queue.abandoned == []
      decreases |queue.jobs| + |queue.coming|, queue.patience
    {
      var asked := queue.LookForStop();
      if asked {
        break;
      }
      var received := queue.Receive();
      match received {
        case Disconnected => break;
        case Timeout =>
        case Work(job) => TakeUp(queue, metrics, job);
      }
    }
    Drain(queue, metrics);
  }

  /** Writes one job's capture and counts it. */
  method TakeUp(queue: JobQueue, metrics: OutputMetrics, job: Job)
    requires metrics.Valid() && metrics.writes == WritesOf(queue.attempts)
    requires metrics.failures + |metrics.writes| == |queue.attempts| && metrics.leftovers == |queue.abandoned|
    requires queue.abandoned == [] && queue.accepted == JobsOf(queue.attempts) + [job] + queue.jobs
    modifies queue`attempts, metrics
    ensures Accounts(metrics, queue)
    ensures |queue.attempts| == old(|queue.attempts|) + 1
  {
    var written := queue.WriteCapture(job);
    OneMoreAttempt(old(queue.attempts), Attempt(job, written));
    if written.Some? {
      metrics.RecordWrite(written.value);
    } else {
      metrics.RecordFailure();
    }
  }

  /** What was still queued when the stop came is never written, and is counted. */
  method Drain(queue: JobQueue, metrics: OutputMetrics)
    requires Accounts(metrics, queue)
    modifies queue`jobs, queue`coming, queue`accepted, queue`abandoned, metrics
    ensures Accounts(metrics, queue) && queue.jobs == []
    ensures metrics.writes == old(metrics.writes) && metrics.failures == old(metrics.failures)
    ensures old(queue.jobs == [] && queue.coming == []) ==> queue.abandoned == old(queue.abandoned)
  {
    while true
      invariant Accounts(metrics, queue)
      invariant metrics.writes == old(metrics.writes) && metrics.failures == old(metrics.failures)
      invariant old(queue.jobs == [] && queue.coming == []) ==>
        queue.jobs == [] && queue.coming == [] && queue.abandoned == old(queue.abandoned)
      decreases |queue.jobs| + |queue.coming|
    {
      var job := queue.TryNext();
      if job == None {
        return;
      }
      metrics.RecordAbandoned();
    }
  }
}
