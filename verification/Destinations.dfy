/** Where finished captures go: bounded sinks, the copy-on-write set of them (output.rs), and the
    dispatch of one capture to all of them (`dispatch_destinations` of daemon.rs). */
module Destinations {
  import opened Wrappers

  datatype Job = Job(captureId: nat, action: nat, frame: nat, cpuReadyOffset: nat)

  datatype Rejection = QueueFull | Disconnected

  /** A job offered to a sink, and how the sink's channel stood then. */
  datatype Offer = Offer(job: Job, connected: bool, room: bool)

  function Answer(offer: Offer): Option<Rejection> {
    if !offer.connected then Some(Disconnected) else if !offer.room then Some(QueueFull) else None
  }

  /** The jobs of the offers that were taken up. */
  function Accepted(offers: seq<Offer>): seq<Job> {
    if offers == [] then []
    else
      var newest := offers[|offers| - 1];
      Accepted(offers[..|offers| - 1]) + if Answer(newest) == None then [newest.job] else []
  }

  lemma OneMoreAccepted(offers: seq<Offer>, offer: Offer)
    ensures Accepted(offers + [offer]) == Accepted(offers) + if Answer(offer) == None then [offer.job] else []
  {
    assert (offers + [offer])[..|offers|] == offers;
  }

  /** A bounded channel to a worker, as long as the worker holds its other end. */
  class ChannelSink {
    const name: string
    const capacity: nat
    var connected: bool
    var queue: seq<Job>
    /** Every offer made to it, and the jobs its worker has taken from it. */
    ghost var offers: seq<Offer>
    ghost var taken: seq<Job>

    constructor (name: string, capacity: nat)
      ensures Valid() && this.name == name && this.capacity == capacity && connected && queue == [] && offers == []
    {
      this.name, this.capacity, connected, queue := name, capacity, true, [];
      offers, taken := [], [];
    }

    /** Every job accepted is with the worker or waits, in the order they were offered. */
    ghost predicate Valid()
      reads this
    {
      |queue| <= capacity && Accepted(offers) == taken + queue
    }

    method Submit(job: Job) returns (rejection: Option<Rejection>)
      requires Valid()
      modifies this`queue, this`offers
      ensures Valid() && offers == old(offers) + [Offer(job, old(connected), old(|queue| < capacity))]
      ensures rejection ==
        if !old(connected) then Some(Disconnected) else if old(|queue| >= capacity) then Some(QueueFull) else None
      ensures rejection == Answer(offers[|offers| - 1])
      ensures queue == if rejection == None then old(queue) + [job] else old(queue)
    {
      ghost var offer := Offer(job, connected, |queue| < capacity);
      OneMoreAccepted(offers, offer);
      offers := offers + [offer];
      if !connected {
        return Some(Disconnected);
      }
      if |queue| >= capacity {
        return Some(QueueFull);
      }
      queue := queue + [job];
      return None;
    }

    /** Its worker takes some of what waits, oldest first, and perhaps goes. */
    method WorkerRuns()
      requires Valid()
      modifies this`queue, this`taken, this`connected
      ensures Valid() && old(taken) <= taken && (connected ==> old(connected))
    {
      var n: nat :| n <= |queue|;
      taken, queue := taken + queue[..n], queue[n..];
      if * {
        connected := false;
      }
    }
  }

  // ---- The set ----

  type Sinks = seq<ChannelSink>

  predicate UniqueNames(sinks: Sinks) {
    forall i, j :: 0 <= i < j < |sinks| ==> sinks[i].name != sinks[j].name
  }

  /** The sinks with another name, in their order. */
  function Without(sinks: Sinks, name: string): Sinks {
    if sinks == [] then [] else
      var rest, last := Without(sinks[..|sinks| - 1], name), sinks[|sinks| - 1];
      if last.name == name then rest else rest + [last]
  }

  lemma {:induction false} WithoutIsTheRest(sinks: Sinks, name: string)
    ensures var r := Without(sinks, name);
      && (forall i :: 0 <= i < |r| ==> r[i].name != name && r[i] in sinks)
      && |r| <= |sinks| && (|r| == |sinks| <==> forall i :: 0 <= i < |sinks| ==> sinks[i].name != name)
  {
    if sinks != [] {
      WithoutIsTheRest(sinks[..|sinks| - 1], name);
      assert sinks == sinks[..|sinks| - 1] + [sinks[|sinks| - 1]];
    }
  }

  lemma {:induction false} WithoutKeepsUnique(sinks: Sinks, name: string)
    requires UniqueNames(sinks)
    ensures UniqueNames(Without(sinks, name))
  {
    if sinks != [] {
      var fewer := sinks[..|sinks| - 1];
      WithoutKeepsUnique(fewer, name);
      WithoutIsTheRest(fewer, name);
      var rest := Without(fewer, name);
      forall i | 0 <= i < |rest|
        ensures rest[i].name != sinks[|sinks| - 1].name
      {
        assert rest[i] in fewer;
      }
    }
  }

  lemma {:induction false} WithoutDropsNone(sinks: Sinks, name: string)
    requires forall i :: 0 <= i < |sinks| ==> sinks[i].name != name
    ensures Without(sinks, name) == sinks
  {
    if sinks != [] {
      WithoutDropsNone(sinks[..|sinks| - 1], name);
    }
  }

  /** With names unique, at most one sink goes, and the others keep their order. */
  lemma {:induction false} WithoutDropsOne(before: Sinks, gone: ChannelSink, after: Sinks)
    requires forall i :: 0 <= i < |before| ==> before[i].name != gone.name
    requires forall i :: 0 <= i < |after| ==> after[i].name != gone.name
    ensures Without(before + [gone] + after, gone.name) == before + after
    decreases |after|
  {
    var all := before + [gone] + after;
    if after == [] {
      assert all[..|all| - 1] == before;
      WithoutDropsNone(before, gone.name);
    } else {
      var fewer, last := after[..|after| - 1], after[|after| - 1];
      assert all[..|all| - 1] == before + [gone] + fewer;
      WithoutDropsOne(before, gone, fewer);
      assert (before + fewer) + [last] == before + after;
    }
  }

  class OutputDestinations {
    var current: Sinks

    constructor (sinks: Sinks)
      ensures current == sinks
    {
      current := sinks;
    }

    /** Adds a sink at the end, in place of any of its name. */
    method Insert(sink: ChannelSink)
      modifies this
      ensures current == Without(old(current), sink.name) + [sink]
      ensures UniqueNames(old(current)) ==> UniqueNames(current)
    {
      if UniqueNames(current) {
        WithoutKeepsUnique(current, sink.name);
      }
      WithoutIsTheRest(current, sink.name);
      current := Without(current, sink.name) + [sink];
    }

    /** Removes the sink of this name, and says whether there was one. */
    method Remove(name: string) returns (removed: bool)
      modifies this
      ensures current == Without(old(current), name)
      ensures removed <==> exists i :: 0 <= i < |old(current)| && old(current)[i].name == name
      ensures UniqueNames(old(current)) ==> UniqueNames(current)
    {
      if UniqueNames(current) {
        WithoutKeepsUnique(current, name);
      }
      WithoutIsTheRest(current, name);
      var before := |current|;
      current := Without(current, name);
      removed := |current| != before;
    }

    /** Someone turns a destination on or off. */
    method Toggle(sink: ChannelSink)
      modifies this
      ensures UniqueNames(old(current)) ==> UniqueNames(current)
    {
      if * {
        Insert(sink);
      } else {
        var _ := Remove(sink.name);
      }
    }
  }

  // ---- The dispatch ----

  datatype Status = Disabled | Queued | Skipped(rejection: Rejection)
  datatype Error = NoFrame | NoReadiness | BadTrace
  datatype Dispatched = Done(status: Status) | Failed(error: Error)

  /** The offers made to each sink so far. */
  ghost predicate HaveOffers(sinks: Sinks, offers: seq<seq<Offer>>)
    reads sinks
  {
    && |offers| == |sinks|
    && forall i :: 0 <= i < |sinks| ==> sinks[i].Valid() && sinks[i].offers == offers[i]
  }

  /** The job offered once to each of the first sinks, and to no other. */
  ghost predicate OfferedOnce(sinks: Sinks, before: seq<seq<Offer>>, made: seq<Offer>, job: Job)
    reads sinks
  {
    && |made| <= |before| == |sinks|
    && (forall i :: 0 <= i < |made| ==> made[i].job == job)
    && forall i :: 0 <= i < |sinks| ==>
      sinks[i].Valid() && sinks[i].offers == if i < |made| then before[i] + [made[i]] else before[i]
  }

  predicate SomeTook(made: seq<Offer>) {
    exists i :: 0 <= i < |made| && Answer(made[i]) == None
  }

  predicate AllTook(made: seq<Offer>) {
    TookUpTo(made, |made|)
  }

  predicate TookUpTo(made: seq<Offer>, n: int) {
    forall i :: 0 <= i < n && i < |made| ==> Answer(made[i]) == None
  }

  predicate Distinct(sinks: Sinks) {
    forall i, j :: 0 <= i < j < |sinks| ==> sinks[i] != sinks[j]
  }

  /** The workers of all of them at work. */
  method WorkersRun(sinks: Sinks)
    requires Distinct(sinks) && forall i :: 0 <= i < |sinks| ==> sinks[i].Valid()
    modifies sinks
    ensures forall i :: 0 <= i < |sinks| ==> sinks[i].Valid() && sinks[i].offers == old(sinks[i].offers)
  {
    for k := 0 to |sinks|
      invariant forall i :: 0 <= i < |sinks| ==> sinks[i].Valid() && sinks[i].offers == old(sinks[i].offers)
    {
      sinks[k].WorkerRuns();
    }
  }

  /** Offers the job to one sink more, with the workers at work and somebody turning destinations on
      and off. */
  method OfferOne(sinks: Sinks, i: nat, destinations: OutputDestinations, other: ChannelSink, job: Job,
                  ghost before: seq<seq<Offer>>, ghost made: seq<Offer>)
    returns (rejection: Option<Rejection>, ghost offer: Offer)
    requires i == |made| < |sinks| && Distinct(sinks) && UniqueNames(destinations.current)
    requires OfferedOnce(sinks, before, made, job)
    modifies destinations, sinks
    ensures UniqueNames(destinations.current) && OfferedOnce(sinks, before, made + [offer], job)
    ensures rejection == Answer(offer)
  {
    WorkersRun(sinks);
    destinations.Toggle(other);
    rejection := sinks[i].Submit(job);
    offer := sinks[i].offers[|sinks[i].offers| - 1];
  }

  lemma OneMoreOffer(made: seq<Offer>, offer: Offer)
    ensures SomeTook(made + [offer]) <==> SomeTook(made) || Answer(offer) == None
    ensures AllTook(made + [offer]) <==> AllTook(made) && Answer(offer) == None
  {
    var more := made + [offer];
    assert more[|made|] == offer && forall i :: 0 <= i < |made| ==> more[i] == made[i];
    if SomeTook(made) {
      var k :| 0 <= k < |made| && Answer(made[k]) == None;
      assert more[k] == made[k];
    }
  }

  /** Offers a job to each of these sinks, while their workers take jobs and others may be replacing the
      set they came from. */
  method OfferAll(sinks: Sinks, destinations: OutputDestinations, other: ChannelSink, job: Job, tracesValid: bool,
                  ghost before: seq<seq<Offer>>)
    returns (delivered: nat, last: Option<Rejection>, bad: bool, ghost made: seq<Offer>)
    requires Distinct(sinks) && HaveOffers(sinks, before) && UniqueNames(destinations.current)
    modifies destinations, sinks
    ensures UniqueNames(destinations.current) && OfferedOnce(sinks, before, made, job)
    ensures Reckoned(made, delivered, last)
    ensures bad <==> !tracesValid && !AllTook(made)
    ensures if bad then TookUpTo(made, |made| - 1) else |made| == |sinks|
  {
    delivered, last, bad, made := 0, None, false, [];
    for i := 0 to |sinks|
      invariant |made| == i && UniqueNames(destinations.current) && OfferedOnce(sinks, before, made, job)
      invariant Reckoned(made, delivered, last) && (tracesValid || AllTook(made))
    {
      delivered, last, bad, made :=
        OfferNext(sinks, i, destinations, other, job, tracesValid, delivered, last, before, made);
      if bad {
        return;
      }
    }
  }

  /** One offer and its reckoning; a job turned away has its trace checked, which is the same for every
      destination. */
  method OfferNext(sinks: Sinks, i: nat, destinations: OutputDestinations, other: ChannelSink, job: Job,
                   tracesValid: bool, delivered: nat, last: Option<Rejection>,
                   ghost before: seq<seq<Offer>>, ghost made: seq<Offer>)
    returns (delivered': nat, last': Option<Rejection>, bad: bool, ghost made': seq<Offer>)
    requires i == |made| < |sinks| && Distinct(sinks) && UniqueNames(destinations.current)
    requires OfferedOnce(sinks, before, made, job) && Reckoned(made, delivered, last)
    requires tracesValid || AllTook(made)
    modifies destinations, sinks
    ensures UniqueNames(destinations.current) && OfferedOnce(sinks, before, made', job)
    ensures |made'| == i + 1 && Reckoned(made', delivered', last')
    ensures bad <==> !tracesValid && !AllTook(made')
    ensures bad ==> TookUpTo(made', i)
  {
    var rejection;
    ghost var offer;
    rejection, offer := OfferOne(sinks, i, destinations, other, job, before, made);
    ReckonOne(made, offer, delivered, last);
    made', delivered', last', bad := made + [offer], delivered, last, false;
    if rejection == None {
      delivered' := delivered + 1;
    } else {
      last' := rejection;
      bad := !tracesValid;
    }
  }

  /** What the dispatch's two variables say of the offers made. */
  ghost predicate Reckoned(made: seq<Offer>, delivered: nat, last: Option<Rejection>) {
    && (delivered > 0 <==> SomeTook(made))
    && (made != [] && !SomeTook(made) ==> last == Answer(made[|made| - 1]))
  }

  lemma ReckonOne(made: seq<Offer>, offer: Offer, delivered: nat, last: Option<Rejection>)
    requires Reckoned(made, delivered, last)
    ensures if Answer(offer) == None then Reckoned(made + [offer], delivered + 1, last)
            else Reckoned(made + [offer], delivered, Answer(offer))
    ensures AllTook(made + [offer]) <==> AllTook(made) && Answer(offer) == None
  {
    OneMoreOffer(made, offer);
  }

  /** What a round of offers comes to. */
  function Outcome(tracesValid: bool, made: seq<Offer>): Dispatched
    requires made != []
  {
    if !tracesValid && !AllTook(made) then Failed(BadTrace)
    else if SomeTook(made) then Done(Queued)
    else
      assert Answer(made[|made| - 1]) != None;
      Done(Skipped(Answer(made[|made| - 1]).value))
  }

  /** Offers one capture to every destination of the set as it stands when the dispatch begins. A
      destination that is full or gone keeps no other from its copy; only a trace that does not check
      out stops the round. */
  method Dispatch(destinations: OutputDestinations, other: ChannelSink, job: Job, hasFrame: bool, hasOffset: bool,
                  tracesValid: bool)
    returns (r: Dispatched, ghost before: seq<seq<Offer>>, ghost made: seq<Offer>)
    requires Distinct(destinations.current) && UniqueNames(destinations.current)
    requires forall i :: 0 <= i < |destinations.current| ==> destinations.current[i].Valid()
    modifies destinations, destinations.current
    ensures UniqueNames(destinations.current)
    ensures old(HaveOffers(destinations.current, before))
    ensures OfferedOnce(old(destinations.current), before, made, job)
    ensures before != [] && hasFrame && hasOffset ==>
      (if tracesValid || AllTook(made) then |made| == |before| else TookUpTo(made, |made| - 1))
      && r == Outcome(tracesValid, made)
    ensures before == [] ==> r == if tracesValid then Done(Disabled) else Failed(BadTrace)
    ensures before != [] && !hasFrame ==> r == Failed(NoFrame) && made == []
    ensures before != [] && hasFrame && !hasOffset ==> r == Failed(NoReadiness) && made == []
  {
    var sinks := destinations.current;
    before := seq(|sinks|, i requires 0 <= i < |sinks| reads sinks => sinks[i].offers);
    made := [];
    if sinks == [] {
      r := if tracesValid then Done(Disabled) else Failed(BadTrace);
      return;
    }
    if !hasFrame {
      return Failed(NoFrame), before, [];
    }
    if !hasOffset {
      return Failed(NoReadiness), before, [];
    }
    r, made := Deliver(sinks, destinations, other, job, tracesValid, before);
  }

  /** The round of offers, and what the dispatch makes of it. */
  method Deliver(sinks: Sinks, destinations: OutputDestinations, other: ChannelSink, job: Job, tracesValid: bool,
                 ghost before: seq<seq<Offer>>)
    returns (r: Dispatched, ghost made: seq<Offer>)
    requires sinks != [] && Distinct(sinks) && HaveOffers(sinks, before) && UniqueNames(destinations.current)
    modifies destinations, sinks
    ensures UniqueNames(destinations.current) && OfferedOnce(sinks, before, made, job)
    ensures if tracesValid || AllTook(made) then |made| == |sinks| else TookUpTo(made, |made| - 1)
    ensures r == Outcome(tracesValid, made)
  {
    var delivered, last, bad;
    delivered, last, bad, made := OfferAll(sinks, destinations, other, job, tracesValid, before);
    if bad {
      r := Failed(BadTrace);
    } else if delivered > 0 {
      r := Done(Queued);
    } else if tracesValid {
      r := Done(Skipped(last.value));
    } else {
      r := Failed(BadTrace);
    }
  }
}
