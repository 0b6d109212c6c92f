/** A directory listing of captures is in the order they were taken, for any template that leads
    with the timestamp, as the default one does. */
module NameOrder {
  import opened Text
  import opened TemplateRules
  import opened FilenameTemplate
  import Clock

  const DEFAULT_FILENAME_TEMPLATE := "{timestamp}-{application}-{title}"

  function Name(template: string, context: TemplateContext): string {
    FinalStem(Expansion(template, token => TokenValue(token, context)), RESERVED_STEMS)
  }

  function TimestampText(m: Clock.Moment): string
    requires Clock.InRange(m) && m.date.year >= 0
  {
    DateText(m.date) + "-" + TimeText(m)
  }

  // ---- Timestamps sort as text ----

  lemma FieldSorts(x: nat, y: nat, width: nat, a: string, b: string)
    requires width >= 1 && x <= y < Pow10(width)
    requires x < y || SortsBefore(a, b)
    ensures SortsBefore(Padded(x, width) + a, Padded(y, width) + b)
  {
    PaddedLength(x, width);
    PaddedLength(y, width);
    if x < y {
      PaddedSorts(x, y, width);
      SortsByBeginning(Padded(x, width), Padded(y, width), a, b);
    } else {
      SortsByRest(Padded(x, width), a, b);
    }
  }

  lemma PowersOfTen()
    ensures Pow10(2) == 100 && Pow10(3) == 1_000 && Pow10(4) == 10_000
  {
    assert Pow10(1) == 10;
  }

  function ClockText(m: Clock.Moment): string
    requires Clock.InRange(m)
  {
    Padded(m.hour, 2) + (Padded(m.minute, 2) + (Padded(m.second, 2) + ("-" + Padded(m.millis, 3))))
  }

  lemma ClockTextSorts(a: Clock.Moment, b: Clock.Moment)
    requires Clock.InRange(a) && Clock.InRange(b)
    requires a.date == b.date && Clock.Earlier(a, b)
    ensures SortsBefore(ClockText(a), ClockText(b))
  {
    PowersOfTen();
    var x3, y3 := "-" + Padded(a.millis, 3), "-" + Padded(b.millis, 3);
    if a.hour == b.hour && a.minute == b.minute && a.second == b.second {
      PaddedSorts(a.millis, b.millis, 3);
      SortsByRest("-", Padded(a.millis, 3), Padded(b.millis, 3));
    }
    var x2, y2 := Padded(a.second, 2) + x3, Padded(b.second, 2) + y3;
    if a.hour == b.hour && a.minute == b.minute {
      FieldSorts(a.second, b.second, 2, x3, y3);
    }
    var x1, y1 := Padded(a.minute, 2) + x2, Padded(b.minute, 2) + y2;
    if a.hour == b.hour {
      FieldSorts(a.minute, b.minute, 2, x2, y2);
    }
    FieldSorts(a.hour, b.hour, 2, x1, y1);
  }

  function LinkedText(m: Clock.Moment): string
    requires Clock.InRange(m) && m.date.year >= 0
  {
    Padded(m.date.year, 4) + (Padded(m.date.month, 2) + (Padded(m.date.day, 2) + ("-" + ClockText(m))))
  }

  lemma LinkedTextIsTheTimestamp(m: Clock.Moment)
    requires Clock.InRange(m) && m.date.year >= 0
    ensures TimestampText(m) == LinkedText(m)
  {
    var tail := "-" + Padded(m.millis, 3);
    assert TimeText(m) == ClockText(m);
    assert DateText(m.date) + "-" + ClockText(m) == LinkedText(m);
  }

  lemma TimestampsSort(a: Clock.Moment, b: Clock.Moment)
    requires Clock.InRange(a) && Clock.InRange(b)
    requires 0 <= a.date.year && b.date.year <= 9999
    requires Clock.Earlier(a, b)
    ensures SortsBefore(TimestampText(a), TimestampText(b))
  {
    PowersOfTen();
    LinkedTextIsTheTimestamp(a);
    LinkedTextIsTheTimestamp(b);
    var x3, y3 := "-" + ClockText(a), "-" + ClockText(b);
    if a.date == b.date {
      ClockTextSorts(a, b);
      SortsByRest("-", ClockText(a), ClockText(b));
    }
    var x2, y2 := Padded(a.date.day, 2) + x3, Padded(b.date.day, 2) + y3;
    if a.date.year == b.date.year && a.date.month == b.date.month {
      FieldSorts(a.date.day, b.date.day, 2, x3, y3);
    }
    var x1, y1 := Padded(a.date.month, 2) + x2, Padded(b.date.month, 2) + y2;
    if a.date.year == b.date.year {
      FieldSorts(a.date.month, b.date.month, 2, x2, y2);
    }
    FieldSorts(a.date.year, b.date.year, 4, x1, y1);
  }

  // ---- The beginning of a name survives the rules for the whole ----

  /** Text a name may begin with and keep: tidy, and long enough to be no device name. */
  ghost predicate Sturdy(p: string) {
    4 < |p| <= MAX_FIELD_CHARS && SingleDashed(p) && Lacks(p, '.')
    && !Trimmable(p[0]) && !Trimmable(p[|p| - 1]) && !Untidy(p[|p| - 1])
  }

  lemma {:induction false} CollapsedGrows(s: string, m: nat, n: nat, limit: nat)
    requires m <= n <= |s|
    ensures Collapsed(s, m, limit) <= Collapsed(s, n, limit)
    decreases n - m
  {
    if m < n {
      CollapsedGrows(s, m, n - 1, limit);
    }
  }

  lemma {:induction false} CollapsedKeeps(s: string, n: nat, limit: nat)
    requires n <= |s| && n <= limit && SingleDashed(s[..n])
    ensures Collapsed(s, n, limit) == s[..n]
  {
    if n > 0 {
      assert forall k :: 0 <= k < n - 1 ==> s[..n - 1][k] == s[..n][k];
      CollapsedKeeps(s, n - 1, limit);
      assert s[..n][n - 1] == s[n - 1];
      assert n > 1 ==> s[..n][n - 2] == s[n - 2];
    }
  }

  lemma TrimmedKeeps(p: string, rest: string)
    requires Sturdy(p)
    ensures p <= Trimmed(p + rest)
  {
    var s := p + rest;
    assert s[0] == p[0] && s[|p| - 1] == p[|p| - 1];
    assert TrimStart(s, 0) == 0;
    assert TrimEnd(s, 0, |s|) >= |p|;
  }

  lemma TidiedKeeps(p: string, rest: string)
    requires Sturdy(p)
    ensures p <= Tidied(p + rest)
  {
    TrimmedKeeps(p, rest);
    var t := Trimmed(p + rest);
    assert t[..|p|] == p;
    CollapsedKeeps(t, |p|, MAX_STEM_CHARS);
    CollapsedGrows(t, |p|, |t|, MAX_STEM_CHARS);
    var c := Collapsed(t, |t|, MAX_STEM_CHARS);
    assert c[|p| - 1] == p[|p| - 1];
    assert TidyEnd(c, |c|) >= |p|;
  }

  lemma FinalStemKeeps(p: string, rest: string, reserved: seq<string>)
    requires Sturdy(p) && ShortWords(reserved)
    ensures p <= FinalStem(p + rest, reserved)
  {
    TidiedKeeps(p, rest);
    var t := Tidied(p + rest);
    assert IndexOf(t, '.') >= |p| by {
      assert forall k :: 0 <= k < |p| ==> t[k] == p[k];
    }
    assert |Lowercase(Leading(t))| > 4;
  }

  // ---- The names ----

  lemma DateIsDigits(d: Clock.Date)
    requires Clock.ValidDate(d) && 0 <= d.year <= 9999
    ensures |DateText(d)| == 8 && forall k :: 0 <= k < 8 ==> IsDigit(DateText(d)[k])
  {
    PowersOfTen();
    PaddedLength(d.year, 4);
    PaddedLength(d.month, 2);
    PaddedLength(d.day, 2);
  }

  lemma TimeIsDigits(m: Clock.Moment)
    requires Clock.InRange(m)
    ensures |TimeText(m)| == 10 && TimeText(m)[6] == '-'
    ensures forall k :: 0 <= k < 10 && k != 6 ==> IsDigit(TimeText(m)[k])
  {
    PowersOfTen();
    PaddedLength(m.hour, 2);
    PaddedLength(m.minute, 2);
    PaddedLength(m.second, 2);
    PaddedLength(m.millis, 3);
  }

  lemma TimestampIsSturdy(m: Clock.Moment)
    requires Clock.InRange(m) && 0 <= m.date.year <= 9999
    ensures |TimestampText(m)| == 19 && Sturdy(TimestampText(m)) && Sanitized(TimestampText(m)) == TimestampText(m)
  {
    DateIsDigits(m.date);
    TimeIsDigits(m);
    var t, date, time := TimestampText(m), DateText(m.date), TimeText(m);
    assert forall k :: 0 <= k < 8 ==> t[k] == date[k];
    assert forall k :: 9 <= k < 19 ==> t[k] == time[k - 9];
    assert t[8] == '-' && t[15] == '-' && forall k :: 0 <= k < 19 && k != 8 && k != 15 ==> IsDigit(t[k]);
    assert forall c :: IsDigit(c) || c == '-' ==> Keepable(c);
    CleanFieldIsKept(t, 19, MAX_FIELD_CHARS);
  }

  /** Whether a template puts the timestamp before everything else. */
  ghost predicate LeadsWithTimestamp(template: string) {
    exists rest :: template == Braced(Piece("", "timestamp"), rest)
  }

  /** The expansion of such a template begins with the timestamp, whatever meaning other tokens have. */
  lemma ExpansionBeginsWithTimestamp(template: string, value: string -> string, m: Clock.Moment) returns (more: string)
    requires LeadsWithTimestamp(template) && Clock.InRange(m) && 0 <= m.date.year <= 9999
    requires value("timestamp") == TimestampText(m)
    ensures Expansion(template, value) == TimestampText(m) + more
  {
    var p := Piece("", "timestamp");
    var rest :| template == Braced(p, rest);
    CutOfBraced(p, rest);
    TimestampIsSturdy(m);
    more := Expansion(rest, value);
  }

  lemma StemBeginsWithTimestamp(m: Clock.Moment, more: string, reserved: seq<string>)
    requires Clock.InRange(m) && 0 <= m.date.year <= 9999 && ShortWords(reserved)
    ensures TimestampText(m) <= FinalStem(TimestampText(m) + more, reserved)
  {
    TimestampIsSturdy(m);
    FinalStemKeeps(TimestampText(m), more, reserved);
  }

  lemma NameBeginsWithTimestamp(template: string, context: TemplateContext)
    requires LeadsWithTimestamp(template)
    requires Clock.UtcParts(context.timestampMicros).date.year <= 9999
    ensures Clock.UtcParts(context.timestampMicros).date.year >= 0
    ensures TimestampText(Clock.UtcParts(context.timestampMicros)) <= Name(template, context)
  {
    var m := Clock.UtcParts(context.timestampMicros);
    Clock.UtcPartsYear(context.timestampMicros);
    var value := token => TokenValue(token, context);
    assert value("timestamp") == TimestampText(m);
    var more := ExpansionBeginsWithTimestamp(template, value, m);
    ReservedStemsAreShort();
    StemBeginsWithTimestamp(m, more, RESERVED_STEMS);
  }

  /** Two captures in different milliseconds, up to the year 9999, are listed in the order they
      were taken, whatever windows they were of. */
  lemma NamesSortByTime(template: string, a: TemplateContext, b: TemplateContext)
    requires LeadsWithTimestamp(template)
    requires a.timestampMicros / 1_000 < b.timestampMicros / 1_000
    requires b.timestampMicros / 1_000_000 <= Clock.I64_MAX
    requires Clock.UtcParts(b.timestampMicros).date.year <= 9999
    ensures SortsBefore(Name(template, a), Name(template, b))
  {
    MomentsInOrder(a.timestampMicros, b.timestampMicros);
    NameBeginsWithTimestamp(template, a);
    NameBeginsWithTimestamp(template, b);
    TextsSortByTimestamp(Clock.UtcParts(a.timestampMicros), Clock.UtcParts(b.timestampMicros),
      Name(template, a), Name(template, b));
  }

  lemma MomentsInOrder(a: nat, b: nat)
    requires a / 1_000 < b / 1_000 && b / 1_000_000 <= Clock.I64_MAX
    ensures var x, y := Clock.UtcParts(a), Clock.UtcParts(b);
      Clock.InRange(x) && Clock.InRange(y) && Clock.Earlier(x, y) && 0 <= x.date.year
  {
    Clock.UtcPartsOrders(a, b);
    Clock.UtcPartsYear(a);
  }

  lemma TextsSortByTimestamp(x: Clock.Moment, y: Clock.Moment, s: string, t: string)
    requires Clock.InRange(x) && Clock.InRange(y) && Clock.Earlier(x, y)
    requires 0 <= x.date.year && y.date.year <= 9999
    requires TimestampText(x) <= s && TimestampText(y) <= t
    ensures SortsBefore(s, t)
  {
    TimestampIsSturdy(x);
    TimestampIsSturdy(y);
    TimestampsSort(x, y);
    SortsByPrefix(TimestampText(x), TimestampText(y), s, t);
  }

  lemma DefaultTemplateLeadsWithTimestamp()
    ensures LeadsWithTimestamp(DEFAULT_FILENAME_TEMPLATE)
  {
    assert DEFAULT_FILENAME_TEMPLATE == Braced(Piece("", "timestamp"), "-{application}-{title}");
  }
}
