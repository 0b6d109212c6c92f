/** Turning a capture into a file name the user chose the shape of (captastic-app's
    filename_template.rs): expansion, the sanitizing of each field, and the rules for the whole. */
module FilenameTemplate {
  import opened Wrappers
  import opened Text
  import opened TemplateRules
  import Clock

  const FORBIDDEN: set<char> := {'<', '>', ':', '"', '/', '\\', '|', '?', '*'}
  const RESERVED_STEMS: seq<string> := [
    "con", "prn", "aux", "nul",
    "com1", "com2", "com3", "com4", "com5", "com6", "com7", "com8", "com9",
    "lpt1", "lpt2", "lpt3", "lpt4", "lpt5", "lpt6", "lpt7", "lpt8", "lpt9"
  ]
  const MAX_FIELD_CHARS: nat := 64
  const MAX_STEM_CHARS: nat := 120

  // ---- One field ----

  /** Characters a field may carry into a name as they are. */
  predicate Keepable(c: char) {
    !IsControl(c) && c !in FORBIDDEN && c != '{' && c != '}' && !IsWhitespace(c) && c != '.'
  }

  /** What the first `n` characters of `v` leave in the name, cut at `limit`. */
  function Field(v: string, n: nat, limit: nat): string
    requires n <= |v|
  {
    if n == 0 then ""
    else
      var before := Field(v, n - 1, limit);
      if |before| >= limit || !Keepable(v[n - 1]) then before
      else if n > 1 && !Keepable(v[n - 2]) && before != "" then before + ['-', v[n - 1]]
      else before + [v[n - 1]]
  }

  function Sanitized(v: string): string {
    Field(v, |v|, MAX_FIELD_CHARS)
  }

  /** Where the run of keepable characters around `i` ends. */
  function RunEnd(v: string, i: nat): (j: nat)
    requires i <= |v|
    ensures i <= j <= |v| && (forall k :: i <= k < j ==> Keepable(v[k])) && (j < |v| ==> !Keepable(v[j]))
    decreases |v| - i
  {
    if i == |v| || !Keepable(v[i]) then i else RunEnd(v, i + 1)
  }

  /** The maximal runs of keepable characters from `i` on, joined by single dashes. */
  function JoinedRuns(v: string, i: nat): string
    requires i <= |v|
    decreases |v| - i
  {
    if i == |v| then ""
    else if !Keepable(v[i]) then JoinedRuns(v, i + 1)
    else
      var j := RunEnd(v, i);
      JoinDash(v[i..j], JoinedRuns(v, j))
  }

  method SanitizeField(value: string) returns (sanitized: string)
    ensures sanitized == Sanitized(value)
  {
    sanitized := "";
    var pendingSeparator := false;
    var i := 0;
    while i < |value|
      invariant 0 <= i <= |value|
      invariant sanitized == Field(value, i, MAX_FIELD_CHARS)
      invariant pendingSeparator == (i > 0 && !Keepable(value[i - 1]))
      invariant |sanitized| < MAX_FIELD_CHARS
    {
      var c := value[i];
      var acceptable := !IsControl(c) && c !in FORBIDDEN && c != '{' && c != '}';
      if acceptable && !IsWhitespace(c) && c != '.' {
        if pendingSeparator && sanitized != "" {
          sanitized := sanitized + ['-'];
        }
        pendingSeparator := false;
        sanitized := sanitized + [c];
      } else {
        pendingSeparator := true;
      }
      i := i + 1;
      if |sanitized| >= MAX_FIELD_CHARS {
        FieldStopsAtLimit(value, i, |value|, MAX_FIELD_CHARS);
        return;
      }
    }
  }

  lemma {:induction false} FieldStopsAtLimit(v: string, m: nat, n: nat, limit: nat)
    requires m <= n <= |v| && |Field(v, m, limit)| >= limit
    ensures Field(v, n, limit) == Field(v, m, limit)
    decreases n - m
  {
    if m < n {
      FieldStopsAtLimit(v, m, n - 1, limit);
    }
  }

  /** Cutting keeps a beginning: at most one character past the limit, and then only because a
      separator landed exactly on it. */
  lemma {:induction false} FieldIsABeginning(v: string, n: nat, limit: nat, whole: nat)
    requires n <= |v| && 1 <= limit <= whole
    ensures Field(v, n, limit) <= Field(v, n, whole)
    ensures |Field(v, n, limit)| <= limit + 1
    ensures |Field(v, n, limit)| == limit + 1 ==> Field(v, n, limit)[limit - 1] == '-'
    ensures |Field(v, n, limit)| < limit ==> Field(v, n, limit) == Field(v, n, whole)
    ensures |Field(v, n, whole)| <= 2 * n
  {
    if n > 0 {
      FieldIsABeginning(v, n - 1, limit, whole);
    }
  }

  lemma {:induction false} CleanFieldIsKept(v: string, n: nat, limit: nat)
    requires n <= |v| && n <= limit
    requires forall k :: 0 <= k < n ==> Keepable(v[k])
    ensures Field(v, n, limit) == v[..n]
  {
    if n > 0 {
      CleanFieldIsKept(v, n - 1, limit);
    }
  }

  /** Character `k - 1` comes with a separator before it, and only one place is left under the limit. */
  predicate SeparatorTakesTheLast(v: string, k: nat, limit: nat)
    requires 2 <= k <= |v| && 0 < limit
  {
    |Field(v, k - 1, limit)| == limit - 1 && !Keepable(v[k - 2]) && Keepable(v[k - 1])
  }

  /** Exactly when a field outgrows its limit. */
  lemma {:induction false} FieldOverruns(v: string, n: nat, limit: nat)
    requires n <= |v| && 1 < limit
    ensures |Field(v, n, limit)| > limit <==> exists k :: 2 <= k <= n && SeparatorTakesTheLast(v, k, limit)
  {
    if n > 0 {
      FieldOverruns(v, n - 1, limit);
      var before := Field(v, n - 1, limit);
      if |before| > limit {
        var k :| 2 <= k <= n - 1 && SeparatorTakesTheLast(v, k, limit);
        assert 2 <= k <= n && SeparatorTakesTheLast(v, k, limit);
      } else if |Field(v, n, limit)| > limit {
        assert SeparatorTakesTheLast(v, n, limit);
      } else if n >= 2 {
        assert !SeparatorTakesTheLast(v, n, limit);
      }
    }
  }

  /** For instance of a value that is clean up to the last place, which a separator then takes. */
  lemma FieldOfOneTooMany(v: string, limit: nat)
    requires 1 < limit && |v| == limit + 1 && !Keepable(v[limit - 1]) && Keepable(v[limit])
    requires forall k :: 0 <= k < limit - 1 ==> Keepable(v[k])
    ensures Field(v, limit + 1, limit) == v[..limit - 1] + "-" + [v[limit]]
    ensures |Field(v, limit + 1, limit)| == limit + 1
  {
    CleanFieldIsKept(v, limit - 1, limit);
    assert Field(v, limit, limit) == v[..limit - 1];
  }

  /** Uncut, a field is its runs of keepable characters joined by single dashes: every run of
      anything else between two of them becomes one dash, and none vanishes. */
  lemma UncutFieldJoinsRuns(v: string, limit: nat)
    requires limit > 2 * |v|
    ensures Field(v, |v|, limit) == JoinedRuns(v, 0)
  {
    FieldThenRuns(v, 0, limit);
  }

  function JoinDash(a: string, b: string): string {
    if a == "" then b else if b == "" then a else a + "-" + b
  }

  lemma JoinDashAssociates(a: string, b: string, c: string)
    requires b != ""
    ensures JoinDash(JoinDash(a, b), c) == JoinDash(a, JoinDash(b, c))
  {
    assert a + "-" + b + "-" + c == a + "-" + (b + "-" + c);
  }

  lemma {:induction false} FieldThenRuns(v: string, i: nat, limit: nat)
    requires i <= |v| && limit > 2 * |v|
    requires i == 0 || i == |v| || !Keepable(v[i - 1]) || !Keepable(v[i])
    ensures Field(v, |v|, limit) == JoinDash(Field(v, i, limit), JoinedRuns(v, i))
    decreases |v| - i
  {
    if i < |v| {
      if !Keepable(v[i]) {
        FieldThenRuns(v, i + 1, limit);
      } else {
        FieldOfRun(v, i, limit);
        FieldThenRuns(v, RunEnd(v, i), limit);
        RunThenRuns(Field(v, i, limit), v, i);
      }
    }
  }

  lemma RunThenRuns(before: string, v: string, i: nat)
    requires i < |v| && Keepable(v[i])
    ensures var j := RunEnd(v, i);
      JoinDash(JoinDash(before, v[i..j]), JoinedRuns(v, j)) == JoinDash(before, JoinedRuns(v, i))
  {
    var j := RunEnd(v, i);
    JoinDashAssociates(before, v[i..j], JoinedRuns(v, j));
  }

  lemma FieldOfRun(v: string, i: nat, limit: nat)
    requires i < |v| && limit > 2 * |v| && Keepable(v[i])
    requires i == 0 || !Keepable(v[i - 1])
    ensures Field(v, RunEnd(v, i), limit) == JoinDash(Field(v, i, limit), v[i..RunEnd(v, i)])
  {
    UncutFieldIsShort(v, i, limit);
    RunBegins(v, i, limit);
    FieldOverRun(v, i, RunEnd(v, i), limit);
  }

  /** The rest of a run follows its beginning. */
  lemma {:induction false} FieldOverRun(v: string, i: nat, j: nat, limit: nat)
    requires i < j <= |v| && limit > 2 * |v|
    requires Field(v, i + 1, limit) == JoinDash(Field(v, i, limit), v[i..i + 1])
    requires forall k :: i <= k < j ==> Keepable(v[k])
    ensures Field(v, j, limit) == JoinDash(Field(v, i, limit), v[i..j])
    decreases j
  {
    if i + 1 < j {
      FieldOverRun(v, i, j - 1, limit);
      UncutFieldIsShort(v, j - 1, limit);
      RunGoesOn(v, j, limit);
      JoinedRunGrows(Field(v, i, limit), v, i, j);
    }
  }

  lemma UncutFieldIsShort(v: string, n: nat, limit: nat)
    requires n <= |v| && limit > 2 * |v|
    ensures |Field(v, n, limit)| < limit
  {
    FieldIsABeginning(v, n, limit, limit);
  }

  lemma RunGoesOn(v: string, n: nat, limit: nat)
    requires 1 < n <= |v| && Keepable(v[n - 2]) && Keepable(v[n - 1]) && |Field(v, n - 1, limit)| < limit
    ensures Field(v, n, limit) == Field(v, n - 1, limit) + [v[n - 1]]
  {
  }

  lemma RunBegins(v: string, i: nat, limit: nat)
    requires i < |v| && Keepable(v[i]) && |Field(v, i, limit)| < limit
    requires i == 0 || !Keepable(v[i - 1])
    ensures Field(v, i + 1, limit) == JoinDash(Field(v, i, limit), v[i..i + 1])
  {
    var before, run := Field(v, i, limit), v[i..i + 1];
    assert run == [v[i]];
    assert before + ['-', v[i]] == before + "-" + run;
  }

  lemma JoinedRunGrows(before: string, v: string, i: nat, j: nat)
    requires i + 1 < j <= |v|
    ensures JoinDash(before, v[i..j]) == JoinDash(before, v[i..j - 1]) + [v[j - 1]]
  {
    var run := v[i..j - 1];
    assert v[i..j] == run + [v[j - 1]];
    assert before + "-" + run + [v[j - 1]] == before + "-" + (run + [v[j - 1]]);
  }

  /** A field never carries a character a file system treats specially. */
  lemma {:induction false} FieldIsClean(v: string, n: nat, limit: nat)
    requires n <= |v|
    ensures forall k :: 0 <= k < |Field(v, n, limit)| ==> Keepable(Field(v, n, limit)[k])
    ensures forall k :: 0 <= k < |Field(v, n, limit)| ==>
      var c := Field(v, n, limit)[k];
      c !in {'<', '>', ':', '"', '/', '\\', '|', '?', '*', '{', '}', '.'} && !IsControl(c) && !IsWhitespace(c)
  {
    if n > 0 {
      FieldIsClean(v, n - 1, limit);
      assert Keepable('-');
    }
  }

  // ---- The whole name ----

  predicate Trimmable(c: char) {
    c == '-' || IsWhitespace(c)
  }

  function TrimStart(s: string, i: nat): (a: nat)
    requires i <= |s|
    ensures i <= a <= |s| && (forall k :: i <= k < a ==> Trimmable(s[k])) && (a < |s| ==> !Trimmable(s[a]))
    decreases |s| - i
  {
    if i < |s| && Trimmable(s[i]) then TrimStart(s, i + 1) else i
  }

  function TrimEnd(s: string, from: nat, j: nat): (b: nat)
    requires from <= j <= |s|
    ensures from <= b <= j && (forall k :: b <= k < j ==> Trimmable(s[k])) && (b > from ==> !Trimmable(s[b - 1]))
    decreases j
  {
    if from < j && Trimmable(s[j - 1]) then TrimEnd(s, from, j - 1) else j
  }

  /** `s` without the dashes and white space at either end. */
  function Trimmed(s: string): string {
    var a := TrimStart(s, 0);
    s[a..TrimEnd(s, a, |s|)]
  }

  /** The first `n` characters of `s` with runs of dashes collapsed, cut at `limit`. */
  function Collapsed(s: string, n: nat, limit: nat): string
    requires n <= |s|
  {
    if n == 0 then ""
    else
      var before := Collapsed(s, n - 1, limit);
      if |before| >= limit || (n > 1 && s[n - 1] == '-' && s[n - 2] == '-') then before
      else before + [s[n - 1]]
  }

  predicate Untidy(c: char) {
    c == '.' || c == ' ' || c == '-'
  }

  /** How much of `s[..n]` is left once untidy characters are dropped from its end. */
  function TidyEnd(s: string, n: nat): (m: nat)
    requires n <= |s|
    ensures m <= n && (forall k :: m <= k < n ==> Untidy(s[k])) && (m > 0 ==> !Untidy(s[m - 1]))
  {
    if n > 0 && Untidy(s[n - 1]) then TidyEnd(s, n - 1) else n
  }

  function Tidied(s: string): string {
    var t := Trimmed(s);
    var c := Collapsed(t, |t|, MAX_STEM_CHARS);
    c[..TidyEnd(c, |c|)]
  }

  /** The part of a name a device name is recognized by. */
  function Leading(s: string): string {
    s[..IndexOf(s, '.')]
  }

  predicate IsReserved(s: string, reserved: seq<string>) {
    Lowercase(Leading(s)) in reserved
  }

  function FinalStem(s: string, reserved: seq<string>): string {
    var t := Tidied(s);
    if t == "" then "capture" else if IsReserved(t, reserved) then t + "-capture" else t
  }

  method FinalizeStem(stem: string, reserved: seq<string>) returns (finalized: string)
    ensures finalized == FinalStem(stem, reserved)
  {
    var start := TrimStart(stem, 0);
    var trimmed := stem[start..TrimEnd(stem, start, |stem|)];
    finalized := "";
    var previousWasSeparator := false;
    var i := 0;
    while i < |trimmed| && |finalized| < MAX_STEM_CHARS
      invariant 0 <= i <= |trimmed|
      invariant finalized == Collapsed(trimmed, i, MAX_STEM_CHARS)
      invariant previousWasSeparator == (i > 0 && trimmed[i - 1] == '-')
    {
      var c := trimmed[i];
      if !(c == '-' && previousWasSeparator) {
        previousWasSeparator := c == '-';
        finalized := finalized + [c];
      }
      i := i + 1;
    }
    CollapsedStopsAtLimit(trimmed, i, |trimmed|, MAX_STEM_CHARS);
    ghost var collapsed := finalized;
    while finalized != "" && Untidy(finalized[|finalized| - 1])
      invariant |finalized| <= |collapsed| && finalized == collapsed[..|finalized|]
      invariant TidyEnd(collapsed, |collapsed|) == TidyEnd(collapsed, |finalized|)
      decreases |finalized|
    {
      finalized := finalized[..|finalized| - 1];
    }
    if finalized == "" {
      return "capture";
    }
    if Lowercase(finalized[..IndexOf(finalized, '.')]) in reserved {
      return finalized + "-capture";
    }
  }

  lemma {:induction false} CollapsedStopsAtLimit(s: string, m: nat, n: nat, limit: nat)
    requires m <= n <= |s| && (|Collapsed(s, m, limit)| >= limit || m == n)
    ensures Collapsed(s, n, limit) == Collapsed(s, m, limit)
    decreases n - m
  {
    if m < n {
      CollapsedStopsAtLimit(s, m, n - 1, limit);
    }
  }

  /** No two dashes touch. */
  ghost predicate SingleDashed(s: string) {
    forall k :: 0 <= k < |s| - 1 ==> s[k] != '-' || s[k + 1] != '-'
  }

  lemma {:induction false} CollapsedIsTidy(s: string, n: nat, limit: nat)
    requires n <= |s| && limit >= 1
    ensures var c := Collapsed(s, n, limit);
      |c| <= limit && |c| <= n && SingleDashed(c) && (n > 0 ==> c != "" && c[0] == s[0])
    ensures var c := Collapsed(s, n, limit); n > 0 && |c| < limit ==> c[|c| - 1] == s[n - 1]
    ensures forall d :: Lacks(s, d) ==> Lacks(Collapsed(s, n, limit), d)
  {
    if n > 0 {
      CollapsedIsTidy(s, n - 1, limit);
    }
  }

  /** What the rules for the whole name promise of any text, before the device-name rule. */
  lemma TidiedIsTidy(s: string)
    ensures var t := Tidied(s);
      |t| <= MAX_STEM_CHARS && SingleDashed(t)
      && (t != "" ==> !Trimmable(t[0]) && !Untidy(t[|t| - 1]))
    ensures forall d :: Lacks(s, d) ==> Lacks(Tidied(s), d)
  {
    var t := Trimmed(s);
    CollapsedIsTidy(t, |t|, MAX_STEM_CHARS);
    forall d | Lacks(s, d)
      ensures Lacks(t, d)
    {
      assert forall k :: 0 <= k < |t| ==> t[k] == s[TrimStart(s, 0) + k];
    }
  }

  ghost predicate ShortWords(reserved: seq<string>) {
    forall r :: r in reserved ==> 0 < |r| <= 4
  }

  lemma ReservedStemsAreShort()
    ensures ShortWords(RESERVED_STEMS)
  {
  }

  lemma SuffixIsClean()
    ensures SingleDashed("-capture")
    ensures forall k :: 0 <= k < 8 ==> Keepable("-capture"[k])
    ensures forall k :: 0 <= k < 7 ==> Keepable("capture"[k])
    ensures SingleDashed("capture")
  {
    var suffix, fallback := "-capture", "capture";
    assert forall k :: 0 <= k < |suffix| ==> Keepable(suffix[k]);
    assert forall k :: 0 <= k < |fallback| ==> fallback[k] == suffix[k + 1];
  }

  lemma FinalStemIsTidy(s: string, reserved: seq<string>)
    ensures var f := FinalStem(s, reserved);
      f != "" && SingleDashed(f) && !Trimmable(f[0]) && !Untidy(f[|f| - 1])
  {
    TidiedIsTidy(s);
    SuffixIsClean();
  }

  lemma FinalStemAddsOnlyKeepable(s: string, reserved: seq<string>, d: char)
    requires Lacks(s, d) && !Keepable(d)
    ensures Lacks(FinalStem(s, reserved), d)
  {
    TidiedIsTidy(s);
    SuffixIsClean();
    assert Lacks(Tidied(s), d);
  }

  /** The name as a whole, whatever text it was made of. */
  lemma FinalStemIsSafe(s: string, reserved: seq<string>)
    ensures var f := FinalStem(s, reserved);
      && f != "" && SingleDashed(f) && f[0] != '-' && !IsWhitespace(f[0])
      && f[|f| - 1] != '.' && f[|f| - 1] != ' ' && f[|f| - 1] != '-'
    ensures forall d :: Lacks(s, d) && !Keepable(d) ==> Lacks(FinalStem(s, reserved), d)
  {
    FinalStemIsTidy(s, reserved);
    forall d | Lacks(s, d) && !Keepable(d)
      ensures Lacks(FinalStem(s, reserved), d)
    {
      FinalStemAddsOnlyKeepable(s, reserved, d);
    }
  }

  /** Exactly when a device name survives: the suffix changes nothing before a dot. */
  lemma DeviceNameSurvives(s: string, reserved: seq<string>)
    requires ShortWords(reserved)
    ensures IsReserved(FinalStem(s, reserved), reserved) <==>
      IsReserved(Tidied(s), reserved) && !Lacks(Tidied(s), '.')
  {
    var t := Tidied(s);
    if t == "" {
      assert Leading("capture") == "capture";
      assert Lowercase(Leading("")) == "";
    } else if IsReserved(t, reserved) {
      var f := t + "-capture";
      assert IndexOf(t, '.') < |t| ==> f[..IndexOf(t, '.')] == t[..IndexOf(t, '.')];
      if IndexOf(t, '.') < |t| {
        IndexOfAppend(t, "-capture");
      } else {
        assert Lacks(f, '.');
        assert |Lowercase(Leading(f))| > 4;
      }
    }
  }

  lemma {:induction false} PlainIsCollapsed(s: string, n: nat, limit: nat)
    requires n <= |s| && n <= limit && SingleDashed(s)
    ensures Collapsed(s, n, limit) == s[..n]
  {
    if n > 0 {
      PlainIsCollapsed(s, n - 1, limit);
    }
  }

  /** A name with nothing to tidy is left as it is, but for the suffix where it is reserved. */
  lemma TidyNameStays(s: string, reserved: seq<string>)
    requires s != "" && |s| <= MAX_STEM_CHARS && SingleDashed(s) && s[0] != '-' && !IsWhitespace(s[0])
    requires var last := s[|s| - 1]; last != '.' && last != '-' && !IsWhitespace(last)
    ensures FinalStem(s, reserved) == if IsReserved(s, reserved) then s + "-capture" else s
  {
    assert Trimmed(s) == s;
    PlainIsCollapsed(s, |s|, MAX_STEM_CHARS);
    assert Tidied(s) == s;
  }

  /** A stem with nothing to tidy and a device's name before a dot keeps both. */
  lemma DottedDeviceName(s: string, device: string, reserved: seq<string>)
    requires ShortWords(reserved) && device in reserved && Lowercase(device) == device && Lacks(device, '.')
    requires |device| < |s| <= MAX_STEM_CHARS && s[..|device|] == device && s[|device|] == '.'
    requires Lacks(s, '-') && !Trimmable(s[0]) && !Trimmable(s[|s| - 1]) && !Untidy(s[|s| - 1])
    ensures FinalStem(s, reserved) == s + "-capture" && IsReserved(FinalStem(s, reserved), reserved)
  {
    assert Trimmed(s) == s;
    PlainIsCollapsed(s, |s|, MAX_STEM_CHARS);
    assert Tidied(s) == s;
    assert forall k :: 0 <= k < |device| ==> s[k] == device[k];
    assert IndexOf(s, '.') == |device|;
    assert Leading(s) == device;
    DeviceNameSurvives(s, reserved);
  }

  lemma IndexOfAppend(t: string, suffix: string)
    requires IndexOf(t, '.') < |t|
    ensures IndexOf(t + suffix, '.') == IndexOf(t, '.')
  {
    var i, j := IndexOf(t, '.'), IndexOf(t + suffix, '.');
    assert (t + suffix)[i] == t[i];
    assert forall k :: 0 <= k < i ==> (t + suffix)[k] == t[k];
  }

  /** Exactly when a name outgrows the limit: the suffix is added after the cut. */
  lemma LongNames(s: string, reserved: seq<string>)
    requires ShortWords(reserved)
    ensures |FinalStem(s, reserved)| > MAX_STEM_CHARS <==> IsReserved(Tidied(s), reserved) && |Tidied(s)| > 112
    ensures |FinalStem(s, reserved)| > MAX_STEM_CHARS ==> !Lacks(Tidied(s), '.')
    ensures |FinalStem(s, reserved)| <= MAX_STEM_CHARS + 8
  {
    TidiedIsTidy(s);
    var t := Tidied(s);
    if IsReserved(t, reserved) {
      assert |Leading(t)| <= 4;
    }
  }

  // ---- Expansion ----

  datatype TemplateContext = TemplateContext(
    timestampMicros: nat, display: string, mode: string, width: nat, height: nat,
    application: Option<string>, title: Option<string>)

  function DateText(d: Clock.Date): string
    requires d.year >= 0 && d.month >= 0 && d.day >= 0
  {
    Padded(d.year, 4) + Padded(d.month, 2) + Padded(d.day, 2)
  }

  function TimeText(m: Clock.Moment): string
    requires Clock.InRange(m)
  {
    Padded(m.hour, 2) + Padded(m.minute, 2) + Padded(m.second, 2) + "-" + Padded(m.millis, 3)
  }

  function OrEmpty(o: Option<string>): string {
    match o
    case Some(s) => s
    case None => ""
  }

  function TokenValue(token: string, context: TemplateContext): string {
    var m := Clock.UtcParts(context.timestampMicros);
    Clock.UtcPartsYear(context.timestampMicros);
    if token == "timestamp" then DateText(m.date) + "-" + TimeText(m)
    else if token == "date" then DateText(m.date)
    else if token == "time" then TimeText(m)
    else if token == "display" then context.display
    else if token == "mode" then context.mode
    else if token == "width" then Decimal(context.width)
    else if token == "height" then Decimal(context.height)
    else if token == "application" then OrEmpty(context.application)
    else if token == "title" then OrEmpty(context.title)
    else ""
  }

  /** The date and the time of a capture stand in their tokens by their digits. */
  lemma MomentTokensMean(c: TemplateContext)
    requires Clock.UtcParts(c.timestampMicros).date.year <= 9999
    ensures TokenValue("timestamp", c) == TokenValue("date", c) + "-" + TokenValue("time", c)
    ensures var m := Clock.UtcParts(c.timestampMicros);
      && IsDate(TokenValue("date", c), m.date.year, m.date.month, m.date.day)
      && IsTime(TokenValue("time", c), m.hour, m.minute, m.second, m.millis)
  {
    var m := Clock.UtcParts(c.timestampMicros);
    Clock.UtcPartsYear(c.timestampMicros);
    DateTextIsDate(m.date);
    TimeTextIsTime(m);
  }

  /** Every other token stands for the context's field of its name, and no other text for anything. */
  lemma FieldTokensMean(c: TemplateContext)
    ensures TokenValue("display", c) == c.display && TokenValue("mode", c) == c.mode
    ensures IsNumber(TokenValue("width", c), c.width) && IsNumber(TokenValue("height", c), c.height)
    ensures TokenValue("application", c) == if c.application.Some? then c.application.value else ""
    ensures TokenValue("title", c) == if c.title.Some? then c.title.value else ""
  {
    PaddedReadsBack(c.width, 1);
    PaddedReadsBack(c.height, 1);
  }

  lemma OtherTokensMeanNothing(c: TemplateContext, token: string)
    requires token !in TOKENS
    ensures TokenValue(token, c) == ""
  {
    EveryTokenIsKnown();
  }

  predicate IsNumber(s: string, n: nat) {
    (forall k :: 0 <= k < |s| ==> IsDigit(s[k])) && NumberOf(s) == n
  }

  predicate IsDate(s: string, year: int, month: int, day: int) {
    && |s| == 8 && 0 <= year && 0 <= month && 0 <= day
    && IsNumber(s[..4], year) && IsNumber(s[4..6], month) && IsNumber(s[6..], day)
  }

  predicate IsTime(s: string, hour: nat, minute: nat, second: nat, millis: nat) {
    && |s| == 10 && s[6] == '-' && IsNumber(s[..2], hour) && IsNumber(s[2..4], minute) && IsNumber(s[4..6], second)
    && IsNumber(s[7..], millis)
  }

  lemma PaddedIsNumber(n: nat, width: nat)
    requires 1 <= width && n < Pow10(width)
    ensures |Padded(n, width)| == width && IsNumber(Padded(n, width), n)
  {
    PaddedLength(n, width);
    PaddedReadsBack(n, width);
  }

  lemma DateTextIsDate(d: Clock.Date)
    requires 0 <= d.year <= 9999 && 0 <= d.month < 100 && 0 <= d.day < 100
    ensures IsDate(DateText(d), d.year, d.month, d.day)
  {
    assert Pow10(2) == 100 && Pow10(4) == 10 * (10 * Pow10(2));
    PaddedIsNumber(d.year, 4);
    PaddedIsNumber(d.month, 2);
    PaddedIsNumber(d.day, 2);
    var s := DateText(d);
    assert s[..4] == Padded(d.year, 4) && s[4..6] == Padded(d.month, 2) && s[6..] == Padded(d.day, 2);
  }

  lemma TimeTextIsTime(m: Clock.Moment)
    requires Clock.InRange(m)
    ensures IsTime(TimeText(m), m.hour, m.minute, m.second, m.millis)
  {
    assert Pow10(2) == 100 && Pow10(3) == 10 * Pow10(2);
    PaddedIsNumber(m.hour, 2);
    PaddedIsNumber(m.minute, 2);
    PaddedIsNumber(m.second, 2);
    PaddedIsNumber(m.millis, 3);
    FourParts(Padded(m.hour, 2), Padded(m.minute, 2), Padded(m.second, 2), Padded(m.millis, 3));
  }

  lemma FourParts(a: string, b: string, c: string, d: string)
    requires |a| == |b| == |c| == 2
    ensures var s := a + b + c + "-" + d;
      s[..2] == a && s[2..4] == b && s[4..6] == c && s[6] == '-' && s[7..] == d
  {
    var s := a + b + c + "-" + d;
    assert s[..6] == a + b + c;
    assert s[..2] == (a + b + c)[..2] && s[2..4] == (a + b + c)[2..4] && s[4..6] == (a + b + c)[4..6];
  }

  lemma EveryTokenIsKnown()
    ensures forall token :: token !in TOKENS ==>
      token !in {"timestamp", "date", "time", "display", "mode", "width", "height", "application", "title"}
  {
    assert TOKENS[0] == "timestamp" && TOKENS[1] == "date" && TOKENS[2] == "time" && TOKENS[3] == "display";
    assert TOKENS[4] == "mode" && TOKENS[5] == "width" && TOKENS[6] == "height" && TOKENS[7] == "application";
    assert TOKENS[8] == "title";
  }

  /** What the loop of `expand` makes of a text, for any meaning of the tokens: unbraced text as it
      is, every braced name replaced by its sanitized value. */
  function Expansion(text: string, value: string -> string): string
    decreases |text|
  {
    match CutBraces(text)
    case NoOpen => text
    case NoClose => WithoutFirstBrace(text)
    case At(p, rest) => p.literal + Sanitized(value(p.token)) + Expansion(rest, value)
  }

  function WithoutFirstBrace(text: string): string {
    var open := IndexOf(text, '{');
    if open == |text| then text else text[..open] + text[open + 1..]
  }

  method Expand(template: string, context: TemplateContext) returns (stem: string)
    ensures stem == FinalStem(Expansion(template, token => TokenValue(token, context)), RESERVED_STEMS)
  {
    var value := token => TokenValue(token, context);
    var raw := ExpandTokens(template, value);
    stem := FinalizeStem(raw, RESERVED_STEMS);
  }

  /** What one turn of the loop has done with the text before `rest`. */
  lemma ExpansionOfNextToken(stem: string, text: string, open: nat, close: nat, value: string -> string)
    requires open == IndexOf(text, '{') < |text|
    requires close == IndexOf(text[open + 1..], '}') < |text[open + 1..]|
    ensures var after := text[open + 1..];
      stem + Expansion(text, value)
        == stem + text[..open] + Sanitized(value(after[..close])) + Expansion(after[close + 1..], value)
  {
    var after := text[open + 1..];
    assert CutBraces(text) == At(Piece(text[..open], after[..close]), after[close + 1..]);
    ConcatAssociates(stem, text[..open], Sanitized(value(after[..close])), Expansion(after[close + 1..], value));
  }

  lemma ExpansionOfUnclosed(stem: string, text: string, open: nat, value: string -> string)
    requires open == IndexOf(text, '{') < |text| && IndexOf(text[open + 1..], '}') == |text[open + 1..]|
    ensures stem + Expansion(text, value) == stem + text[..open] + text[open + 1..]
  {
    assert CutBraces(text) == NoClose;
    ConcatAssociates(stem, text[..open], text[open + 1..], "");
  }

  lemma ExpansionOfRest(text: string, value: string -> string)
    requires IndexOf(text, '{') == |text|
    ensures Expansion(text, value) == text
  {
    assert CutBraces(text) == NoOpen;
  }

  /** The loop of `expand`. */
  method ExpandTokens(template: string, value: string -> string) returns (stem: string)
    ensures stem == Expansion(template, value)
  {
    stem := "";
    var rest := template;
    ghost var goal := Expansion(template, value);
    while IndexOf(rest, '{') < |rest|
      invariant goal == stem + Expansion(rest, value)
      decreases |rest|
    {
      var open := IndexOf(rest, '{');
      var after := rest[open + 1..];
      var close := IndexOf(after, '}');
      if close == |after| {
        ExpansionOfUnclosed(stem, rest, open, value);
        stem := stem + rest[..open] + after;
        rest := "";
        break;
      }
      ExpansionOfNextToken(stem, rest, open, close, value);
      var field := SanitizeField(value(after[..close]));
      stem := stem + rest[..open] + field;
      rest := after[close + 1..];
    }
    ExpansionOfRest(rest, value);
    stem := stem + rest;
  }

  lemma ConcatAssociates(a: string, b: string, c: string, d: string)
    ensures a + (b + c + d) == a + b + c + d
    ensures d == "" ==> a + (b + c) == a + b + c + d
  {
  }

  /** A spelled template rendered piece by piece. */
  function Rendered(pieces: seq<Piece>, tail: string, value: string -> string): string {
    if pieces == [] then tail
    else pieces[0].literal + Sanitized(value(pieces[0].token)) + Rendered(pieces[1..], tail, value)
  }

  /** For an accepted template the expansion is its rendering; the branches for an unclosed brace
      and an unknown name are never taken, as `Rendered` has no such case. */
  lemma {:induction false} ExpansionOfTemplate(
    template: string, known: seq<string>, pieces: seq<Piece>, tail: string, value: string -> string)
    requires BraceFree(known) && Spells(template, known, pieces, tail)
    ensures Expansion(template, value) == Rendered(pieces, tail, value)
    decreases |pieces|
  {
    if pieces != [] {
      var rest := Spell(pieces[1..], tail);
      CutOfBraced(pieces[0], rest);
      ExpansionOfTemplate(rest, known, pieces[1..], tail, value);
    }
  }

  /** A character no field can carry appears in an expansion only if the template has it. */
  lemma {:induction false} ExpansionLacks(text: string, value: string -> string, d: char)
    requires Lacks(text, d) && !Keepable(d)
    ensures Lacks(Expansion(text, value), d)
    decreases |text|
  {
    var c := CutBraces(text);
    if c.At? {
      var v := value(c.piece.token);
      FieldIsClean(v, |v|, MAX_FIELD_CHARS);
      BracedLacks(c.piece, c.rest, d);
      ExpansionLacks(c.rest, value, d);
    }
  }

  lemma BracedLacks(p: Piece, rest: string, d: char)
    requires Lacks(Braced(p, rest), d)
    ensures Lacks(p.literal, d) && Lacks(rest, d)
  {
    var text := Braced(p, rest);
    assert forall k :: 0 <= k < |p.literal| ==> p.literal[k] == text[k];
    assert forall k :: 0 <= k < |rest| ==> rest[k] == text[|text| - |rest| + k];
  }

  /** Stem safety, for every accepted template and every value of every field. */
  lemma ExpandedStemIsSafe(template: string, value: string -> string, reserved: seq<string>)
    requires !HasSeparator(template)
    ensures var f := FinalStem(Expansion(template, value), reserved);
      && f != "" && Lacks(f, '/') && Lacks(f, '\\') && SingleDashed(f) && f[0] != '-' && !IsWhitespace(f[0])
      && f[|f| - 1] != '.' && f[|f| - 1] != ' ' && f[|f| - 1] != '-'
  {
    ExpansionLacks(template, value, '/');
    ExpansionLacks(template, value, '\\');
    FinalStemIsSafe(Expansion(template, value), reserved);
  }

  /** Without a dot of its own, a template never names a device and never outgrows the limit. */
  lemma DotlessStemIsSafe(template: string, value: string -> string, reserved: seq<string>)
    requires Lacks(template, '.') && ShortWords(reserved)
    ensures var f := FinalStem(Expansion(template, value), reserved);
      |f| <= MAX_STEM_CHARS && Lacks(f, '.') && !IsReserved(f, reserved)
  {
    var raw := Expansion(template, value);
    ExpansionLacks(template, value, '.');
    FinalStemIsSafe(raw, reserved);
    TidiedIsTidy(raw);
    LongNames(raw, reserved);
    DeviceNameSurvives(raw, reserved);
  }

  predicate Letters(s: string) {
    forall k :: 0 <= k < |s| ==> 'a' <= s[k] <= 'z'
  }

  /** A template of one field, a dot and more. */
  function DottedTemplate(token: string, tail: string): string {
    Braced(Piece("", token), "." + tail)
  }

  lemma DottedTemplateIsAccepted(token: string, tail: string, known: seq<string>)
    requires BraceFree(known) && token in known && Letters(token) && Letters(tail)
    ensures IsTemplate(DottedTemplate(token, tail), known)
  {
    var t := DottedTemplate(token, tail);
    assert t == "{" + token + "}" + "." + tail;
    assert forall k :: 0 <= k < |t| ==> t[k] == '{' || t[k] == '}' || t[k] == '.' || 'a' <= t[k] <= 'z';
    OnePieceSpells(Piece("", token), "." + tail, known);
    assert Spells(t, known, [Piece("", token)], "." + tail);
  }

  lemma ExpansionOfDottedTemplate(token: string, tail: string, value: string -> string)
    requires Letters(token) && Letters(value(token)) && Letters(tail) && |value(token)| <= MAX_FIELD_CHARS
    ensures Expansion(DottedTemplate(token, tail), value) == value(token) + "." + tail
  {
    var rest, v := "." + tail, value(token);
    CutOfBraced(Piece("", token), rest);
    LettersAreKept(v, MAX_FIELD_CHARS);
    assert forall k :: 0 <= k < |rest| ==> rest[k] != '{';
    ExpansionOfRest(rest, value);
    assert "" + v + rest == v + "." + tail;
  }

  lemma LettersAreKept(v: string, limit: nat)
    requires Letters(v) && |v| <= limit
    ensures Field(v, |v|, limit) == v
  {
    assert forall k :: 0 <= k < |v| ==> Keepable(v[k]);
    CleanFieldIsKept(v, |v|, limit);
  }

  /** A window whose application calls itself by a device's name, under an accepted template with a dot
      after that field: the name still opens the device, and is over the limit if the rest is long. */
  lemma DeviceNameFromATemplate(
    device: string, token: string, tail: string, known: seq<string>, reserved: seq<string>, value: string -> string)
    requires BraceFree(known) && token in known && Letters(token) && value(token) == device
    requires ShortWords(reserved) && device in reserved && Letters(device)
    requires tail != "" && Letters(tail) && |device| + 1 + |tail| <= MAX_STEM_CHARS
    ensures IsTemplate(DottedTemplate(token, tail), known)
    ensures var name := FinalStem(Expansion(DottedTemplate(token, tail), value), reserved);
      && name == device + "." + tail + "-capture" && IsReserved(name, reserved)
      && (|name| > MAX_STEM_CHARS <==> |device| + 1 + |tail| > 112)
  {
    DottedTemplateIsAccepted(token, tail, known);
    assert 0 < |device| <= 4;
    ExpansionOfDottedTemplate(token, tail, value);
    DeviceNameOfDottedText(device, tail, reserved);
  }

  lemma DeviceNameOfDottedText(device: string, tail: string, reserved: seq<string>)
    requires ShortWords(reserved) && device in reserved && Letters(device) && 0 < |device|
    requires tail != "" && Letters(tail) && |device| + 1 + |tail| <= MAX_STEM_CHARS
    ensures var name := FinalStem(device + "." + tail, reserved);
      && name == device + "." + tail + "-capture" && IsReserved(name, reserved)
      && (|name| > MAX_STEM_CHARS <==> |device| + 1 + |tail| > 112)
  {
    var s := device + "." + tail;
    assert forall k :: 0 <= k < |s| ==> s[k] == '.' || 'a' <= s[k] <= 'z';
    assert Lowercase(device) == device;
    DottedDeviceName(s, device, reserved);
  }

  lemma ApplicationIsAToken()
    ensures "application" in TOKENS
  {
    assert TOKENS[7] == "application";
  }

  lemma NulIsReserved()
    ensures "nul" in RESERVED_STEMS
  {
    assert RESERVED_STEMS[3] == "nul";
  }

  /** An application called `nul` names the null device under any such template, and with 113 letters
      after the dot it does so in 125 characters. The source's lists of tokens and of device names are
      such lists, as the lemmas above show. */
  lemma NulFromATemplate(tail: string, value: string -> string, known: seq<string>, reserved: seq<string>)
    requires BraceFree(known) && "application" in known && ShortWords(reserved) && "nul" in reserved
    requires value("application") == "nul" && tail != "" && Letters(tail) && |tail| <= 116
    ensures IsTemplate(DottedTemplate("application", tail), known)
    ensures var name := FinalStem(Expansion(DottedTemplate("application", tail), value), reserved);
      && name == "nul" + "." + tail + "-capture" && IsReserved(name, reserved)
      && (|tail| == 113 ==> |name| == 125 > MAX_STEM_CHARS)
  {
    DeviceNameFromATemplate("nul", "application", tail, known, reserved, value);
  }

  /** The source's own lists among them: the template is accepted as it stands. */
  lemma NulTemplateIsAccepted(tail: string)
    requires Letters(tail)
    ensures IsTemplate(DottedTemplate("application", tail), TOKENS)
  {
    TokensAreBraceFree();
    ApplicationIsAToken();
    DottedTemplateIsAccepted("application", tail, TOKENS);
  }

  lemma NulNameIsADevice(tail: string, value: string -> string)
    requires value("application") == "nul" && tail != "" && Letters(tail) && |tail| <= 116
    ensures var name := FinalStem(Expansion(DottedTemplate("application", tail), value), RESERVED_STEMS);
      && name == "nul" + "." + tail + "-capture" && IsReserved(name, RESERVED_STEMS)
      && (|tail| == 113 ==> |name| == 125 > MAX_STEM_CHARS)
  {
    ReservedStemsAreShort();
    NulIsReserved();
    NulFromATemplate(tail, value, ["application"], RESERVED_STEMS);
  }
}
