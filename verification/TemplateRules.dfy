/** What a filename template may say, and whether one says it (captastic-config's
    filename_template.rs). */
module TemplateRules {
  import opened Text

  /** Every token a template may use. The scan below works for any list of brace-free names. */
  const TOKENS: seq<string> := [
    "timestamp", "date", "time", "display", "mode", "width", "height", "application", "title"
  ]

  ghost predicate BraceFree(known: seq<string>) {
    forall t :: t in known ==> Lacks(t, '{') && Lacks(t, '}')
  }

  datatype Problem =
    | Blank
    | PathSeparator
    | Unclosed
    | UnknownToken(token: string)
    | UnmatchedClose
    | NoToken

  datatype Verdict = Accepted | Rejected(problem: Problem)

  // ---- The grammar ----

  /** Literal text and the token that follows it. */
  datatype Piece = Piece(literal: string, token: string)

  function Braced(p: Piece, rest: string): string {
    p.literal + "{" + p.token + "}" + rest
  }

  /** The text a list of pieces and a closing literal stand for. */
  function Spell(pieces: seq<Piece>, tail: string): string {
    if pieces == [] then tail else Braced(pieces[0], Spell(pieces[1..], tail))
  }

  /** A literal before a token may hold `}`, since the scan only looks for `{` there. */
  ghost predicate WellFormed(pieces: seq<Piece>, known: seq<string>) {
    forall i :: 0 <= i < |pieces| ==> Lacks(pieces[i].literal, '{') && pieces[i].token in known
  }

  ghost predicate HasSeparator(text: string) {
    !Lacks(text, '/') || !Lacks(text, '\\')
  }

  ghost predicate AllWhitespace(text: string) {
    forall c :: c in text ==> IsWhitespace(c)
  }

  ghost predicate Spells(template: string, known: seq<string>, pieces: seq<Piece>, tail: string) {
    WellFormed(pieces, known) && Lacks(tail, '{') && Lacks(tail, '}') && template == Spell(pieces, tail)
  }

  /** The language of templates: at least one known token, and no path separator anywhere. */
  ghost predicate IsTemplate(template: string, known: seq<string>) {
    !HasSeparator(template) && exists pieces, tail :: pieces != [] && Spells(template, known, pieces, tail)
  }

  // ---- The scan ----

  /** What the search for the first `{` and the `}` after it finds. */
  datatype Cut = NoOpen | NoClose | At(piece: Piece, rest: string)

  function CutBraces(text: string): (c: Cut)
    ensures c.NoOpen? <==> Lacks(text, '{')
    ensures c.At? ==> text == Braced(c.piece, c.rest) && Lacks(c.piece.literal, '{') && Lacks(c.piece.token, '}')
  {
    var open := IndexOf(text, '{');
    if open == |text| then NoOpen
    else
      var after := text[open + 1..];
      var close := IndexOf(after, '}');
      if close == |after| then NoClose
      else
        var p := Piece(text[..open], after[..close]);
        BracedFromParts(text, after, p, after[close + 1..]);
        At(p, after[close + 1..])
  }

  lemma BracedFromParts(text: string, after: string, p: Piece, rest: string)
    requires text == p.literal + "{" + after && after == p.token + "}" + rest
    ensures text == Braced(p, rest)
  {
  }

  /** Cutting undoes `Braced`. */
  lemma CutOfBraced(p: Piece, rest: string)
    requires Lacks(p.literal, '{') && Lacks(p.token, '}')
    ensures CutBraces(Braced(p, rest)) == At(p, rest)
  {
    var text, after := Braced(p, rest), p.token + "}" + rest;
    assert text == p.literal + "{" + after;
    assert IndexOf(text, '{') == |p.literal| by {
      assert text[|p.literal|] == '{';
      assert forall k :: 0 <= k < |p.literal| ==> text[k] == p.literal[k];
    }
    assert text[|p.literal| + 1..] == after;
    assert IndexOf(after, '}') == |p.token| by {
      assert after[|p.token|] == '}';
      assert forall k :: 0 <= k < |p.token| ==> after[k] == p.token[k];
    }
    assert after[|p.token| + 1..] == rest;
  }

  /** How the scan of the braces ends. */
  datatype Ending =
    | Tail(text: string)
    | Open(text: string)
    | Unknown(piece: Piece, rest: string)

  function EndingText(ending: Ending): string {
    match ending
    case Tail(text) => text
    case Open(text) => text
    case Unknown(piece, rest) => Braced(piece, rest)
  }

  datatype Scan = Scan(pieces: seq<Piece>, ending: Ending)

  function ScanOf(text: string, known: seq<string>): Scan
    decreases |text|
  {
    match CutBraces(text)
    case NoOpen => Scan([], Tail(text))
    case NoClose => Scan([], Open(text))
    case At(piece, rest) =>
      if piece.token !in known then Scan([], Unknown(piece, rest))
      else
        var more := ScanOf(rest, known);
        Scan([piece] + more.pieces, more.ending)
  }

  function JudgeScan(scan: Scan, anyToken: bool): Verdict {
    match scan.ending
    case Open(_) => Rejected(Unclosed)
    case Unknown(piece, _) => Rejected(UnknownToken(piece.token))
    case Tail(text) =>
      if IndexOf(text, '}') < |text| then Rejected(UnmatchedClose)
      else if !anyToken && scan.pieces == [] then Rejected(NoToken)
      else Accepted
  }

  /** `validate_template`. The verdict is the grammar's, and each refusal says what is wrong. */
  method ValidateTemplate(template: string) returns (v: Verdict)
    ensures v == Accepted <==> IsTemplate(template, TOKENS)
    ensures v == Rejected(Blank) <==> AllWhitespace(template)
    ensures v == Rejected(PathSeparator) <==> !AllWhitespace(template) && HasSeparator(template)
    ensures !AllWhitespace(template) && !HasSeparator(template) ==> v == JudgeScan(ScanOf(template, TOKENS), false)
  {
    TokensAreBraceFree();
    v := ValidateAgainst(template, TOKENS);
  }

  method ValidateAgainst(template: string, known: seq<string>) returns (v: Verdict)
    requires BraceFree(known)
    ensures v == Accepted <==> IsTemplate(template, known)
    ensures v == Rejected(Blank) <==> AllWhitespace(template)
    ensures v == Rejected(PathSeparator) <==> !AllWhitespace(template) && HasSeparator(template)
    ensures !AllWhitespace(template) && !HasSeparator(template) ==> v == JudgeScan(ScanOf(template, known), false)
  {
    GrammarIsTheScan(template, known);
    if forall c :: c in template ==> IsWhitespace(c) {
      return Rejected(Blank);
    }
    if IndexOf(template, '/') < |template| || IndexOf(template, '\\') < |template| {
      return Rejected(PathSeparator);
    }
    v := ScanBraces(template, known);
  }

  /** The loop of `validate_template`. */
  method ScanBraces(template: string, known: seq<string>) returns (v: Verdict)
    ensures v == JudgeScan(ScanOf(template, known), false)
  {
    var rest := template;
    var hasToken := false;
    while IndexOf(rest, '{') < |rest|
      invariant JudgeScan(ScanOf(rest, known), hasToken) == JudgeScan(ScanOf(template, known), false)
      decreases |rest|
    {
      var open := IndexOf(rest, '{');
      var after := rest[open + 1..];
      var close := IndexOf(after, '}');
      if close == |after| {
        assert CutBraces(rest) == NoClose;
        return Rejected(Unclosed);
      }
      var token := after[..close];
      assert CutBraces(rest) == At(Piece(rest[..open], token), after[close + 1..]);
      if token !in known {
        return Rejected(UnknownToken(token));
      }
      hasToken := true;
      rest := after[close + 1..];
    }
    assert CutBraces(rest) == NoOpen;
    if IndexOf(rest, '}') < |rest| {
      return Rejected(UnmatchedClose);
    }
    if !hasToken {
      return Rejected(NoToken);
    }
    return Accepted;
  }

  // ---- The scan reads the grammar ----

  /** What stopped the scan. */
  ghost predicate Stops(ending: Ending, known: seq<string>) {
    match ending
    case Tail(t) => Lacks(t, '{')
    case Open(t) => CutBraces(t) == NoClose
    case Unknown(p, _) => Lacks(p.literal, '{') && Lacks(p.token, '}') && p.token !in known
  }

  /** Nothing is lost: the pieces found and the ending spell the text they were found in. */
  lemma {:induction false} ScanReads(text: string, known: seq<string>)
    ensures var s := ScanOf(text, known);
      WellFormed(s.pieces, known) && Stops(s.ending, known) && text == Spell(s.pieces, EndingText(s.ending))
    decreases |text|
  {
    var c := CutBraces(text);
    if c.At? && c.piece.token in known {
      ScanReads(c.rest, known);
      assert ScanOf(text, known).pieces[1..] == ScanOf(c.rest, known).pieces;
    }
  }

  /** The scan finds every spelling: a well-formed one is exactly what it reads. */
  lemma {:induction false} ScanFinds(pieces: seq<Piece>, tail: string, known: seq<string>)
    requires BraceFree(known) && WellFormed(pieces, known) && Lacks(tail, '{')
    ensures ScanOf(Spell(pieces, tail), known) == Scan(pieces, Tail(tail))
    decreases |pieces|
  {
    if pieces != [] {
      CutOfBraced(pieces[0], Spell(pieces[1..], tail));
      ScanFinds(pieces[1..], tail, known);
      assert pieces == [pieces[0]] + pieces[1..];
    }
  }

  lemma TokensAreBraceFree()
    ensures BraceFree(TOKENS)
  {
    forall t | t in TOKENS
      ensures Lacks(t, '{') && Lacks(t, '}')
    {
      var i :| 0 <= i < |TOKENS| && t == TOKENS[i];
      LettersLackBraces(t);
    }
  }

  lemma LettersLackBraces(t: string)
    requires forall c :: c in t ==> 'a' <= c <= 'z'
    ensures Lacks(t, '{') && Lacks(t, '}')
  {
    assert forall k :: 0 <= k < |t| ==> t[k] in t;
  }

  /** A template is accepted exactly when it is in the language. */
  lemma GrammarIsTheScan(template: string, known: seq<string>)
    requires BraceFree(known)
    ensures IsTemplate(template, known) <==>
      !AllWhitespace(template) && !HasSeparator(template) && JudgeScan(ScanOf(template, known), false) == Accepted
  {
    ScanReads(template, known);
    var s := ScanOf(template, known);
    if IsTemplate(template, known) {
      var pieces: seq<Piece>, tail :| pieces != [] && Spells(template, known, pieces, tail);
      ScanFinds(pieces, tail, known);
      assert template[|pieces[0].literal|] == '{';
      assert !IsWhitespace('{');
    }
    if !HasSeparator(template) && JudgeScan(s, false) == Accepted {
      assert Spells(template, known, s.pieces, s.ending.text);
    }
  }

  /** A template is spelled in one way only, and the scan finds it. */
  lemma SpellingIsUnique(template: string, known: seq<string>, p: seq<Piece>, t: string)
    requires BraceFree(known) && Spells(template, known, p, t)
    ensures ScanOf(template, known) == Scan(p, Tail(t))
    ensures forall q, u :: Spells(template, known, q, u) ==> q == p && u == t
  {
    ScanFinds(p, t, known);
    forall q, u | Spells(template, known, q, u)
      ensures q == p && u == t
    {
      ScanFinds(q, u, known);
    }
  }

  lemma OnePieceSpells(p: Piece, tail: string, known: seq<string>)
    requires Lacks(p.literal, '{') && p.token in known && Lacks(tail, '{')
    ensures WellFormed([p], known) && Spell([p], tail) == Braced(p, tail)
  {
    assert Spell([p][1..], tail) == tail;
  }

  /** The tolerance: a `}` no `{` opened is accepted before a later token and refused after the last. */
  lemma StrayCloseBeforeAToken(p: Piece, tail: string, known: seq<string>)
    requires BraceFree(known) && p.token in known && Lacks(p.literal, '{') && Lacks(tail, '{')
    requires !HasSeparator(Braced(p, tail))
    ensures IsTemplate(Braced(p, tail), known) <==> Lacks(tail, '}')
  {
    OnePieceSpells(p, tail, known);
    ScanFinds([p], tail, known);
    GrammarIsTheScan(Braced(p, tail), known);
    if Lacks(tail, '}') {
      assert Spells(Braced(p, tail), known, [p], tail);
    }
  }
}
