/**
 Template references in step commands and their resolution (internal/engine/template.go).
 The two regular expressions are stood for by a deterministic matcher; MatchIsThePattern
 proves it finds exactly the texts the patterns describe.
 */
module Template {
  import opened Strings
  import opened Job

  // ---------------------------------------------------------------- the patterns

  datatype Kind = Output | Secret

  datatype Ref = OutputRef(step: string, output: string) | SecretRef(name: string) {
    function Kind(): Kind {
      if OutputRef? then Output else Secret
    }
  }

  /** \s */
  predicate IsBlank(c: char) {
    c == ' ' || c == '\t' || c == '\n' || c == '\r' || c as int == 12
  }

  predicate Blank(s: string) {
    forall i | 0 <= i < |s| :: IsBlank(s[i])
  }

  /** [a-zA-Z_][a-zA-Z0-9_-]* */
  predicate IsName(s: string) {
    && s != "" && ('a' <= s[0] <= 'z' || 'A' <= s[0] <= 'Z' || s[0] == '_')
    && forall i | 0 <= i < |s| :: NameChar(s[i])
  }

  predicate WellFormed(ref: Ref) {
    match ref
    case OutputRef(step, output) => IsName(step) && IsName(output)
    case SecretRef(name) => IsName(name)
  }

  function Body(ref: Ref): string {
    match ref
    case OutputRef(step, output) => "steps." + (step + (".outputs." + output))
    case SecretRef(name) => "secrets." + name
  }

  const OPENER := "${{"

  function RawText(w1: string, ref: Ref, w2: string): string {
    OPENER + (w1 + (Body(ref) + (w2 + "}}")))
  }

  /** raw is one of the texts that the pattern of ref's kind matches with ref's names as groups. */
  ghost predicate IsRaw(raw: string, ref: Ref) {
    WellFormed(ref) && exists w1, w2 :: Blank(w1) && Blank(w2) && raw == RawText(w1, ref, w2)
  }

  // ---------------------------------------------------------------- the matcher

  /** The longest prefix of s all of whose characters satisfy p. */
  function Run(s: string, p: char -> bool): string {
    if s == "" || !p(s[0]) then "" else [s[0]] + Run(s[1..], p)
  }

  /** What follows it. */
  function Skip(s: string, p: char -> bool): (rest: string)
    ensures |rest| <= |s|
  {
    if s == "" || !p(s[0]) then s else Skip(s[1..], p)
  }

  lemma {:induction false} RunAndSkip(s: string, p: char -> bool)
    ensures s == Run(s, p) + Skip(s, p)
    ensures forall i | 0 <= i < |Run(s, p)| :: p(Run(s, p)[i])
    ensures Skip(s, p) == "" || !p(Skip(s, p)[0])
  {
    if s != "" && p(s[0]) {
      RunAndSkip(s[1..], p);
      assert s == [s[0]] + s[1..];
    }
  }

  lemma {:induction false} SplitRun(w: string, x: string, p: char -> bool)
    requires (forall i | 0 <= i < |w| :: p(w[i])) && (x == "" || !p(x[0]))
    ensures Run(w + x, p) == w && Skip(w + x, p) == x
  {
    if w == "" {
      assert w + x == x;
    } else {
      assert (w + x)[1..] == w[1..] + x;
      SplitRun(w[1..], x, p);
    }
  }

  lemma PrefixOf(p: string, x: string)
    ensures HasPrefix(p + x, p) && (p + x)[|p|..] == x
  {
  }

  lemma PrefixSplit(s: string, p: string)
    requires HasPrefix(s, p)
    ensures s == p + s[|p|..]
  {
  }

  predicate BodyChar(c: char) {
    NameChar(c) || c == '.'
  }

  /** <step>.outputs.<output> */
  function ParseSteps(b: string): Option<Ref> {
    var step, rest := Run(b, NameChar), Skip(b, NameChar);
    if HasPrefix(rest, ".outputs.") && IsName(step) && IsName(rest[9..]) then Some(OutputRef(step, rest[9..])) else None
  }

  function ParseBody(b: string): Option<Ref> {
    if HasPrefix(b, "secrets.") then
      if IsName(b[8..]) then Some(SecretRef(b[8..])) else None
    else if HasPrefix(b, "steps.") then
      ParseSteps(b[6..])
    else None
  }

  lemma ParseStepsSpec(b: string, step: string, output: string)
    ensures ParseSteps(b) == Some(OutputRef(step, output)) <==>
              IsName(step) && IsName(output) && b == step + (".outputs." + output)
  {
    if IsName(step) && b == step + (".outputs." + output) {
      assert (".outputs." + output)[0] == '.';
      SplitRun(step, ".outputs." + output, NameChar);
      PrefixOf(".outputs.", output);
    }
    var rest := Skip(b, NameChar);
    RunAndSkip(b, NameChar);
    if HasPrefix(rest, ".outputs.") {
      PrefixSplit(rest, ".outputs.");
    }
  }

  lemma ParseBodySpec(b: string, ref: Ref)
    ensures ParseBody(b) == Some(ref) <==> WellFormed(ref) && b == Body(ref)
  {
    match ref {
      case SecretRef(name) =>
        PrefixOf("secrets.", name);
        if HasPrefix(b, "secrets.") {
          PrefixSplit(b, "secrets.");
        }
      case OutputRef(step, output) =>
        PrefixOf("steps.", step + (".outputs." + output));
        if HasPrefix(b, "steps.") {
          assert b[1] == 't';
          PrefixSplit(b, "steps.");
          ParseStepsSpec(b[6..], step, output);
        }
    }
  }

  lemma BodyChars(ref: Ref)
    requires WellFormed(ref)
    ensures Body(ref) != "" && Body(ref)[0] == 's'
    ensures forall i | 0 <= i < |Body(ref)| :: BodyChar(Body(ref)[i])
  {
    var body := Body(ref);
    match ref {
      case SecretRef(name) =>
      case OutputRef(step, output) =>
        var rest := step + (".outputs." + output);
        assert forall i | 0 <= i < |rest| :: BodyChar(rest[i]);
        assert body == "steps." + rest;
    }
  }

  datatype Match = Match(ref: Ref, rest: string)

  /** \s*\}\} behind a reference. */
  function MatchEnd(ref: Ref, v: string): (m: Option<Match>)
    ensures m.Some? ==> |m.value.rest| + 2 <= |v|
  {
    var w := Skip(v, IsBlank);
    if HasPrefix(w, "}}") then Some(Match(ref, w[2..])) else None
  }

  function MatchBody(u: string): (m: Option<Match>)
    ensures m.Some? ==> |m.value.rest| + 2 <= |u|
  {
    match ParseBody(Run(u, BodyChar))
    case None => None
    case Some(ref) => MatchEnd(ref, Skip(u, BodyChar))
  }

  /** A match of either pattern at the very start of s, with the text behind it. */
  function MatchAt(s: string): (m: Option<Match>)
    ensures m.Some? ==> |m.value.rest| + 5 <= |s|
  {
    if HasPrefix(s, OPENER) then MatchBody(Skip(s[3..], IsBlank)) else None
  }

  /** The matched text. */
  function RawAt(s: string): string
    requires MatchAt(s).Some?
  {
    s[..|s| - |MatchAt(s).value.rest|]
  }

  lemma EndMatches(ref: Ref, w2: string, rest: string)
    requires Blank(w2)
    ensures MatchEnd(ref, w2 + ("}}" + rest)) == Some(Match(ref, rest))
  {
    SplitRun(w2, "}}" + rest, IsBlank);
    PrefixOf("}}", rest);
  }

  lemma BodyMatches(ref: Ref, body: string, v: string)
    requires ParseBody(body) == Some(ref) && forall i | 0 <= i < |body| :: BodyChar(body[i])
    requires v != "" && !BodyChar(v[0])
    ensures MatchBody(body + v) == MatchEnd(ref, v)
  {
    SplitRun(body, v, BodyChar);
  }

  lemma OpenerMatches(w1: string, u: string)
    requires Blank(w1) && u != "" && !IsBlank(u[0])
    ensures MatchAt(OPENER + (w1 + u)) == MatchBody(u)
  {
    PrefixOf(OPENER, w1 + u);
    SplitRun(w1, u, IsBlank);
  }

  lemma BodyThenEnd(ref: Ref, body: string, w2: string, rest: string)
    requires ParseBody(body) == Some(ref) && forall i | 0 <= i < |body| :: BodyChar(body[i])
    requires Blank(w2)
    ensures MatchBody(body + (w2 + ("}}" + rest))) == Some(Match(ref, rest))
  {
    var v := w2 + ("}}" + rest);
    EndMatches(ref, w2, rest);
    assert v[0] == if w2 == "" then '}' else w2[0];
    BodyMatches(ref, body, v);
  }

  lemma TextMatches(ref: Ref, w1: string, body: string, w2: string, rest: string)
    requires ParseBody(body) == Some(ref) && forall i | 0 <= i < |body| :: BodyChar(body[i])
    requires body != "" && Blank(w1) && Blank(w2)
    ensures MatchAt(OPENER + (w1 + (body + (w2 + ("}}" + rest))))) == Some(Match(ref, rest))
  {
    BodyThenEnd(ref, body, w2, rest);
    var v := w2 + ("}}" + rest);
    assert (body + v)[0] == body[0];
    OpenerMatches(w1, body + v);
  }

  lemma Reassociate(a: string, b: string, c: string, d: string, e: string, f: string)
    ensures (a + (b + (c + (d + e)))) + f == a + (b + (c + (d + (e + f))))
  {
    assert (d + e) + f == d + (e + f);
    assert (c + (d + e)) + f == c + ((d + e) + f);
    assert (b + (c + (d + e))) + f == b + ((c + (d + e)) + f);
  }

  lemma PatternMatches(ref: Ref, w1: string, w2: string, rest: string)
    requires WellFormed(ref) && Blank(w1) && Blank(w2)
    ensures MatchAt(RawText(w1, ref, w2) + rest) == Some(Match(ref, rest))
  {
    BodyChars(ref);
    ParseBodySpec(Body(ref), ref);
    TextMatches(ref, w1, Body(ref), w2, rest);
    Reassociate(OPENER, w1, Body(ref), w2, "}}", rest);
  }

  lemma EndHasPattern(ref: Ref, v: string) returns (w2: string)
    requires MatchEnd(ref, v).Some?
    ensures Blank(w2) && MatchEnd(ref, v).value.ref == ref && v == w2 + ("}}" + MatchEnd(ref, v).value.rest)
  {
    RunAndSkip(v, IsBlank);
    w2 := Run(v, IsBlank);
    PrefixSplit(Skip(v, IsBlank), "}}");
  }

  lemma BodyHasPattern(u: string) returns (w2: string)
    requires MatchBody(u).Some?
    ensures var m := MatchBody(u).value;
            WellFormed(m.ref) && Blank(w2) && u == Body(m.ref) + (w2 + ("}}" + m.rest))
  {
    var body, v := Run(u, BodyChar), Skip(u, BodyChar);
    RunAndSkip(u, BodyChar);
    w2 := EndHasPattern(ParseBody(body).value, v);
    ParseBodySpec(body, ParseBody(body).value);
  }

  lemma BehindOpener(s: string) returns (w1: string, u: string)
    requires HasPrefix(s, OPENER)
    ensures Blank(w1) && s == OPENER + (w1 + u) && u == Skip(s[3..], IsBlank)
  {
    RunAndSkip(s[3..], IsBlank);
    w1, u := Run(s[3..], IsBlank), Skip(s[3..], IsBlank);
    PrefixSplit(s, OPENER);
  }

  lemma FrontOf(a: string, b: string)
    ensures (a + b)[..|a + b| - |b|] == a
  {
  }

  lemma MatchHasPattern(s: string)
    requires MatchAt(s).Some?
    ensures IsRaw(RawAt(s), MatchAt(s).value.ref) && s == RawAt(s) + MatchAt(s).value.rest
  {
    var m := MatchAt(s).value;
    var w1, u := BehindOpener(s);
    var w2 := BodyHasPattern(u);
    Reassociate(OPENER, w1, Body(m.ref), w2, "}}", m.rest);
    FrontOf(RawText(w1, m.ref, w2), m.rest);
  }

  /** The matcher and the patterns agree; in particular a match is unique. */
  lemma MatchIsThePattern(raw: string, rest: string, ref: Ref)
    ensures MatchAt(raw + rest) == Some(Match(ref, rest)) <==> IsRaw(raw, ref)
  {
    if MatchAt(raw + rest) == Some(Match(ref, rest)) {
      MatchHasPattern(raw + rest);
      assert RawAt(raw + rest) == raw;
    }
    if IsRaw(raw, ref) {
      var w1, w2 :| Blank(w1) && Blank(w2) && raw == RawText(w1, ref, w2);
      PatternMatches(ref, w1, w2, rest);
    }
  }

  predicate NoDollar(s: string) {
    forall i | 0 <= i < |s| :: s[i] != '$'
  }

  lemma NoDollarConcat(a: string, b: string)
    requires NoDollar(a) && NoDollar(b)
    ensures NoDollar(a + b)
  {
  }

  lemma TextShape(w1: string, body: string, w2: string)
    requires NoDollar(w1) && NoDollar(body) && NoDollar(w2)
    ensures var raw := OPENER + (w1 + (body + (w2 + "}}")));
            |raw| >= 5 && raw[0] == '$' && NoDollar(raw[1..])
  {
    NoDollarConcat(w2, "}}");
    NoDollarConcat(body, w2 + "}}");
    NoDollarConcat(w1, body + (w2 + "}}"));
    var tail := w1 + (body + (w2 + "}}"));
    assert (OPENER + tail)[1..] == "{{" + tail;
    NoDollarConcat("{{", tail);
  }

  lemma RawShape(raw: string, ref: Ref)
    requires IsRaw(raw, ref)
    ensures |raw| >= 5 && raw[0] == '$' && NoDollar(raw[1..])
  {
    var w1, w2 :| Blank(w1) && Blank(w2) && raw == RawText(w1, ref, w2);
    BodyChars(ref);
    TextShape(w1, Body(ref), w2);
  }

  /** A match holds one '$', its first character, and does not depend on what follows it. */
  lemma MatchShape(s: string, rest: string)
    requires MatchAt(s).Some?
    ensures HasPrefix(s, OPENER) && s == RawAt(s) + MatchAt(s).value.rest
    ensures |RawAt(s)| >= 5 && RawAt(s)[0] == '$' && NoDollar(RawAt(s)[1..])
    ensures MatchAt(RawAt(s) + rest) == Some(Match(MatchAt(s).value.ref, rest))
  {
    MatchHasPattern(s);
    MatchIsThePattern(RawAt(s), rest, MatchAt(s).value.ref);
    RawShape(RawAt(s), MatchAt(s).value.ref);
  }
}
