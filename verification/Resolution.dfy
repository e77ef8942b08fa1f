/**
 Resolving template references: the code replaces first occurrences one reference after the
 other, outputs first and then secrets (internal/engine/template.go). Here that is compared
 with replacing every reference of the original text at once.
 */
module Resolution {
  import opened Strings
  import opened Job
  import opened Template

  // ---------------------------------------------------------------- library functions

  datatype Found = Found(raw: string, ref: Ref)

  /** FindAllStringSubmatch: the successive leftmost matches of one of the patterns. */
  function FindAll(k: Kind, s: string): seq<Found>
    decreases |s|
  {
    if s == "" then []
    else
      match MatchAt(s)
      case Some(m) => if m.ref.Kind() == k then [Found(RawAt(s), m.ref)] + FindAll(k, m.rest) else FindAll(k, s[1..])
      case None => FindAll(k, s[1..])
  }

  /** strings.Replace(s, what, value, 1) */
  function Replace(s: string, what: string, value: string): string {
    if HasPrefix(s, what) then value + s[|what|..]
    else if s == "" then ""
    else [s[0]] + Replace(s[1..], what, value)
  }

  // ---------------------------------------------------------------- resolution as the code does it

  /** What the state manager and the secret manager hold. */
  datatype Env = Env(outputs: map<string, map<string, string>>, secrets: map<string, string>) {
    function Get(ref: Ref): Option<string> {
      match ref
      case OutputRef(step, output) =>
        if step in outputs && output in outputs[step] then Some(outputs[step][output]) else None
      case SecretRef(name) => if name in secrets then Some(secrets[name]) else None
    }
  }

  /** Missing is ErrTemplateInvalidReference for an output and ErrSecretNotFound for a secret. */
  datatype Outcome = Resolved(text: string) | Missing(ref: Ref)

  function ReplaceRefs(refs: seq<Found>, env: Env, s: string): Outcome {
    if refs == [] then Resolved(s)
    else
      match env.Get(refs[0].ref)
      case None => Missing(refs[0].ref)
      case Some(value) => ReplaceRefs(refs[1..], env, Replace(s, refs[0].raw, value))
  }

  function Resolve(s: string, env: Env): Outcome {
    match ReplaceRefs(FindAll(Output, s), env, s)
    case Missing(ref) => Missing(ref)
    case Resolved(text) => ReplaceRefs(FindAll(Secret, text), env, text)
  }

  // ---------------------------------------------------------------- resolution all at once

  function Subst(env: Env, s: string): string
    decreases |s|
  {
    if s == "" then ""
    else
      match MatchAt(s)
      case None => [s[0]] + Subst(env, s[1..])
      case Some(m) =>
        match env.Get(m.ref)
        case Some(value) => value + Subst(env, m.rest)
        case None => [s[0]] + Subst(env, s[1..])
  }

  function FirstMissing(refs: seq<Found>, env: Env): Option<Ref> {
    if refs == [] then None
    else if env.Get(refs[0].ref).None? then Some(refs[0].ref)
    else FirstMissing(refs[1..], env)
  }

  /** The reference a run fails over is the first one without a value. */
  lemma {:induction false} FirstMissingIsFirst(refs: seq<Found>, env: Env)
    ensures match FirstMissing(refs, env)
            case None => forall k | 0 <= k < |refs| :: env.Get(refs[k].ref).Some?
            case Some(ref) =>
              exists k :: 0 <= k < |refs| && refs[k].ref == ref && env.Get(ref).None? &&
                          forall j | 0 <= j < k :: env.Get(refs[j].ref).Some?
  {
    if refs != [] && env.Get(refs[0].ref).Some? {
      var rest := refs[1..];
      FirstMissingIsFirst(rest, env);
      assert forall k | 1 <= k < |refs| :: refs[k] == rest[k - 1];
      if FirstMissing(rest, env).Some? {
        var k :| 0 <= k < |rest| && rest[k].ref == FirstMissing(rest, env).value && env.Get(rest[k].ref).None? &&
                 forall j | 0 <= j < k :: env.Get(rest[j].ref).Some?;
        assert refs[k + 1] == rest[k];
      }
    }
  }

  // ---------------------------------------------------------------- side conditions

  /** Every "${{" of s begins a reference. */
  predicate Clean(s: string) {
    s == "" || ((HasPrefix(s, OPENER) ==> MatchAt(s).Some?) && Clean(s[1..]))
  }

  predicate NoOpener(s: string) {
    s == "" || (!HasPrefix(s, OPENER) && NoOpener(s[1..]))
  }

  /** Whatever stands around v, v makes no "${{". */
  predicate Safe(v: string) {
    v != "" && NoOpener(v) && v[0] != '{' && !HasSuffix(v, "$") && !HasSuffix(v, "${")
  }

  ghost predicate SafeFor(refs: seq<Found>, env: Env) {
    forall f | f in refs :: env.Get(f.ref).Some? ==> Safe(env.Get(f.ref).value)
  }

  // ---------------------------------------------------------------- text in which nothing begins

  /** No "${{" of p + t begins within p. */
  predicate Inert(p: string, t: string) {
    p == "" || (!HasPrefix(p + t, OPENER) && Inert(p[1..], t))
  }

  lemma {:induction false} InertNoDollar(p: string, t: string)
    requires NoDollar(p)
    ensures Inert(p, t)
  {
    if p != "" {
      assert (p + t)[0] == p[0];
      InertNoDollar(p[1..], t);
    }
  }

  lemma OpenerAcross(v: string, t: string)
    requires HasPrefix(v + t, OPENER)
    ensures v == "" || v == "$" || v == "${" || HasPrefix(v, OPENER)
  {
    assert forall i | 0 <= i < 3 && i < |v| :: v[i] == (v + t)[i] == OPENER[i];
  }

  lemma SuffixOfTail(v: string, x: string)
    requires v != ""
    ensures HasSuffix(v[1..], x) ==> HasSuffix(v, x)
  {
    if |x| < |v| {
      assert v[|v| - |x|..] == v[1..][|v| - 1 - |x|..];
    }
  }

  lemma {:induction false} InertSafe(v: string, t: string)
    requires NoOpener(v) && !HasSuffix(v, "$") && !HasSuffix(v, "${")
    ensures Inert(v, t)
  {
    if v != "" {
      if HasPrefix(v + t, OPENER) {
        OpenerAcross(v, t);
      }
      SuffixOfTail(v, "$");
      SuffixOfTail(v, "${");
      InertSafe(v[1..], t);
    }
  }

  lemma ConsConcat(p: string, t: string)
    requires p != ""
    ensures (p + t)[0] == p[0] && (p + t)[1..] == p[1..] + t && [p[0]] + (p[1..] + t) == p + t
    ensures p == [p[0]] + p[1..]
  {
  }

  lemma {:induction false} InertFind(p: string, t: string, k: Kind)
    requires Inert(p, t)
    ensures FindAll(k, p + t) == FindAll(k, t)
  {
    if p == "" {
      assert p + t == t;
    } else {
      assert (p + t)[1..] == p[1..] + t;
      assert MatchAt(p + t) == None;
      InertFind(p[1..], t, k);
    }
  }

  lemma {:induction false} InertSubst(p: string, t: string, env: Env)
    requires Inert(p, t)
    ensures Subst(env, p + t) == p + Subst(env, t)
  {
    if p == "" {
      assert p + t == t;
    } else {
      ConsConcat(p, t);
      assert MatchAt(p + t) == None;
      InertSubst(p[1..], t, env);
      ConsConcat(p, Subst(env, t));
    }
  }

  lemma {:induction false} InertClean(p: string, t: string)
    requires Inert(p, t)
    ensures Clean(p + t) <==> Clean(t)
  {
    if p == "" {
      assert p + t == t;
    } else {
      assert (p + t)[1..] == p[1..] + t;
      InertClean(p[1..], t);
    }
  }

  lemma {:induction false} ReplaceBehind(p: string, t: string, raw: string, v: string)
    requires NoDollar(p) && raw != "" && raw[0] == '$'
    ensures Replace(p + t, raw, v) == p + Replace(t, raw, v)
  {
    if p == "" {
      assert p + t == t && p + Replace(t, raw, v) == Replace(t, raw, v);
    } else {
      assert (p + t)[1..] == p[1..] + t && (p + t)[0] == p[0];
      assert !HasPrefix(p + t, raw);
      ReplaceBehind(p[1..], t, raw, v);
      assert p + Replace(t, raw, v) == [p[0]] + (p[1..] + Replace(t, raw, v));
    }
  }

  function Other(k: Kind): Kind {
    if k == Output then Secret else Output
  }

  /** What one replacement in s must achieve. */
  predicate Stepped(k: Kind, env: Env, s: string, s': string) {
    && Clean(s') && FindAll(k, s) != []
    && FindAll(k, s') == FindAll(k, s)[1..]
    && FindAll(Other(k), s') == FindAll(Other(k), s)
    && Subst(env, s') == Subst(env, s)
  }

  /** A match and what follows it; the inside of the match is inert. */
  lemma MatchSplit(s: string) returns (inner: string)
    requires MatchAt(s).Some?
    ensures s != "" && s[1..] == inner + MatchAt(s).value.rest && RawAt(s) == "$" + inner
    ensures NoDollar(inner) && Inert(inner, MatchAt(s).value.rest) && RawAt(s) != "" && RawAt(s)[0] == '$'
  {
    MatchShape(s, MatchAt(s).value.rest);
    inner := RawAt(s)[1..];
    ConsConcat(RawAt(s), MatchAt(s).value.rest);
    InertNoDollar(inner, MatchAt(s).value.rest);
  }

  lemma CleanMatch(s: string)
    requires MatchAt(s).Some?
    ensures Clean(s) <==> Clean(MatchAt(s).value.rest)
  {
    var inner := MatchSplit(s);
    InertClean(inner, MatchAt(s).value.rest);
  }

  /** A reference of the other kind is passed over as a whole. */
  lemma SkipMatch(s: string, k: Kind)
    requires MatchAt(s).Some? && MatchAt(s).value.ref.Kind() != k
    ensures FindAll(k, s) == FindAll(k, MatchAt(s).value.rest)
  {
    var inner := MatchSplit(s);
    InertFind(inner, MatchAt(s).value.rest, k);
  }

  /** The reference stands at the very start. */
  lemma ReplaceHere(k: Kind, env: Env, s: string, v: string)
    requires Clean(s) && MatchAt(s).Some? && MatchAt(s).value.ref.Kind() == k
    requires env.Get(MatchAt(s).value.ref) == Some(v) && Safe(v)
    ensures Stepped(k, env, s, Replace(s, RawAt(s), v))
  {
    var t := MatchAt(s).value.rest;
    MatchShape(s, t);
    assert Replace(s, RawAt(s), v) == v + t;
    CleanMatch(s);
    InertSafe(v, t);
    InertClean(v, t);
    InertSubst(v, t, env);
    InertFind(v, t, k);
    InertFind(v, t, Other(k));
    SkipMatch(s, Other(k));
  }

  lemma TakeMatch(s: string, k: Kind)
    requires MatchAt(s).Some? && MatchAt(s).value.ref.Kind() == k
    ensures FindAll(k, s) == [Found(RawAt(s), MatchAt(s).value.ref)] + FindAll(k, MatchAt(s).value.rest)
  {
  }

  lemma DropChar(s: string, k: Kind)
    requires s != "" && (MatchAt(s).None? || MatchAt(s).value.ref.Kind() != k)
    ensures FindAll(k, s) == FindAll(k, s[1..])
  {
  }

  lemma {:induction false} FoundIsRaw(k: Kind, s: string, f: Found)
    requires f in FindAll(k, s)
    ensures IsRaw(f.raw, f.ref) && f.ref.Kind() == k
    decreases |s|
  {
    if s != "" {
      if MatchAt(s).Some? && MatchAt(s).value.ref.Kind() == k {
        TakeMatch(s, k);
        if f == Found(RawAt(s), MatchAt(s).value.ref) {
          MatchHasPattern(s);
        } else {
          FoundIsRaw(k, MatchAt(s).value.rest, f);
        }
      } else {
        DropChar(s, k);
        FoundIsRaw(k, s[1..], f);
      }
    }
  }

  /** Text that starts with a matched text starts with a match of the same reference. */
  lemma RawIsMatched(f: Found, s: string)
    requires IsRaw(f.raw, f.ref) && HasPrefix(s, f.raw)
    ensures MatchAt(s) == Some(Match(f.ref, s[|f.raw|..])) && RawAt(s) == f.raw
  {
    PrefixSplit(s, f.raw);
    MatchIsThePattern(f.raw, s[|f.raw|..], f.ref);
  }

  lemma BehindMatch(s: string, t': string)
    requires MatchAt(s).Some?
    ensures var s' := RawAt(s) + t';
            MatchAt(s') == Some(Match(MatchAt(s).value.ref, t')) && RawAt(s') == RawAt(s)
  {
    MatchShape(s, t');
  }

  lemma SubstMatch(s: string, env: Env)
    requires MatchAt(s).Some?
    ensures var m := MatchAt(s).value;
            Subst(env, s) == (if env.Get(m.ref).Some? then env.Get(m.ref).value else RawAt(s)) + Subst(env, m.rest)
  {
    var m := MatchAt(s).value;
    var inner := MatchSplit(s);
    InertSubst(inner, m.rest, env);
    ConsConcat(RawAt(s), Subst(env, m.rest));
  }

  /** Putting t' behind a reference of the other kind instead of t. */
  lemma BehindOther(k: Kind, env: Env, s: string, t': string)
    requires Clean(s) && MatchAt(s).Some? && MatchAt(s).value.ref.Kind() != k
    requires Stepped(k, env, MatchAt(s).value.rest, t')
    ensures Stepped(k, env, s, RawAt(s) + t')
  {
    var s' := RawAt(s) + t';
    BehindMatch(s, t');
    SkipMatch(s, k);
    SkipMatch(s', k);
    TakeMatch(s, Other(k));
    TakeMatch(s', Other(k));
    CleanMatch(s');
    SubstMatch(s, env);
    SubstMatch(s', env);
  }

  lemma ReplaceBehindOther(k: Kind, env: Env, s: string, f: Found, v: string)
    requires Clean(s) && MatchAt(s).Some? && MatchAt(s).value.ref.Kind() != k
    requires IsRaw(f.raw, f.ref) && f.ref.Kind() == k
    requires Stepped(k, env, MatchAt(s).value.rest, Replace(MatchAt(s).value.rest, f.raw, v))
    ensures Stepped(k, env, s, Replace(s, f.raw, v))
  {
    if HasPrefix(s, f.raw) {
      RawIsMatched(f, s);
    }
    RawShape(f.raw, f.ref);
    var t := MatchAt(s).value.rest;
    var inner := MatchSplit(s);
    ReplaceBehind(inner, t, f.raw, v);
    ConsConcat(RawAt(s), Replace(t, f.raw, v));
    BehindOther(k, env, s, Replace(t, f.raw, v));
  }

  /** A replacement further on makes no "${{" with the character in front. */
  lemma NoNewOpener(c: char, t: string, raw: string, v: string)
    requires raw != "" && raw[0] == '$' && v != "" && v[0] != '{'
    ensures HasPrefix([c] + Replace(t, raw, v), OPENER) ==> HasPrefix([c] + t, OPENER)
  {
    var t' := Replace(t, raw, v);
    if HasPrefix([c] + t', OPENER) {
      assert t'[0] == ([c] + t')[1] == '{' && t'[1] == ([c] + t')[2] == '{';
      assert t[0] == '{' && t'[1..] == Replace(t[1..], raw, v);
    }
  }

  lemma ReplaceBehindChar(k: Kind, env: Env, s: string, f: Found, v: string)
    requires Clean(s) && s != "" && MatchAt(s).None? && Safe(v)
    requires IsRaw(f.raw, f.ref) && f.ref.Kind() == k
    requires Stepped(k, env, s[1..], Replace(s[1..], f.raw, v))
    ensures Stepped(k, env, s, Replace(s, f.raw, v))
  {
    if HasPrefix(s, f.raw) {
      RawIsMatched(f, s);
    }
    RawShape(f.raw, f.ref);
    var t' := Replace(s[1..], f.raw, v);
    ConsConcat(s, "");
    NoNewOpener(s[0], s[1..], f.raw, v);
    assert ([s[0]] + t')[1..] == t';
    assert MatchAt([s[0]] + t') == None;
  }

  /**
   One replacement in clean text: it takes away the first reference of its kind, keeps all
   others as they are, and keeps the meaning of the text.
   */
  lemma {:induction false} ReplaceFirst(k: Kind, env: Env, s: string, f: Found, v: string)
    requires Clean(s) && FindAll(k, s) != [] && f == FindAll(k, s)[0]
    requires env.Get(f.ref) == Some(v) && Safe(v)
    ensures Stepped(k, env, s, Replace(s, f.raw, v))
    decreases |s|
  {
    FoundIsRaw(k, s, f);
    match MatchAt(s) {
      case None =>
        ReplaceFirst(k, env, s[1..], f, v);
        ReplaceBehindChar(k, env, s, f, v);
      case Some(m) =>
        if m.ref.Kind() == k {
          ReplaceHere(k, env, s, v);
        } else {
          SkipMatch(s, k);
          CleanMatch(s);
          ReplaceFirst(k, env, m.rest, f, v);
          ReplaceBehindOther(k, env, s, f, v);
        }
    }
  }

  // ---------------------------------------------------------------- the theorem

  /** One loop: it stops at its first reference without a value, or leaves text of the same meaning. */
  lemma {:induction false} Phase(k: Kind, env: Env, s: string)
    requires Clean(s) && SafeFor(FindAll(k, s), env)
    ensures var out := ReplaceRefs(FindAll(k, s), env, s);
            match FirstMissing(FindAll(k, s), env)
            case Some(ref) => out == Missing(ref)
            case None =>
              && out.Resolved? && Clean(out.text) && Subst(env, out.text) == Subst(env, s)
              && FindAll(k, out.text) == [] && FindAll(Other(k), out.text) == FindAll(Other(k), s)
    decreases |FindAll(k, s)|
  {
    var refs := FindAll(k, s);
    if refs != [] && env.Get(refs[0].ref).Some? {
      var v := env.Get(refs[0].ref).value;
      assert refs[0] in refs;
      ReplaceFirst(k, env, s, refs[0], v);
      var s' := Replace(s, refs[0].raw, v);
      assert FindAll(k, s') == refs[1..];
      Phase(k, env, s');
    }
  }

  lemma {:induction false} NothingToSubstitute(env: Env, s: string)
    requires FindAll(Output, s) == [] && FindAll(Secret, s) == []
    ensures Subst(env, s) == s
    decreases |s|
  {
    if s != "" {
      assert MatchAt(s).None? by {
        if MatchAt(s).Some? {
          TakeMatch(s, MatchAt(s).value.ref.Kind());
        }
      }
      NothingToSubstitute(env, s[1..]);
      ConsConcat(s, "");
    }
  }

  lemma {:induction false} FirstMissingConcat(xs: seq<Found>, ys: seq<Found>, env: Env)
    ensures FirstMissing(xs + ys, env) ==
              if FirstMissing(xs, env).Some? then FirstMissing(xs, env) else FirstMissing(ys, env)
  {
    if xs == [] {
      assert xs + ys == ys;
    } else {
      assert (xs + ys)[1..] == xs[1..] + ys;
      FirstMissingConcat(xs[1..], ys, env);
    }
  }

  /** The references of a command, in the order in which they are looked up. */
  function AllRefs(s: string): seq<Found> {
    FindAll(Output, s) + FindAll(Secret, s)
  }

  /**
   Sequential resolution is simultaneous substitution: for clean text and safe values the two
   loops fail at the first reference of the original text that has no value, and otherwise
   yield the original text with every reference replaced by its own value.
   */
  lemma SequentialIsSimultaneous(s: string, env: Env)
    requires Clean(s) && SafeFor(AllRefs(s), env)
    ensures Resolve(s, env) == match FirstMissing(AllRefs(s), env)
                               case Some(ref) => Missing(ref)
                               case None => Resolved(Subst(env, s))
  {
    FirstMissingConcat(FindAll(Output, s), FindAll(Secret, s), env);
    assert SafeFor(FindAll(Output, s), env) && SafeFor(FindAll(Secret, s), env);
    Phase(Output, env, s);
    if FirstMissing(FindAll(Output, s), env).None? {
      var text := ReplaceRefs(FindAll(Output, s), env, s).text;
      Phase(Secret, env, text);
      if FirstMissing(FindAll(Secret, s), env).None? {
        NothingToSubstitute(env, ReplaceRefs(FindAll(Secret, text), env, text).text);
      }
    }
  }

  /** The secrets looked up in the output-resolved text are exactly those of the original text. */
  lemma SecretReferencesKept(s: string, env: Env)
    requires Clean(s) && SafeFor(FindAll(Output, s), env)
    requires FirstMissing(FindAll(Output, s), env).None?
    ensures var out := ReplaceRefs(FindAll(Output, s), env, s);
            out.Resolved? && FindAll(Secret, out.text) == FindAll(Secret, s)
  {
    Phase(Output, env, s);
  }

  // ---------------------------------------------------------------- what a parsed list holds

  lemma {:induction false} ContainsBehind(p: string, t: string, raw: string)
    requires NoDollar(p) && raw != "" && raw[0] == '$'
    ensures Contains(p + t, raw) <==> Contains(t, raw)
  {
    if p == "" {
      assert p + t == t;
    } else {
      ConsConcat(p, t);
      ContainsBehind(p[1..], t, raw);
    }
  }

  lemma BesidesTheMatch(s: string, f: Found)
    requires MatchAt(s).Some? && !HasPrefix(s, f.raw) && f.raw != "" && f.raw[0] == '$'
    ensures Contains(s, f.raw) <==> Contains(MatchAt(s).value.rest, f.raw)
    ensures f != Found(RawAt(s), MatchAt(s).value.ref)
  {
    var inner := MatchSplit(s);
    ContainsBehind(inner, MatchAt(s).value.rest, f.raw);
  }

  /** In any text, clean or not, exactly the matched texts that occur somewhere in it are found. */
  lemma {:induction false} FindAllExactly(k: Kind, s: string, f: Found)
    requires IsRaw(f.raw, f.ref) && f.ref.Kind() == k
    ensures f in FindAll(k, s) <==> Contains(s, f.raw)
    decreases |s|
  {
    RawShape(f.raw, f.ref);
    if HasPrefix(s, f.raw) {
      RawIsMatched(f, s);
    } else if s != "" {
      match MatchAt(s) {
        case None => FindAllExactly(k, s[1..], f);
        case Some(m) =>
          BesidesTheMatch(s, f);
          if m.ref.Kind() == k {
            TakeMatch(s, k);
          } else {
            SkipMatch(s, k);
          }
          FindAllExactly(k, m.rest, f);
      }
    }
  }

  // ---------------------------------------------------------------- the side conditions are needed

  lemma {:induction false} NoOpenerFindsNothing(s: string, k: Kind)
    requires NoOpener(s)
    ensures FindAll(k, s) == [] && Clean(s)
  {
    if s != "" {
      NoOpenerFindsNothing(s[1..], k);
    }
  }

  lemma {:induction false} SafeSuffix(v: string, r: string)
    requires NoOpener(r) && NoOpener(v) && !HasSuffix(v, "$") && !HasSuffix(v, "${")
    ensures NoOpener(v + r)
  {
    if v == "" {
      assert v + r == r;
    } else {
      ConsConcat(v, r);
      if HasPrefix(v + r, OPENER) {
        OpenerAcross(v, r);
      }
      SuffixOfTail(v, "$");
      SuffixOfTail(v, "${");
      SafeSuffix(v[1..], r);
    }
  }

  lemma {:induction false} SafePrefix(l: string, x: string)
    requires NoOpener(l) && NoOpener(x) && x != "" && x[0] != '{'
    ensures NoOpener(l + x)
  {
    if l == "" {
      assert l + x == x;
    } else {
      ConsConcat(l, x);
      assert (l + x)[|l|] == x[0];
      if HasPrefix(l + x, OPENER) {
        OpenerAcross(l, x);
      }
      SafePrefix(l[1..], x);
    }
  }

  lemma {:induction false} NoDollarNoOpener(s: string)
    requires NoDollar(s)
    ensures NoOpener(s)
  {
    if s != "" {
      assert s[0] != OPENER[0];
      NoDollarNoOpener(s[1..]);
    }
  }

  lemma ShortTexts()
    ensures NoOpener("") && NoOpener("$") && NoOpener("${") && NoOpener("{") && NoOpener("{{")
  {
    NoDollarNoOpener("{{");
    NoDollarNoOpener("{");
    assert "${"[1..] == "{" && "$"[1..] == "";
  }

  lemma {:induction false} OpenerBefore(v: string, r: string)
    requires !NoOpener(v)
    ensures !NoOpener(v + r)
  {
    ConsConcat(v, r);
    if HasPrefix(v, OPENER) {
      PrefixSplit(v, OPENER);
      assert HasPrefix(v + r, OPENER);
    } else {
      OpenerBefore(v[1..], r);
    }
  }

  lemma {:induction false} OpenerWithin(l: string, x: string)
    requires !NoOpener(x)
    ensures !NoOpener(l + x)
  {
    if l == "" {
      assert l + x == x;
    } else {
      ConsConcat(l, x);
      OpenerWithin(l[1..], x);
    }
  }

  lemma StartOpener(v: string, r: string)
    requires v != "" && v[0] == '{'
    ensures !NoOpener("${" + (v + r))
  {
    var x := "${" + (v + r);
    assert x[0] == '$' && x[1] == '{' && x[2] == '{';
    assert x[..3] == OPENER;
  }

  lemma EndOpener(v: string, x: string, r: string)
    requires HasSuffix(v, x) && x + r == OPENER
    ensures !NoOpener("" + (v + r))
  {
    var p := v[..|v| - |x|];
    assert "" + (v + r) == p + OPENER;
    OpenerWithin(p, OPENER);
  }

  /** For each value that is not safe, opener-free surroundings in which it makes an opener. */
  lemma Straddle(v: string) returns (l: string, r: string)
    requires !Safe(v)
    ensures NoOpener(l) && NoOpener(r) && !NoOpener(l + (v + r))
  {
    ShortTexts();
    if !NoOpener(v) {
      l, r := "", "";
      OpenerBefore(v, r);
      OpenerWithin(l, v + r);
    } else if v == "" {
      l, r := "$", "{{";
      assert l + (v + r) == OPENER;
    } else if v[0] == '{' {
      l, r := "${", "";
      StartOpener(v, r);
    } else {
      l, r := "", if HasSuffix(v, "$") then "{{" else "{";
      EndOpener(v, if HasSuffix(v, "$") then "$" else "${", r);
    }
  }

  /** Safe is exact: the values that never make an opener, whatever opener-free text they meet. */
  lemma SafeExactly(v: string)
    ensures Safe(v) <==> forall l, r | NoOpener(l) && NoOpener(r) :: NoOpener(l + (v + r))
  {
    if Safe(v) {
      forall l, r | NoOpener(l) && NoOpener(r) ensures NoOpener(l + (v + r)) {
        SafeSuffix(v, r);
        SafePrefix(l, v + r);
      }
    } else {
      var l, r := Straddle(v);
    }
  }

  lemma {:induction false} InertBeforeRaw(l: string, t: string)
    requires NoOpener(l) && t != "" && t[0] != '{'
    ensures Inert(l, t)
  {
    if l != "" {
      assert (l + t)[|l|] == t[0];
      if HasPrefix(l + t, OPENER) {
        OpenerAcross(l, t);
      }
      InertBeforeRaw(l[1..], t);
    }
  }

  lemma {:induction false} InertReplace(p: string, t: string, raw: string, v: string)
    requires Inert(p, t) && HasPrefix(raw, OPENER)
    ensures Replace(p + t, raw, v) == p + Replace(t, raw, v)
  {
    if p == "" {
      assert p + t == t && p + Replace(t, raw, v) == Replace(t, raw, v);
    } else {
      ConsConcat(p, t);
      if HasPrefix(p + t, raw) {
        PrefixSplit(p + t, raw);
        PrefixSplit(raw, OPENER);
        assert HasPrefix(p + t, OPENER);
      }
      InertReplace(p[1..], t, raw, v);
      ConsConcat(p, Replace(t, raw, v));
    }
  }

  /** The parsed lists of a text with a single output reference between opener-free texts. */
  lemma SingleReference(l: string, f: Found, r: string, env: Env)
    requires NoOpener(l) && NoOpener(r) && IsRaw(f.raw, f.ref) && f.ref.OutputRef?
    ensures Clean(l + (f.raw + r))
    ensures FindAll(Output, l + (f.raw + r)) == [f]
    ensures env.Get(f.ref).Some? ==> Subst(env, l + (f.raw + r)) == l + (env.Get(f.ref).value + r)
  {
    var s := f.raw + r;
    RawShape(f.raw, f.ref);
    PrefixOf(f.raw, r);
    RawIsMatched(f, s);
    InertBeforeRaw(l, s);
    InertFind(l, s, Output);
    InertClean(l, s);
    InertSubst(l, s, env);
    NoOpenerFindsNothing(r, Output);
    NoOpenerFindsNothing(r, Secret);
    TakeMatch(s, Output);
    CleanMatch(s);
    SubstMatch(s, env);
    NothingToSubstitute(env, r);
  }

  function SecretsOnly(env: Env): Env {
    Env(map[], env.secrets)
  }

  lemma {:induction false} SameSecrets(refs: seq<Found>, env: Env, s: string)
    requires forall f | f in refs :: f.ref.SecretRef?
    ensures ReplaceRefs(refs, env, s) == ReplaceRefs(refs, SecretsOnly(env), s)
    ensures FirstMissing(refs, env) == FirstMissing(refs, SecretsOnly(env))
    decreases |refs|
  {
    if refs != [] {
      assert refs[0] in refs;
      assert env.Get(refs[0].ref) == SecretsOnly(env).Get(refs[0].ref);
      if env.Get(refs[0].ref).Some? {
        SameSecrets(refs[1..], env, Replace(s, refs[0].raw, env.Get(refs[0].ref).value));
      }
    }
  }

  /** Substitution is the identity where no reference has a value. */
  lemma {:induction false} NothingApplies(env: Env, s: string)
    requires forall f | f in AllRefs(s) :: env.Get(f.ref).None?
    ensures Subst(env, s) == s
    decreases |s|
  {
    if s != "" {
      match MatchAt(s) {
        case None =>
          NothingApplies(env, s[1..]);
          ConsConcat(s, "");
        case Some(m) =>
          TakeMatch(s, m.ref.Kind());
          SkipMatch(s, Other(m.ref.Kind()));
          assert Found(RawAt(s), m.ref) in AllRefs(s);
          NothingApplies(env, m.rest);
          SubstMatch(s, env);
          MatchShape(s, m.rest);
      }
    }
  }

  lemma AllSecret(s: string)
    ensures forall f | f in FindAll(Secret, s) :: f.ref.SecretRef?
  {
    forall f | f in FindAll(Secret, s) ensures f.ref.SecretRef? {
      FoundIsRaw(Secret, s, f);
    }
  }

  lemma NoSecretLeft(s: string, env: Env)
    requires FindAll(Secret, s) == []
    ensures forall f | f in AllRefs(s) :: SecretsOnly(env).Get(f.ref).None?
  {
    forall f | f in AllRefs(s) ensures SecretsOnly(env).Get(f.ref).None? {
      FoundIsRaw(Output, s, f);
    }
  }

  /** The second loop on its own: it puts in the secrets, and leaves everything else. */
  lemma SecretLoop(s: string, env: Env)
    requires Clean(s) && SafeFor(FindAll(Secret, s), env)
    ensures ReplaceRefs(FindAll(Secret, s), env, s) ==
            match FirstMissing(FindAll(Secret, s), env)
            case Some(ref) => Missing(ref)
            case None => Resolved(Subst(SecretsOnly(env), s))
    ensures FirstMissing(FindAll(Secret, s), env).None? ==> FindAll(Secret, Subst(SecretsOnly(env), s)) == []
  {
    var found, only := FindAll(Secret, s), SecretsOnly(env);
    AllSecret(s);
    SameSecrets(found, env, s);
    Phase(Secret, only, s);
    if FirstMissing(found, env).None? {
      var text := ReplaceRefs(found, only, s).text;
      NoSecretLeft(text, env);
      NothingApplies(only, text);
    }
  }

  lemma OpenerOfRaw(f: Found)
    requires IsRaw(f.raw, f.ref)
    ensures HasPrefix(f.raw, OPENER)
  {
    var w1, w2 :| Blank(w1) && Blank(w2) && f.raw == RawText(w1, f.ref, w2);
    PrefixOf(OPENER, w1 + (Body(f.ref) + (w2 + "}}")));
  }

  lemma ReplaceSingle(l: string, f: Found, r: string, v: string)
    requires NoOpener(l) && IsRaw(f.raw, f.ref)
    ensures Replace(l + (f.raw + r), f.raw, v) == l + (v + r)
  {
    var s := f.raw + r;
    RawShape(f.raw, f.ref);
    PrefixOf(f.raw, r);
    RawIsMatched(f, s);
    MatchShape(s, r);
    OpenerOfRaw(f);
    InertBeforeRaw(l, s);
    InertReplace(l, s, f.raw, v);
    assert Replace(s, f.raw, v) == v + r;
  }

  lemma FirstLoop(s: string, f: Found, env: Env, text: string)
    requires FindAll(Output, s) == [f] && env.Get(f.ref).Some? && Replace(s, f.raw, env.Get(f.ref).value) == text
    ensures ReplaceRefs(FindAll(Output, s), env, s) == Resolved(text)
  {
    assert [f][1..] == [];
  }

  /**
   Where the theorem ends. A command's one reference stands between opener-free texts and has
   the value v, safe or not. If v completes no secret reference there, the command resolves to
   the text with v in place; otherwise v's own text is resolved once more: a completed
   reference to a declared secret is replaced by that secret, and one to an undeclared secret
   makes the command fail, although the command names neither.
   */
  lemma ResolvesUnlessSecretFormed(l: string, f: Found, r: string, v: string, env: Env)
    requires NoOpener(l) && NoOpener(r) && IsRaw(f.raw, f.ref) && f.ref.OutputRef? && env.Get(f.ref) == Some(v)
    requires var formed := FindAll(Secret, l + (v + r));
             formed != [] ==> Clean(l + (v + r)) && SafeFor(formed, env)
    ensures Resolve(l + (f.raw + r), env) == Resolved(l + (v + r)) <==> FindAll(Secret, l + (v + r)) == []
    ensures var formed := FindAll(Secret, l + (v + r));
            formed != [] ==>
              Resolve(l + (f.raw + r), env) == match FirstMissing(formed, env)
                                               case Some(ref) => Missing(ref)
                                               case None => Resolved(Subst(SecretsOnly(env), l + (v + r)))
  {
    var text := l + (v + r);
    SingleReference(l, f, r, env);
    ReplaceSingle(l, f, r, v);
    FirstLoop(l + (f.raw + r), f, env, text);
    if FindAll(Secret, text) != [] {
      SecretLoop(text, env);
    }
  }

  /** The parsed lists of a text with a single secret reference between opener-free texts. */
  lemma SingleSecret(l: string, g: Found, r: string)
    requires NoOpener(l) && NoOpener(r) && IsRaw(g.raw, g.ref) && g.ref.SecretRef?
    ensures FindAll(Output, l + (g.raw + r)) == [] && FindAll(Secret, l + (g.raw + r)) == [g]
  {
    var s := g.raw + r;
    RawShape(g.raw, g.ref);
    PrefixOf(g.raw, r);
    RawIsMatched(g, s);
    InertBeforeRaw(l, s);
    InertFind(l, s, Output);
    InertFind(l, s, Secret);
    NoOpenerFindsNothing(r, Output);
    NoOpenerFindsNothing(r, Secret);
    TakeMatch(s, Secret);
    SkipMatch(s, Output);
  }

  lemma OneRef(f: Found, env: Env, s: string, text: string)
    requires env.Get(f.ref).Some? ==> Replace(s, f.raw, env.Get(f.ref).value) == text
    ensures ReplaceRefs([f], env, s) == if env.Get(f.ref).Some? then Resolved(text) else Missing(f.ref)
  {
    assert [f][1..] == [];
  }

  /** A secret reference is replaced by what the secrets hold under its name, whatever that is. */
  lemma SecretIsReplaced(l: string, raw: string, r: string, name: string, outputs: map<string, map<string, string>>,
                         secrets: map<string, string>)
    requires NoOpener(l) && NoOpener(r) && IsRaw(raw, SecretRef(name))
    ensures Resolve(l + (raw + r), Env(outputs, secrets)) ==
            if name in secrets then Resolved(l + (secrets[name] + r)) else Missing(SecretRef(name))
  {
    var g, env := Found(raw, SecretRef(name)), Env(outputs, secrets);
    SingleSecret(l, g, r);
    if name in secrets {
      ReplaceSingle(l, g, r, secrets[name]);
      OneRef(g, env, l + (raw + r), l + (secrets[name] + r));
    } else {
      OneRef(g, env, l + (raw + r), "");
    }
  }

  lemma ThenSecrets(s: string, env: Env, text: string)
    requires ReplaceRefs(FindAll(Output, s), env, s) == Resolved(text)
    ensures FindAll(Secret, text) == [] ==> Resolve(s, env) == Resolved(text)
  {
  }

  lemma SafeCompletesNone(l: string, v: string, r: string)
    requires NoOpener(l) && NoOpener(r) && Safe(v)
    ensures FindAll(Secret, l + (v + r)) == []
  {
    SafeExactly(v);
    NoOpenerFindsNothing(l + (v + r), Secret);
  }

  /**
   An output reference is replaced by what the step of that name has recorded under the
   output's name; what the second loop then finds in the text is another matter.
   */
  lemma OutputIsReplaced(l: string, raw: string, r: string, step: string, output: string,
                         outputs: map<string, map<string, string>>, secrets: map<string, string>)
    requires NoOpener(l) && NoOpener(r) && IsRaw(raw, OutputRef(step, output))
    ensures step !in outputs || output !in outputs[step] ==>
              Resolve(l + (raw + r), Env(outputs, secrets)) == Missing(OutputRef(step, output))
    ensures step in outputs && output in outputs[step] ==>
              var text := l + (outputs[step][output] + r);
              && (FindAll(Secret, text) == [] ==> Resolve(l + (raw + r), Env(outputs, secrets)) == Resolved(text))
              && (Safe(outputs[step][output]) ==> FindAll(Secret, text) == [])
  {
    var f, env := Found(raw, OutputRef(step, output)), Env(outputs, secrets);
    SingleReference(l, f, r, env);
    if step in outputs && output in outputs[step] {
      var v := outputs[step][output];
      ReplaceSingle(l, f, r, v);
      OneRef(f, env, l + (raw + r), l + (v + r));
      ThenSecrets(l + (raw + r), env, l + (v + r));
      if Safe(v) {
        SafeCompletesNone(l, v, r);
      }
    } else {
      OneRef(f, env, l + (raw + r), "");
    }
  }

  /** What Subst makes of a text: opener-free parts stay, and each reference gives way to its own value. */
  lemma SubstReplaces(l: string, raw: string, r: string, ref: Ref, outputs: map<string, map<string, string>>,
                      secrets: map<string, string>)
    requires NoOpener(l) && IsRaw(raw, ref)
    ensures Subst(Env(outputs, secrets), l) == l
    ensures
      var behind := Subst(Env(outputs, secrets), r);
      Subst(Env(outputs, secrets), l + (raw + r)) ==
      match ref
      case SecretRef(name) => l + ((if name in secrets then secrets[name] else raw) + behind)
      case OutputRef(step, output) =>
        l + ((if step in outputs && output in outputs[step] then outputs[step][output] else raw) + behind)
  {
    var s, env := raw + r, Env(outputs, secrets);
    NoOpenerFindsNothing(l, Output);
    NoOpenerFindsNothing(l, Secret);
    NothingToSubstitute(env, l);
    RawShape(raw, ref);
    PrefixOf(raw, r);
    RawIsMatched(Found(raw, ref), s);
    InertBeforeRaw(l, s);
    InertSubst(l, s, env);
    SubstMatch(s, env);
  }

  lemma SecretAlone(g: Found, env: Env)
    requires IsRaw(g.raw, g.ref) && g.ref.SecretRef? && env.Get(g.ref).Some?
    ensures FindAll(Secret, g.raw) == [g] && Clean(g.raw)
    ensures Subst(SecretsOnly(env), g.raw) == env.Get(g.ref).value
  {
    assert g.raw + "" == g.raw;
    MatchIsThePattern(g.raw, "", g.ref);
    assert RawAt(g.raw) == g.raw;
    TakeMatch(g.raw, Secret);
    CleanMatch(g.raw);
    SubstMatch(g.raw, SecretsOnly(env));
    assert Subst(SecretsOnly(env), "") == "";
  }

  /** The case without surroundings. */
  lemma BareReference(f: Found, v: string, env: Env)
    requires IsRaw(f.raw, f.ref) && f.ref.OutputRef? && env.Get(f.ref) == Some(v)
    requires FindAll(Secret, v) != [] && Clean(v) && SafeFor(FindAll(Secret, v), env)
    requires FirstMissing(FindAll(Secret, v), env).None?
    ensures Resolve(f.raw, env) == Resolved(Subst(SecretsOnly(env), v))
  {
    assert "" + (v + "") == v && "" + (f.raw + "") == f.raw;
    ResolvesUnlessSecretFormed("", f, "", v, env);
  }

  /** Such a value: an output that spells a reference to a secret is replaced by that secret. */
  lemma OutputNamesSecret(f: Found, g: Found, env: Env, secret: string)
    requires IsRaw(f.raw, f.ref) && f.ref.OutputRef? && env.Get(f.ref) == Some(g.raw)
    requires IsRaw(g.raw, g.ref) && g.ref.SecretRef? && env.Get(g.ref) == Some(secret) && Safe(secret)
    ensures Resolve(f.raw, env) == Resolved(secret)
  {
    SecretAlone(g, env);
    BareReference(f, g.raw, env);
  }

  /** The value breaks some command: it completes a secret reference between opener-free texts. */
  ghost predicate CanFormSecret(v: string) {
    exists l, r :: NoOpener(l) && NoOpener(r) && FindAll(Secret, l + (v + r)) != []
  }

  /** x is the beginning of a secret reference, or begins with one. */
  ghost predicate MeetsSecret(x: string) {
    x != "" && exists raw, name :: IsRaw(raw, SecretRef(name)) && (HasPrefix(raw, x) || HasPrefix(x, raw))
  }

  /** What v itself must look like: it holds, ends in, or continues such a beginning. */
  ghost predicate BearsSecret(v: string) {
    MeetsSecret("$" + v) || MeetsSecret("${" + v) || exists i :: 0 <= i < |v| && MeetsSecret(v[i..])
  }

  lemma PrefixTransitive(s: string, p: string, q: string)
    requires HasPrefix(s, p) && HasPrefix(p, q)
    ensures HasPrefix(s, q)
  {
  }

  lemma FirstFormed(s: string) returns (f: Found, k: nat)
    requires FindAll(Secret, s) != []
    ensures IsRaw(f.raw, f.ref) && f.ref.SecretRef?
    ensures k <= |s| && HasPrefix(s[k..], f.raw) && HasPrefix(s[k..], OPENER)
  {
    f := FindAll(Secret, s)[0];
    FoundIsRaw(Secret, s, f);
    FindAllExactly(Secret, s, f);
    k := ContainsAt(s, f.raw);
    OpenerOfRaw(f);
    PrefixTransitive(s[k..], f.raw, OPENER);
  }

  /** Where a tail of l + v + r begins. */
  lemma Tails(l: string, v: string, r: string, k: nat)
    requires k <= |l + (v + r)|
    ensures var t := (l + (v + r))[k..];
            if k < |l| then t == l[k..] + (v + r)
            else if k < |l| + |v| then t == v[k - |l|..] + r
            else t == r[k - |l| - |v|..]
  {
  }

  lemma {:induction false} NoOpenerTail(s: string, k: nat)
    requires NoOpener(s) && k <= |s|
    ensures NoOpener(s[k..])
    ensures !HasPrefix(s[k..], OPENER)
  {
    if k == 0 {
      assert s[0..] == s;
    } else {
      assert s[k..] == s[1..][k - 1..];
      NoOpenerTail(s[1..], k - 1);
    }
  }

  lemma Reassociated(p: string, v: string, r: string)
    ensures p + (v + r) == (p + v) + r
  {
  }

  /** Of two beginnings of one text one begins the other. */
  lemma TwoPrefixes(x: string, r: string, y: string)
    requires HasPrefix(x + r, y)
    ensures HasPrefix(y, x) || HasPrefix(x, y)
  {
    assert forall i | 0 <= i < |y| && i < |x| :: y[i] == (x + r)[i] == x[i];
  }

  lemma Comparable(x: string, r: string, f: Found)
    requires IsRaw(f.raw, f.ref) && f.ref.SecretRef? && x != "" && HasPrefix(x + r, f.raw)
    ensures MeetsSecret(x)
  {
    TwoPrefixes(x, r, f.raw);
    assert f.ref == SecretRef(f.ref.name);
  }

  lemma StartsInFront(p: string, v: string, r: string, f: Found)
    requires p == "$" || p == "${"
    requires IsRaw(f.raw, f.ref) && f.ref.SecretRef? && HasPrefix(p + (v + r), f.raw)
    ensures BearsSecret(v)
  {
    Reassociated(p, v, r);
    Comparable(p + v, r, f);
  }

  lemma FormedInFront(l: string, v: string, r: string, f: Found, k: nat)
    requires NoOpener(l) && k < |l| && IsRaw(f.raw, f.ref) && f.ref.SecretRef?
    requires HasPrefix((l + (v + r))[k..], f.raw) && HasPrefix((l + (v + r))[k..], OPENER)
    ensures BearsSecret(v)
  {
    var p := l[k..];
    Tails(l, v, r, k);
    NoOpenerTail(l, k);
    OpenerAcross(p, v + r);
    StartsInFront(p, v, r, f);
  }

  lemma FormedAt(l: string, v: string, r: string, f: Found, k: nat)
    requires NoOpener(l) && NoOpener(r) && IsRaw(f.raw, f.ref) && f.ref.SecretRef? && k <= |l + (v + r)|
    requires HasPrefix((l + (v + r))[k..], f.raw) && HasPrefix((l + (v + r))[k..], OPENER)
    ensures BearsSecret(v)
  {
    Tails(l, v, r, k);
    if k < |l| {
      FormedInFront(l, v, r, f, k);
    } else if k < |l| + |v| {
      Comparable(v[k - |l|..], r, f);
    } else {
      NoOpenerTail(r, k - |l| - |v|);
    }
  }

  /** A reference in l + v + r begins at the end of l or within v. */
  lemma FormedFromPart(l: string, v: string, r: string)
    requires NoOpener(l) && NoOpener(r) && FindAll(Secret, l + (v + r)) != []
    ensures BearsSecret(v)
  {
    var f, k := FirstFormed(l + (v + r));
    FormedAt(l, v, r, f, k);
  }

  /** What is missing of a reference that has begun, which contains no '$'. */
  lemma Completion(x: string, raw: string, ref: Ref) returns (r: string)
    requires x != "" && IsRaw(raw, ref) && (HasPrefix(raw, x) || HasPrefix(x, raw))
    ensures NoDollar(r) && HasPrefix(x + r, raw)
  {
    if HasPrefix(x, raw) {
      r := "";
      assert x + r == x;
    } else {
      r := raw[|x|..];
      PrefixSplit(raw, x);
      RawShape(raw, ref);
      assert forall i | 0 <= i < |r| :: r[i] == raw[1..][|x| - 1 + i];
    }
  }

  lemma ContainsBehindAll(p: string, s: string, x: string)
    requires HasPrefix(s, x)
    ensures Contains(p + s, x)
  {
    assert (p + s)[|p|..] == s;
    ContainsInTail(p + s, |p|, x);
  }

  lemma PartContained(l: string, v: string, r: string, x: string, p: string, raw: string)
    requires l + v == p + x && HasPrefix(x + r, raw)
    ensures Contains(l + (v + r), raw)
  {
    assert l + (v + r) == (l + v) + r == p + (x + r);
    ContainsBehindAll(p, x + r, raw);
  }

  lemma ContainedIsFound(s: string, f: Found)
    requires IsRaw(f.raw, f.ref) && f.ref.SecretRef? && Contains(s, f.raw)
    ensures FindAll(Secret, s) != []
  {
    FindAllExactly(Secret, s, f);
  }

  lemma ContainedForms(l: string, v: string, r: string, f: Found)
    requires NoOpener(l) && NoOpener(r) && IsRaw(f.raw, f.ref) && f.ref.SecretRef? && Contains(l + (v + r), f.raw)
    ensures CanFormSecret(v)
  {
    ContainedIsFound(l + (v + r), f);
  }

  /** l + v ends in a part x of a reference. */
  lemma PartForms(l: string, v: string, x: string, p: string)
    requires NoOpener(l) && MeetsSecret(x) && l + v == p + x
    ensures CanFormSecret(v)
  {
    var raw, name :| IsRaw(raw, SecretRef(name)) && (HasPrefix(raw, x) || HasPrefix(x, raw));
    var r := Completion(x, raw, SecretRef(name));
    PartContained(l, v, r, x, p, raw);
    NoDollarNoOpener(r);
    ContainedForms(l, v, r, Found(raw, SecretRef(name)));
  }

  /** Exactly the values that bear a part of a secret reference can complete one. */
  lemma WhoFormsSecrets(v: string)
    ensures CanFormSecret(v) <==> BearsSecret(v)
  {
    if CanFormSecret(v) {
      var l, r :| NoOpener(l) && NoOpener(r) && FindAll(Secret, l + (v + r)) != [];
      FormedFromPart(l, v, r);
    }
    ShortTexts();
    if MeetsSecret("$" + v) {
      PartForms("$", v, "$" + v, "");
    } else if MeetsSecret("${" + v) {
      PartForms("${", v, "${" + v, "");
    } else if BearsSecret(v) {
      var i :| 0 <= i < |v| && MeetsSecret(v[i..]);
      assert v == v[..i] + v[i..];
      PartForms("", v, v[i..], v[..i]);
    }
  }

  const SECRET_X := "${{ secrets.x }}"

  lemma SecretXIsRaw()
    ensures IsRaw(SECRET_X, SecretRef("x"))
    ensures HasPrefix(SECRET_X, "$") && HasPrefix(SECRET_X, "${")
  {
    assert SECRET_X == RawText(" ", SecretRef("x"), " ");
    assert Blank(" ");
    assert SECRET_X[..1] == "$" && SECRET_X[..2] == "${";
  }

  /** No safe value does; every empty value and every value that ends in "$" or "${" does. */
  lemma SafeFormsNone(v: string)
    ensures Safe(v) ==> !BearsSecret(v)
    ensures v == "" || HasSuffix(v, "$") || HasSuffix(v, "${") ==> BearsSecret(v)
  {
    WhoFormsSecrets(v);
    if Safe(v) {
      SafeExactly(v);
      forall l, r | NoOpener(l) && NoOpener(r) ensures FindAll(Secret, l + (v + r)) == [] {
        NoOpenerFindsNothing(l + (v + r), Secret);
      }
    }
    SecretXIsRaw();
    assert MeetsSecret("$") && MeetsSecret("${");
    if v == "" {
      assert "$" + v == "$";
    } else if HasSuffix(v, "$") {
      assert v[|v| - 1..] == "$";
    } else if HasSuffix(v, "${") {
      assert v[|v| - 2..] == "${";
    }
  }

  // ---------------------------------------------------------------- ParseTemplates and ParseSecretTemplates

  lemma Append<T>(xs: seq<T>, x: T, ys: seq<T>)
    ensures xs + ([x] + ys) == (xs + [x]) + ys
  {
  }

  method ParseRefs(k: Kind, input: string) returns (refs: seq<Found>)
    ensures refs == FindAll(k, input)
  {
    refs := [];
    var rest := input;
    while rest != ""
      invariant refs + FindAll(k, rest) == FindAll(k, input)
      decreases |rest|
    {
      var m := MatchAt(rest);
      if m.Some? && m.value.ref.Kind() == k {
        TakeMatch(rest, k);
        Append(refs, Found(RawAt(rest), m.value.ref), FindAll(k, m.value.rest));
        refs := refs + [Found(RawAt(rest), m.value.ref)];
        rest := m.value.rest;
      } else {
        DropChar(rest, k);
        rest := rest[1..];
      }
    }
  }
}
