/** Loading, scoping and masking of secrets (internal/engine/secret.go). */
module Secrets {
  import opened Strings
  import opened Job

  // ---------------------------------------------------------------- loading

  /** Where a declared secret comes from; the empty string stands for "not given". */
  datatype Declaration = Declaration(name: string, env: string, file: string)

  /** The process environment and the readable files. */
  datatype World = World(vars: map<string, string>, files: map<string, string>)

  datatype LoadError = EnvNotSet(name: string) | FileUnreadable(name: string) | SourceEmpty(name: string)

  datatype Value = Value(value: string) | NoValue(error: LoadError)

  /** The environment wins; the file is read when no variable is named or set, and is trimmed. */
  function ResolveSecret(d: Declaration, w: World): Value {
    if d.env != "" && d.env in w.vars then Value(w.vars[d.env])
    else if d.env != "" && d.file == "" then NoValue(EnvNotSet(d.name))
    else if d.file == "" then NoValue(SourceEmpty(d.name))
    else if d.file in w.files then Value(TrimSpace(w.files[d.file]))
    else NoValue(FileUnreadable(d.name))
  }

  datatype Loaded = Loaded(secrets: map<string, string>, error: Option<LoadError>)

  function LoadInto(ds: seq<Declaration>, w: World, secrets: map<string, string>): Loaded {
    if ds == [] then Loaded(secrets, None)
    else
      match ResolveSecret(ds[0], w)
      case NoValue(e) => Loaded(secrets, Some(e))
      case Value(v) => LoadInto(ds[1..], w, secrets[ds[0].name := v])
  }

  predicate Declared(ds: seq<Declaration>, name: string) {
    exists i :: 0 <= i < |ds| && ds[i].name == name
  }

  predicate DistinctNames(ds: seq<Declaration>) {
    forall i, j | 0 <= i < j < |ds| :: ds[i].name != ds[j].name
  }

  /** A declaration has a value if its variable is set, or else if its file can be read. */
  predicate Available(d: Declaration, w: World) {
    (d.env != "" && d.env in w.vars) || (d.file != "" && d.file in w.files)
  }

  /**
   Loading fails exactly when some declaration has neither a set variable nor a readable file;
   the first such declaration is reported, by what it lacks.
   */
  lemma {:induction false} LoadFails(ds: seq<Declaration>, w: World, base: map<string, string>)
    ensures LoadInto(ds, w, base).error.None? <==>
            forall i | 0 <= i < |ds| ::
              (ds[i].env != "" && ds[i].env in w.vars) || (ds[i].file != "" && ds[i].file in w.files)
    ensures LoadInto(ds, w, base).error.Some? ==>
              exists i :: 0 <= i < |ds| && !Available(ds[i], w) && (forall j | 0 <= j < i :: Available(ds[j], w)) &&
                          LoadInto(ds, w, base).error.value == if ds[i].file != "" then FileUnreadable(ds[i].name)
                                                               else if ds[i].env != "" then EnvNotSet(ds[i].name)
                                                               else SourceEmpty(ds[i].name)
  {
    if ds != [] {
      if Available(ds[0], w) {
        var rest, base1 := ds[1..], base[ds[0].name := ResolveSecret(ds[0], w).value];
        LoadFails(rest, w, base1);
        assert forall i | 1 <= i < |ds| :: ds[i] == rest[i - 1];
        if LoadInto(rest, w, base1).error.Some? {
          var i :| 0 <= i < |rest| && !Available(rest[i], w) && (forall j | 0 <= j < i :: Available(rest[j], w)) &&
                   LoadInto(rest, w, base1).error.value == if rest[i].file != "" then FileUnreadable(rest[i].name)
                                                           else if rest[i].env != "" then EnvNotSet(rest[i].name)
                                                           else SourceEmpty(rest[i].name);
          assert ds[i + 1] == rest[i];
        }
      }
    }
  }

  /** What stands before the first declaration without a value stays loaded, and nothing else is. */
  lemma {:induction false} LoadStops(ds: seq<Declaration>, w: World, base: map<string, string>, i: nat)
    requires i < |ds| && !Available(ds[i], w) && forall j | 0 <= j < i :: Available(ds[j], w)
    ensures LoadInto(ds, w, base).secrets == LoadInto(ds[..i], w, base).secrets
  {
    if i > 0 {
      var rest, base1 := ds[1..], base[ds[0].name := ResolveSecret(ds[0], w).value];
      assert forall j | 0 <= j < |rest| :: rest[j] == ds[j + 1];
      LoadStops(rest, w, base1, i - 1);
      assert ds[..i][1..] == rest[..i - 1] && ds[..i][0] == ds[0];
    }
  }

  /**
   Scoping: what is declared is the variable's value as it is, or else the file's text without
   surrounding space, whatever was visible before, and nothing else changes.
   */
  lemma {:induction false} LoadScope(ds: seq<Declaration>, w: World, base: map<string, string>, name: string)
    requires LoadInto(ds, w, base).error.None?
    ensures
      var after := LoadInto(ds, w, base).secrets;
      && (name in after <==> Declared(ds, name) || name in base)
      && (!Declared(ds, name) && name in base ==> after[name] == base[name])
      && (DistinctNames(ds) ==>
            forall i | 0 <= i < |ds| && ds[i].name == name ::
              if ds[i].env != "" && ds[i].env in w.vars then after[name] == w.vars[ds[i].env]
              else ds[i].file in w.files && after[name] == TrimSpace(w.files[ds[i].file]))
  {
    if ds != [] {
      var rest := ds[1..];
      LoadScope(rest, w, base[ds[0].name := ResolveSecret(ds[0], w).value], name);
      assert forall i | 1 <= i < |ds| :: ds[i] == rest[i - 1];
      assert Declared(ds, name) <==> ds[0].name == name || Declared(rest, name);
    }
  }

  // ---------------------------------------------------------------- masking

  const MASK := "***"

  /** strings.ReplaceAll */
  function ReplaceAll(s: string, v: string, mask: string): string
    requires v != ""
    decreases |s|
  {
    if HasPrefix(s, v) then mask + ReplaceAll(s[|v|..], v, mask)
    else if s == "" then ""
    else [s[0]] + ReplaceAll(s[1..], v, mask)
  }

  function MaskOne(s: string, v: string): string {
    if v == "" then s else ReplaceAll(s, v, MASK)
  }

  /** Masking the values one after the other, in the order given. */
  function MaskAll(s: string, values: seq<string>): string
    decreases |values|
  {
    if values == [] then s else MaskAll(MaskOne(s, values[0]), values[1..])
  }

  /** The mask can be no part of an occurrence of v. */
  predicate MaskSafe(v: string) {
    v != "" && v[0] != '*' && v[|v| - 1] != '*' && !Contains(v, MASK)
  }

  predicate NoStars(v: string) {
    forall i | 0 <= i < |v| :: v[i] != '*'
  }

  lemma {:induction false} ContainsPrefix(s: string, x: string)
    requires Contains(s, x) && x != ""
    ensures x[0] in s
  {
    if HasPrefix(s, x) {
      assert s[0] == x[0];
    } else {
      ContainsPrefix(s[1..], x);
    }
  }

  /** Values without any star are a special case. */
  lemma NoStarsIsSafe(v: string)
    requires v != "" && NoStars(v)
    ensures MaskSafe(v)
  {
    if Contains(v, MASK) {
      ContainsPrefix(v, MASK);
    }
  }

  /** A proper beginning of "***..." ends in a star or holds the mask. */
  lemma MaskWithin(x: string, t: string)
    requires x != "" && HasPrefix(MASK + t, x)
    ensures x[|x| - 1] == '*' || Contains(x, MASK)
  {
    assert forall i | 0 <= i < |x| :: x[i] == (MASK + t)[i];
    if |x| > 3 {
      assert x[..3] == MASK;
    }
  }

  /** An end of a masked text that begins like x began like x before, or begins with a mask. */
  lemma {:induction false} PrefixBeforeMask(s: string, v: string, x: string)
    requires v != "" && (x == "" || x[|x| - 1] != '*') && !Contains(x, MASK)
    requires HasPrefix(ReplaceAll(s, v, MASK), x)
    ensures HasPrefix(s, x) || (HasPrefix(s, v) && x != "" && x[0] == '*')
    decreases |s|
  {
    var r := ReplaceAll(s, v, MASK);
    if x != "" && HasPrefix(s, v) {
      assert r[0] == MASK[0];
    } else if x != "" {
      var t := ReplaceAll(s[1..], v, MASK);
      assert r == [s[0]] + t && r[1..] == t;
      assert HasPrefix(t, x[1..]);
      PrefixBeforeMask(s[1..], v, x[1..]);
      if HasPrefix(s[1..], v) && x[1..] != "" {
        MaskWithin(x[1..], ReplaceAll(s[1..][|v|..], v, MASK));
      }
    }
  }

  lemma BehindMask(t: string, w: string)
    requires w != "" && w[0] != '*' && Contains(MASK + t, w)
    ensures Contains(t, w)
  {
    var a, b := "**" + t, "*" + t;
    assert (MASK + t)[0] == '*' && (MASK + t)[1..] == a;
    assert a[0] == '*' && a[1..] == b;
    assert b[0] == '*' && b[1..] == t;
    assert Contains(a, w) && Contains(b, w);
  }

  /** Masking v brings no occurrence of a safe w, and leaves none of a safe v. */
  lemma {:induction false} MaskBringsNone(s: string, v: string, w: string)
    requires v != "" && MaskSafe(w) && Contains(ReplaceAll(s, v, MASK), w)
    ensures Contains(s, w) && v != w
    decreases |s|
  {
    var r := ReplaceAll(s, v, MASK);
    if HasPrefix(s, v) {
      var t := ReplaceAll(s[|v|..], v, MASK);
      assert r == MASK + t;
      BehindMask(t, w);
      MaskBringsNone(s[|v|..], v, w);
      ContainsInTail(s, |v|, w);
    } else {
      if HasPrefix(r, w) {
        PrefixBeforeMask(s, v, w);
      } else {
        var t := ReplaceAll(s[1..], v, MASK);
        assert r[1..] == t;
        MaskBringsNone(s[1..], v, w);
      }
    }
  }

  predicate AllSafe(values: seq<string>) {
    forall i | 0 <= i < |values| :: values[i] == "" || MaskSafe(values[i])
  }

  /** A text without w is masked to a text without w. */
  lemma {:induction false} StaysOut(s: string, values: seq<string>, w: string)
    requires MaskSafe(w) && !Contains(s, w)
    ensures !Contains(MaskAll(s, values), w)
    decreases |values|
  {
    if values != [] {
      var v := values[0];
      if v != "" && Contains(ReplaceAll(s, v, MASK), w) {
        MaskBringsNone(s, v, w);
      }
      StaysOut(MaskOne(s, v), values[1..], w);
    }
  }

  /** Mask completeness: whatever the order, no non-empty secret value is left in the result. */
  lemma {:induction false} MaskComplete(s: string, values: seq<string>, w: string)
    requires AllSafe(values) && w in values && w != ""
    ensures !Contains(MaskAll(s, values), w)
    decreases |values|
  {
    var v := values[0];
    if v == w {
      if Contains(ReplaceAll(s, w, MASK), w) {
        MaskBringsNone(s, w, w);
      }
      StaysOut(MaskOne(s, w), values[1..], w);
    } else {
      MaskComplete(MaskOne(s, v), values[1..], w);
    }
  }

  function Join(parts: seq<string>, sep: string): string {
    if parts == [] then "" else if |parts| == 1 then parts[0] else parts[0] + (sep + Join(parts[1..], sep))
  }

  predicate FirstAtEnd(part: string, sep: string) {
    forall k | 0 <= k < |part| :: !HasPrefix((part + sep)[k..], sep)
  }

  /** strings.Split: each part but the last ends where the separator begins for the first time. */
  predicate Splits(parts: seq<string>, s: string, sep: string) {
    && parts != [] && s == Join(parts, sep)
    && (forall i | 0 <= i < |parts| - 1 :: FirstAtEnd(parts[i], sep)) && !Contains(parts[|parts| - 1], sep)
  }

  lemma JoinCons(part: string, parts: seq<string>, sep: string)
    requires parts != []
    ensures Join([part] + parts, sep) == part + (sep + Join(parts, sep))
  {
    assert ([part] + parts)[1..] == parts;
  }

  lemma JoinHead(c: char, parts: seq<string>, sep: string)
    requires parts != []
    ensures Join([[c] + parts[0]] + parts[1..], sep) == [c] + Join(parts, sep)
  {
    if |parts| > 1 {
      JoinCons([c] + parts[0], parts[1..], sep);
      assert ([c] + parts[0]) + (sep + Join(parts[1..], sep)) == [c] + (parts[0] + (sep + Join(parts[1..], sep)));
    }
  }

  lemma PutFirst(rest: seq<string>, s: string, v: string)
    requires v != "" && Splits(rest, s, v)
    ensures Splits([""] + rest, v + s, v)
  {
    JoinCons("", rest, v);
    assert "" + (v + s) == v + s;
    var parts := [""] + rest;
    assert forall i | 1 <= i < |parts| :: parts[i] == rest[i - 1];
  }

  lemma GrowFirst(c: char, rest: seq<string>, s: string, v: string)
    requires v != "" && Splits(rest, s, v) && !HasPrefix([c] + s, v)
    ensures Splits([[c] + rest[0]] + rest[1..], [c] + s, v)
  {
    JoinHead(c, rest, v);
    var part := [c] + rest[0];
    assert ([c] + s)[1..] == s;
    if |rest| == 1 {
      assert part == [c] + s;
    } else {
      forall k | 0 <= k < |part| ensures !HasPrefix((part + v)[k..], v) {
        if k == 0 {
          assert [c] + s == (part + v) + Join(rest[1..], v);
        } else {
          assert (part + v)[k..] == (rest[0] + v)[k - 1..];
        }
      }
    }
  }

  lemma MasksHere(rest: seq<string>, t: string, v: string)
    requires v != "" && Splits(rest, t, v) && ReplaceAll(t, v, MASK) == Join(rest, "***")
    ensures Splits([""] + rest, v + t, v) && ReplaceAll(v + t, v, MASK) == Join([""] + rest, "***")
  {
    PutFirst(rest, t, v);
    JoinCons("", rest, "***");
    assert (v + t)[|v|..] == t;
  }

  lemma MasksLater(c: char, rest: seq<string>, t: string, v: string)
    requires v != "" && Splits(rest, t, v) && ReplaceAll(t, v, MASK) == Join(rest, "***")
    requires !HasPrefix([c] + t, v)
    ensures Splits([[c] + rest[0]] + rest[1..], [c] + t, v)
    ensures ReplaceAll([c] + t, v, MASK) == Join([[c] + rest[0]] + rest[1..], "***")
  {
    GrowFirst(c, rest, t, v);
    JoinHead(c, rest, "***");
    assert ([c] + t)[1..] == t;
  }

  /** Masking replaces every occurrence, from the left, by the mask, and leaves what lies between. */
  lemma {:induction false} MaskReplaces(s: string, v: string) returns (parts: seq<string>)
    requires v != ""
    ensures Splits(parts, s, v) && MaskOne(s, v) == Join(parts, "***")
    decreases |s|
  {
    if HasPrefix(s, v) {
      var t := s[|v|..];
      var rest := MaskReplaces(t, v);
      MasksHere(rest, t, v);
      parts := [""] + rest;
      assert s == v + t;
    } else if s == "" {
      parts := [""];
    } else {
      var t := s[1..];
      var rest := MaskReplaces(t, v);
      assert s == [s[0]] + t;
      MasksLater(s[0], rest, t, v);
      parts := [[s[0]] + rest[0]] + rest[1..];
    }
  }

  lemma {:induction false} NothingToMask(s: string, v: string)
    requires v != "" && !Contains(s, v)
    ensures ReplaceAll(s, v, MASK) == s
  {
    if s != "" {
      NothingToMask(s[1..], v);
    }
  }

  lemma {:induction false} NothingToMaskAll(s: string, values: seq<string>)
    requires forall w | w in values && w != "" :: !Contains(s, w)
    ensures MaskAll(s, values) == s
  {
    if values != [] {
      assert values[0] in values;
      if values[0] != "" {
        NothingToMask(s, values[0]);
      }
      NothingToMaskAll(s, values[1..]);
    }
  }

  /** Masking once more, in any order, changes nothing. */
  lemma MaskIdempotent(s: string, values: seq<string>, again: seq<string>)
    requires AllSafe(values) && multiset(again) == multiset(values)
    ensures MaskAll(MaskAll(s, values), again) == MaskAll(s, values)
  {
    forall w | w in again && w != "" ensures !Contains(MaskAll(s, values), w) {
      assert w in multiset(again);
      MaskComplete(s, values, w);
    }
    NothingToMaskAll(MaskAll(s, values), again);
  }

  // ---------------------------------------------------------------- the side condition is exact

  lemma {:induction false} ContainsLength(s: string, x: string)
    requires Contains(s, x)
    ensures |x| <= |s|
  {
    if !HasPrefix(s, x) {
      ContainsLength(s[1..], x);
    }
  }

  /** No occurrence of v in p + t starts within p. */
  predicate NoneStartsIn(p: string, t: string, v: string) {
    forall i | 0 <= i < |p| :: !HasPrefix(p[i..] + t, v)
  }

  lemma {:induction false} ReplaceBehind(p: string, t: string, v: string)
    requires v != "" && NoneStartsIn(p, t, v)
    ensures ReplaceAll(p + t, v, MASK) == p + ReplaceAll(t, v, MASK)
  {
    if p == "" {
      assert p + t == t && p + ReplaceAll(t, v, MASK) == ReplaceAll(t, v, MASK);
    } else {
      assert p[0..] == p;
      assert (p + t)[1..] == p[1..] + t;
      forall i | 0 <= i < |p[1..]| ensures !HasPrefix(p[1..][i..] + t, v) {
        assert p[1..][i..] == p[i + 1..];
      }
      ReplaceBehind(p[1..], t, v);
      assert p + ReplaceAll(t, v, MASK) == [p[0]] + (p[1..] + ReplaceAll(t, v, MASK));
    }
  }

  /** p + v + q is masked to p + MASK + q, which holds v again if v does not notice the mask. */
  lemma Leak(p: string, v: string, q: string)
    requires v != "" && |q| < |v| && NoneStartsIn(p, v + q, v)
    requires Contains(p + (MASK + q), v)
    ensures Contains(ReplaceAll(p + (v + q), v, MASK), v)
  {
    ReplaceBehind(p, v + q, v);
    assert (v + q)[|v|..] == q;
    if Contains(q, v) {
      ContainsLength(q, v);
    }
    NothingToMask(q, v);
  }

  lemma {:induction false} FirstMask(v: string) returns (k: nat)
    requires Contains(v, MASK)
    ensures k + 3 <= |v| && HasPrefix(v[k..], MASK) && forall i | 0 <= i < k :: !HasPrefix(v[i..], MASK)
  {
    if HasPrefix(v, MASK) {
      k := 0;
      assert v[0..] == v;
    } else {
      var j := FirstMask(v[1..]);
      k := j + 1;
      assert v[k..] == v[1..][j..];
      assert v[0..] == v;
      assert forall i | 1 <= i < k :: v[i..] == v[1..][i - 1..];
    }
  }

  lemma PrefixEnds(x: string, v: string)
    requires 0 < |v| <= |x|
    ensures HasPrefix(x, v) ==> x[0] == v[0] && x[|v| - 1] == v[|v| - 1]
  {
  }

  lemma LeakAtEnd(v: string) returns (s: string)
    requires v != "" && v[0] != '*' && v[|v| - 1] == '*'
    ensures Contains(ReplaceAll(s, v, MASK), v)
  {
    var w := v[..|v| - 1];
    s := w + (v + "");
    assert v + "" == v;
    forall i | 0 <= i < |w| ensures !HasPrefix(w[i..] + v, v) {
      var x := w[i..] + v;
      assert x[0] == v[i] == x[|v| - 1];
      PrefixEnds(x, v);
    }
    var masked := w + (MASK + "");
    assert masked[..|v|] == v;
    Leak(w, v, "");
  }

  lemma MaskMoves(v: string, k: nat, i: nat, q: string)
    requires k + 3 <= |v| && HasPrefix(v[k..], MASK) && i < k
    requires HasPrefix(v[..k][i..] + (v + q), v)
    ensures HasPrefix(v[i..], MASK)
  {
    var t := v[..k][i..] + (v + q);
    var u := v[i..];
    forall j | 0 <= j < 3 ensures u[j] == '*' {
      assert v[k + j] == v[k..][j] == '*';
      assert v[k + j] == t[k + j] == v[i + j];
    }
    assert v[i..][..3] == MASK;
  }

  lemma LeakInside(v: string) returns (s: string)
    requires v != "" && Contains(v, MASK)
    ensures Contains(ReplaceAll(s, v, MASK), v)
  {
    var k := FirstMask(v);
    var p, q := v[..k], v[k + 3..];
    s := p + (v + q);
    forall i | 0 <= i < |p| ensures !HasPrefix(p[i..] + (v + q), v) {
      if HasPrefix(p[i..] + (v + q), v) {
        MaskMoves(v, k, i, q);
      }
    }
    assert v[k..] == MASK + q;
    assert v == p + v[k..];
    Leak(p, v, q);
  }

  /** For each value that is not safe, a text from which masking does not remove it. */
  lemma UnsafeLeaks(v: string) returns (s: string)
    requires v != "" && !MaskSafe(v)
    ensures Contains(ReplaceAll(s, v, MASK), v)
  {
    if v[0] == '*' {
      s := "" + (v + v[1..]);
      assert "" + (MASK + v[1..]) == "**" + v;
      assert ("**" + v)[2..] == v;
      ContainsInTail("**" + v, 2, v);
      Leak("", v, v[1..]);
    } else if v[|v| - 1] == '*' {
      s := LeakAtEnd(v);
    } else {
      s := LeakInside(v);
    }
  }

  predicate Removed(s: string, v: string)
    requires v != ""
  {
    !Contains(ReplaceAll(s, v, MASK), v)
  }

  /** Masking a single value always removes it if and only if the value is safe. */
  lemma MaskExactly(v: string)
    requires v != ""
    ensures MaskSafe(v) <==> forall s :: Removed(s, v)
  {
    if MaskSafe(v) {
      forall s ensures Removed(s, v) {
        if Contains(ReplaceAll(s, v, MASK), v) {
          MaskBringsNone(s, v, v);
        }
      }
    } else {
      var s := UnsafeLeaks(v);
      assert !Removed(s, v);
    }
  }

  // ---------------------------------------------------------------- the manager

  /** The values in some iteration order of the map. */
  predicate Enumerates(keys: seq<string>, m: map<string, string>) {
    && (forall i | 0 <= i < |keys| :: keys[i] in m)
    && (forall k | k in m :: k in keys)
    && forall i, j | 0 <= i < j < |keys| :: keys[i] != keys[j]
  }

  function ValuesOf(m: map<string, string>, keys: seq<string>): seq<string>
    requires forall i | 0 <= i < |keys| :: keys[i] in m
  {
    seq(|keys|, i requires 0 <= i < |keys| => m[keys[i]])
  }

  lemma {:induction false} MaskAllAppend(s: string, values: seq<string>, v: string)
    ensures MaskAll(s, values + [v]) == MaskOne(MaskAll(s, values), v)
    decreases |values|
  {
    if values != [] {
      assert (values + [v])[1..] == values[1..] + [v];
      MaskAllAppend(MaskOne(s, values[0]), values[1..], v);
    }
  }

  predicate SafeSecrets(m: map<string, string>) {
    forall k | k in m :: m[k] == "" || MaskSafe(m[k])
  }

  /** The input with the secrets masked, in some iteration order. */
  ghost predicate IsMasked(result: string, input: string, m: map<string, string>) {
    exists keys :: Enumerates(keys, m) && result == MaskAll(input, ValuesOf(m, keys))
  }

  /** What holds of every iteration order. */
  lemma EnumerationMasks(s: string, m: map<string, string>, keys: seq<string>)
    requires Enumerates(keys, m)
    ensures SafeSecrets(m) ==> forall k | k in m && m[k] != "" :: !Contains(MaskAll(s, ValuesOf(m, keys)), m[k])
    ensures (forall k | k in m && m[k] != "" :: !Contains(s, m[k])) ==> MaskAll(s, ValuesOf(m, keys)) == s
  {
    var values := ValuesOf(m, keys);
    if SafeSecrets(m) {
      forall k | k in m && m[k] != "" ensures !Contains(MaskAll(s, values), m[k]) {
        var i :| 0 <= i < |keys| && keys[i] == k;
        assert values[i] == m[k];
        MaskComplete(s, values, m[k]);
      }
    }
    if forall k | k in m && m[k] != "" :: !Contains(s, m[k]) {
      NothingToMaskAll(s, values);
    }
  }

  class SecretManager {
    var secrets: map<string, string>

    constructor ()
      ensures secrets == map[]
    {
      secrets := map[];
    }

    /** On a failure the declarations before the failing one stay loaded. */
    method Load(ds: seq<Declaration>, w: World) returns (error: Option<LoadError>)
      modifies this
      ensures Loaded(secrets, error) == LoadInto(ds, w, old(secrets))
    {
      var i := 0;
      while i < |ds|
        invariant i <= |ds|
        invariant LoadInto(ds[i..], w, secrets) == LoadInto(ds, w, old(secrets))
      {
        match ResolveSecret(ds[i], w) {
          case NoValue(e) => return Some(e);
          case Value(v) => secrets := secrets[ds[i].name := v];
        }
        i := i + 1;
      }
      return None;
    }

    method Get(name: string) returns (value: Option<string>)
      ensures value == if name in secrets then Some(secrets[name]) else None
    {
      return if name in secrets then Some(secrets[name]) else None;
    }

    /** A copy: loading into it leaves this manager alone. */
    method Clone() returns (c: SecretManager)
      ensures fresh(c) && c.secrets == secrets
    {
      c := new SecretManager();
      c.secrets := secrets;
    }

    method Clear()
      modifies this
      ensures secrets == map[]
    {
      secrets := map[];
    }

    /** The iteration order of the map is arbitrary. */
    method Mask(input: string) returns (result: string)
      ensures IsMasked(result, input, secrets)
      ensures SafeSecrets(secrets) ==> forall k | k in secrets && secrets[k] != "" :: !Contains(result, secrets[k])
      ensures (forall k | k in secrets && secrets[k] != "" :: !Contains(input, secrets[k])) ==> result == input
    {
      result := input;
      var rest := secrets.Keys;
      ghost var keys: seq<string> := [];
      while rest != {}
        invariant rest <= secrets.Keys
        invariant forall i | 0 <= i < |keys| :: keys[i] in secrets && keys[i] !in rest
        invariant forall k | k in secrets && k !in rest :: k in keys
        invariant forall i, j | 0 <= i < j < |keys| :: keys[i] != keys[j]
        invariant result == MaskAll(input, ValuesOf(secrets, keys))
        decreases rest
      {
        var k :| k in rest;
        MaskAllAppend(input, ValuesOf(secrets, keys), secrets[k]);
        assert ValuesOf(secrets, keys + [k]) == ValuesOf(secrets, keys) + [secrets[k]];
        if secrets[k] != "" {
          result := ReplaceAll(result, secrets[k], MASK);
        }
        keys, rest := keys + [k], rest - {k};
      }
      assert Enumerates(keys, secrets);
      EnumerationMasks(input, secrets, keys);
    }
  }
}
