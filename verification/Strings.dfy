/** The part of Go's strings package that the repository relies on, over sequences of characters. */
module Strings {

  predicate HasPrefix(s: string, p: string) {
    p <= s
  }

  predicate HasSuffix(s: string, x: string) {
    |x| <= |s| && s[|s| - |x|..] == x
  }

  function TrimSuffix(s: string, x: string): string {
    if HasSuffix(s, x) then s[..|s| - |x|] else s
  }

  /** strings.Index for a single character: the first position, or |s|. */
  function IndexOf(s: string, c: char): (i: nat)
    ensures i <= |s|
  {
    if s == "" || s[0] == c then 0 else 1 + IndexOf(s[1..], c)
  }

  lemma {:induction false} IndexOfSpec(s: string, c: char)
    ensures forall j | 0 <= j < IndexOf(s, c) :: s[j] != c
    ensures IndexOf(s, c) < |s| ==> s[IndexOf(s, c)] == c
  {
    if s != "" && s[0] != c {
      IndexOfSpec(s[1..], c);
    }
  }

  lemma IndexOfUnique(s: string, c: char, i: nat)
    requires i < |s| && s[i] == c && forall j | 0 <= j < i :: s[j] != c
    ensures IndexOf(s, c) == i
  {
    IndexOfSpec(s, c);
  }

  /** strings.Contains */
  predicate Contains(s: string, x: string) {
    HasPrefix(s, x) || (s != "" && Contains(s[1..], x))
  }

  lemma {:induction false} ContainsAt(s: string, x: string) returns (k: nat)
    requires Contains(s, x)
    ensures k <= |s| && HasPrefix(s[k..], x)
  {
    if HasPrefix(s, x) {
      k := 0;
      assert s[0..] == s;
    } else {
      var j := ContainsAt(s[1..], x);
      k := j + 1;
      assert s[k..] == s[1..][j..];
    }
  }

  lemma {:induction false} ContainsInTail(s: string, k: nat, x: string)
    requires k <= |s| && Contains(s[k..], x)
    ensures Contains(s, x)
  {
    if k == 0 {
      assert s[0..] == s;
    } else {
      assert s[k..] == s[1..][k - 1..];
      ContainsInTail(s[1..], k - 1, x);
    }
  }

  /** Go's < on strings. */
  predicate Less(a: string, b: string) {
    b != "" && (a == "" || a[0] < b[0] || (a[0] == b[0] && Less(a[1..], b[1..])))
  }

  lemma {:induction false} LessTrichotomy(a: string, b: string)
    ensures a == b || Less(a, b) || Less(b, a)
    ensures Less(a, b) ==> !Less(b, a) && a != b
  {
    if a != "" && b != "" && a[0] == b[0] {
      LessTrichotomy(a[1..], b[1..]);
      assert a == [a[0]] + a[1..] && b == [b[0]] + b[1..];
    }
  }

  lemma {:induction false} LessTransitive(a: string, b: string, c: string)
    requires Less(a, b) && Less(b, c)
    ensures Less(a, c)
  {
    if a != "" && a[0] == b[0] && b[0] == c[0] {
      LessTransitive(a[1..], b[1..], c[1..]);
    }
  }

  /** Equal prefixes do not decide a comparison. */
  lemma {:induction false} LessAfterPrefix(p: string, a: string, b: string)
    ensures Less(p + a, p + b) <==> Less(a, b)
  {
    if p == "" {
      assert p + a == a && p + b == b;
    } else {
      assert (p + a)[1..] == p[1..] + a && (p + b)[1..] == p[1..] + b;
      LessAfterPrefix(p[1..], a, b);
    }
  }

  /** Different strings of one length decide a comparison whatever follows them. */
  lemma {:induction false} LessByPrefix(p: string, q: string, a: string, b: string)
    requires |p| == |q| && p != q
    ensures Less(p + a, q + b) <==> Less(p, q)
  {
    assert (p + a)[1..] == p[1..] + a && (q + b)[1..] == q[1..] + b;
    assert p == [p[0]] + p[1..] && q == [q[0]] + q[1..];
    if p[0] == q[0] {
      LessByPrefix(p[1..], q[1..], a, b);
    }
  }

  // ---------------------------------------------------------------- trimming

  /** unicode.IsSpace */
  predicate IsSpace(c: char) {
    var n := c as int;
    || 9 <= n <= 13 || n == 32 || n == 0x85 || n == 0xA0 || n == 0x1680 || 0x2000 <= n <= 0x200A
    || n == 0x2028 || n == 0x2029 || n == 0x202F || n == 0x205F || n == 0x3000
  }

  function TrimLeft(s: string): string {
    if s != "" && IsSpace(s[0]) then TrimLeft(s[1..]) else s
  }

  function TrimRight(s: string): string {
    if s != "" && IsSpace(s[|s| - 1]) then TrimRight(s[..|s| - 1]) else s
  }

  function TrimSpace(s: string): string {
    TrimRight(TrimLeft(s))
  }

  predicate Trimmed(s: string) {
    s == "" || (!IsSpace(s[0]) && !IsSpace(s[|s| - 1]))
  }

  lemma {:induction false} TrimLeftSpec(s: string)
    ensures var r := TrimLeft(s); (r == "" || !IsSpace(r[0])) && |r| <= |s| && r == s[|s| - |r|..]
  {
    if s != "" && IsSpace(s[0]) {
      TrimLeftSpec(s[1..]);
    }
  }

  lemma {:induction false} TrimRightSpec(s: string)
    ensures var r := TrimRight(s); (r == "" || !IsSpace(r[|r| - 1])) && r <= s
  {
    if s != "" && IsSpace(s[|s| - 1]) {
      TrimRightSpec(s[..|s| - 1]);
    }
  }

  /** TrimSpace returns a trimmed string, and is the identity exactly on trimmed strings. */
  lemma TrimSpaceSpec(s: string)
    ensures Trimmed(TrimSpace(s))
    ensures TrimSpace(s) == s <==> Trimmed(s)
    ensures forall c | c in TrimSpace(s) :: c in s
  {
    var l := TrimLeft(s);
    var r := TrimRight(l);
    TrimLeftSpec(s);
    TrimRightSpec(l);
    if r != "" {
      assert r[0] == l[0];
    }
  }

  lemma TrimSpaceTwice(s: string)
    ensures TrimSpace(TrimSpace(s)) == TrimSpace(s)
  {
    TrimSpaceSpec(s);
    TrimSpaceSpec(TrimSpace(s));
  }

  predicate AllSpace(s: string) {
    forall i | 0 <= i < |s| :: IsSpace(s[i])
  }

  lemma {:induction false} TrimLeftBehind(l: string, x: string)
    requires AllSpace(l)
    ensures TrimLeft(l + x) == TrimLeft(x)
  {
    if l == "" {
      assert l + x == x;
    } else {
      assert (l + x)[0] == l[0] && (l + x)[1..] == l[1..] + x;
      TrimLeftBehind(l[1..], x);
    }
  }

  lemma {:induction false} TrimRightBefore(x: string, r: string)
    requires AllSpace(r)
    ensures TrimRight(x + r) == TrimRight(x)
    decreases |r|
  {
    if r == "" {
      assert x + r == x;
    } else {
      var n := |r| - 1;
      assert (x + r)[|x + r| - 1] == r[n] && (x + r)[..|x + r| - 1] == x + r[..n];
      TrimRightBefore(x, r[..n]);
    }
  }

  /** Space on either side goes, and nothing else. */
  lemma TrimSpaceOf(l: string, m: string, r: string)
    requires AllSpace(l) && AllSpace(r) && Trimmed(m)
    ensures TrimSpace(l + (m + r)) == m
  {
    TrimLeftBehind(l, m + r);
    if m == "" {
      assert m + r == r + "";
      TrimLeftBehind(r, "");
    } else {
      assert (m + r)[0] == m[0];
      TrimRightBefore(m, r);
    }
  }

  lemma {:induction false} LeftSpace(s: string) returns (l: string)
    ensures AllSpace(l) && s == l + TrimLeft(s)
  {
    if s != "" && IsSpace(s[0]) {
      var rest := LeftSpace(s[1..]);
      l := [s[0]] + rest;
      assert s == [s[0]] + s[1..];
    } else {
      l := "";
    }
  }

  lemma {:induction false} RightSpace(s: string) returns (r: string)
    ensures AllSpace(r) && s == TrimRight(s) + r
    decreases |s|
  {
    if s != "" && IsSpace(s[|s| - 1]) {
      var rest := RightSpace(s[..|s| - 1]);
      r := rest + [s[|s| - 1]];
      assert s == s[..|s| - 1] + [s[|s| - 1]];
    } else {
      r := "";
    }
  }

  lemma SpaceAround(s: string) returns (l: string, r: string)
    ensures AllSpace(l) && AllSpace(r) && s == l + (TrimSpace(s) + r)
  {
    l := LeftSpace(s);
    r := RightSpace(TrimLeft(s));
  }

  // ---------------------------------------------------------------- names of flows and schedules

  predicate NameChar(c: char) {
    'a' <= c <= 'z' || 'A' <= c <= 'Z' || '0' <= c <= '9' || c == '_' || c == '-'
  }

  /** The pattern ^[a-zA-Z0-9_-]+$ */
  predicate PlainName(s: string) {
    s != "" && forall c | c in s :: NameChar(c)
  }

  /** ValidateFlowName and ValidateScheduleName: both look at the trimmed name. */
  predicate ValidName(s: string) {
    PlainName(TrimSpace(s))
  }
}
