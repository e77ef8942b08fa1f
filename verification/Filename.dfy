/** Job file names: "<nanoseconds>-<id>.json" (internal/queue/queue.go), their ids and their order. */
module Filename {
  import opened Strings
  import opened Job

  // ---------------------------------------------------------------- decimals

  function Digit(n: nat): char
    requires n < 10
  {
    '0' + n as char
  }

  /** %d for a non-negative number. */
  function Dec(n: nat): (s: string)
    ensures s != ""
    ensures forall i | 0 <= i < |s| :: '0' <= s[i] <= '9'
  {
    if n < 10 then [Digit(n)] else Dec(n / 10) + [Digit(n % 10)]
  }

  /** %d */
  function SignedDec(n: int): string {
    if n < 0 then "-" + Dec(-n) else Dec(n)
  }

  /** What a text of decimal digits denotes. */
  function Value(s: string): int {
    if s == "" then 0 else 10 * Value(s[..|s| - 1]) + (s[|s| - 1] as int - '0' as int)
  }

  /** The digits written are those of the number. */
  lemma {:induction false} DecMeans(n: nat)
    ensures Value(Dec(n)) == n
  {
    var d := Dec(n);
    if n >= 10 {
      DecMeans(n / 10);
      assert d[..|d| - 1] == Dec(n / 10) && d[|d| - 1] == Digit(n % 10);
    } else {
      assert d == [Digit(n)] && d[..|d| - 1] == "";
    }
  }

  const EXT := ".json"

  function JobFilename(createdAt: int, id: string): string {
    SignedDec(createdAt) + "-" + id + EXT
  }

  /** A job file is called by its creation time and its id. */
  lemma NameMeans(createdAt: int, id: string) returns (digits: string)
    ensures Value(digits) == if createdAt < 0 then -createdAt else createdAt
    ensures JobFilename(createdAt, id) == (if createdAt < 0 then "-" else "") + digits + "-" + id + ".json"
  {
    digits := Dec(if createdAt < 0 then -createdAt else createdAt);
    DecMeans(if createdAt < 0 then -createdAt else createdAt);
    assert "" + digits == digits;
  }

  function Pow10(d: nat): (p: nat)
    ensures p > 0
  {
    if d == 0 then 1 else 10 * Pow10(d - 1)
  }

  /** Dec(n) has as many digits as n needs. */
  lemma {:induction false} DecLength(n: nat)
    ensures n < Pow10(|Dec(n)|)
    ensures n > 0 ==> Pow10(|Dec(n)| - 1) <= n
  {
    if n >= 10 {
      DecLength(n / 10);
    }
  }

  lemma {:induction false} PowMonotone(a: nat, b: nat)
    requires a <= b
    ensures Pow10(a) <= Pow10(b)
  {
    if a < b {
      PowMonotone(a, b - 1);
    }
  }

  lemma {:induction false} LengthMonotone(n: nat, m: nat)
    requires n <= m
    ensures |Dec(n)| <= |Dec(m)|
  {
    DecLength(n);
    DecLength(m);
    if |Dec(n)| > |Dec(m)| {
      PowMonotone(|Dec(m)|, |Dec(n)| - 1);
    }
  }

  /** Among numbers with equally many digits, numeric order is string order. */
  lemma {:induction false} DecOrder(n: nat, m: nat)
    requires |Dec(n)| == |Dec(m)|
    ensures n < m <==> Less(Dec(n), Dec(m))
    ensures n == m <==> Dec(n) == Dec(m)
  {
    if n < 10 {
      assert m < 10;
    } else {
      var a, b := Dec(n / 10), Dec(m / 10);
      DecOrder(n / 10, m / 10);
      assert Dec(n) == a + [Digit(n % 10)] && Dec(m) == b + [Digit(m % 10)];
      if n / 10 == m / 10 {
        LessAfterPrefix(a, [Digit(n % 10)], [Digit(m % 10)]);
      } else {
        LessByPrefix(a, b, [Digit(n % 10)], [Digit(m % 10)]);
        assert Dec(n)[..|a|] == a && Dec(m)[..|b|] == b;
      }
    }
  }

  /** The number left when the last d digits are dropped: m divided by ten, d times. */
  function TopDigits(m: nat, d: nat): nat {
    if d == 0 then m else TopDigits(m / 10, d - 1)
  }

  lemma {:induction false} DecPrefix(m: nat, d: nat)
    requires d < |Dec(m)|
    ensures Dec(m)[..|Dec(m)| - d] == Dec(TopDigits(m, d))
  {
    if d == 0 {
      assert Dec(m)[..|Dec(m)|] == Dec(m);
    } else {
      assert m >= 10;
      DecPrefix(m / 10, d - 1);
      assert Dec(m)[..|Dec(m)| - d] == Dec(m / 10)[..|Dec(m / 10)| - (d - 1)];
    }
  }

  // ---------------------------------------------------------------- names

  /** How GetJob and DeleteJob read the id off a directory entry; None for an entry they skip. */
  function FileJobId(name: string): Option<string> {
    if !HasSuffix(name, EXT) then None
    else
      var dash := IndexOf(name, '-');
      if dash == |name| then None else Some(TrimSuffix(name[dash + 1..], EXT))
  }

  lemma IdBehind(t: string, id: string)
    requires '-' !in t
    ensures FileJobId(t + ("-" + (id + EXT))) == Some(id)
  {
    var name, rest := t + ("-" + (id + EXT)), id + EXT;
    assert name == (t + ("-" + id)) + EXT && name[|name| - |EXT|..] == EXT;
    assert name[|t|] == '-' && forall k | 0 <= k < |t| :: name[k] == t[k] && t[k] in t;
    IndexOfUnique(name, '-', |t|);
    assert name[|t| + 1..] == rest && rest[|rest| - |EXT|..] == EXT && rest[..|rest| - |EXT|] == id;
  }

  /** The id is read back exactly when the job was created at or after 1970. */
  lemma IdRoundTrip(createdAt: int, id: string)
    ensures FileJobId(JobFilename(createdAt, id)) == Some(id) <==> createdAt >= 0
  {
    var name, ts := JobFilename(createdAt, id), SignedDec(createdAt);
    if createdAt >= 0 {
      assert name == ts + ("-" + (id + EXT));
      IdBehind(ts, id);
    } else {
      var rest := Dec(-createdAt) + "-" + id;
      assert name == "" + ("-" + (rest + EXT));
      IdBehind("", rest);
      assert |rest| > |id|;
    }
  }

  lemma FirstDash(front: string, dash: nat)
    requires dash == IndexOf(front + EXT, '-') < |front + EXT|
    ensures dash < |front| && front[dash] == '-' && '-' !in front[..dash]
  {
    var name := front + EXT;
    IndexOfSpec(name, '-');
    assert forall k | |front| <= k < |name| :: name[k] == EXT[k - |front|];
    assert forall k | 0 <= k < |EXT| :: EXT[k] != '-';
    assert forall k | 0 <= k < dash :: front[..dash][k] == name[k];
  }

  lemma WithoutExtension(x: string)
    ensures TrimSuffix(x + EXT, EXT) == x
  {
    assert (x + EXT)[|x|..] == EXT && (x + EXT)[..|x|] == x;
  }

  lemma IdBetween(front: string, dash: nat)
    requires dash < |front| && front[dash] == '-'
    ensures var id := front[dash + 1..];
            && TrimSuffix((front + EXT)[dash + 1..], EXT) == id
            && front + EXT == front[..dash] + ("-" + (id + EXT))
  {
    var t, id := front[..dash], front[dash + 1..];
    assert (front + EXT)[dash + 1..] == id + EXT;
    WithoutExtension(id);
  }

  /** The id of an entry is what stands between its first dash and its extension. */
  lemma IdInFront(front: string) returns (t: string)
    requires FileJobId(front + EXT).Some?
    ensures '-' !in t && front + EXT == t + ("-" + (FileJobId(front + EXT).value + EXT))
  {
    var dash := IndexOf(front + EXT, '-');
    FirstDash(front, dash);
    IdBetween(front, dash);
    t := front[..dash];
  }

  /** Left-over temporary files are never taken for a job. */
  lemma TmpIsSkipped(name: string)
    ensures FileJobId(name + ".tmp") == None
  {
    var n := name + ".tmp";
    assert n[|n| - 1] == 'p';
    assert EXT[|EXT| - 1] == 'n';
  }

  lemma InjectiveFrom1970(t1: nat, id1: string, t2: nat, id2: string)
    requires JobFilename(t1, id1) == JobFilename(t2, id2)
    ensures t1 == t2 && id1 == id2
  {
    IdRoundTrip(t1, id1);
    IdRoundTrip(t2, id2);
    var name := JobFilename(t1, id1);
    assert forall j | 0 <= j < |Dec(t1)| :: name[j] == Dec(t1)[j] != '-';
    assert forall j | 0 <= j < |Dec(t2)| :: name[j] == Dec(t2)[j] != '-';
    IndexOfUnique(name, '-', |Dec(t1)|);
    IndexOfUnique(name, '-', |Dec(t2)|);
    assert Dec(t1) == name[..|Dec(t1)|] == Dec(t2);
    DecOrder(t1, t2);
  }

  lemma NegativeName(t: int, id: string)
    requires t < 0
    ensures JobFilename(t, id) == "-" + JobFilename(-t, id)
  {
  }

  lemma NameBegins(t: int, id: string)
    ensures JobFilename(t, id) != "" && (JobFilename(t, id)[0] == '-' <==> t < 0)
  {
    if t >= 0 {
      assert Dec(t) != "" && JobFilename(t, id)[0] == Dec(t)[0];
    }
  }

  /** Two jobs never share a file name. */
  lemma FilenameInjective(t1: int, id1: string, t2: int, id2: string)
    requires JobFilename(t1, id1) == JobFilename(t2, id2)
    ensures t1 == t2 && id1 == id2
  {
    NameBegins(t1, id1);
    NameBegins(t2, id2);
    if t1 >= 0 {
      InjectiveFrom1970(t1, id1, t2, id2);
    } else {
      NegativeName(t1, id1);
      NegativeName(t2, id2);
      assert JobFilename(t1, id1)[1..] == JobFilename(-t1, id1) && JobFilename(t2, id2)[1..] == JobFilename(-t2, id2);
      InjectiveFrom1970(-t1, id1, -t2, id2);
    }
  }

  lemma IdOrder(id1: string, id2: string)
    requires |id1| == |id2|
    ensures Less("-" + id1 + EXT, "-" + id2 + EXT) <==> Less(id1, id2)
  {
    assert "-" + id1 + EXT == "-" + (id1 + EXT) && "-" + id2 + EXT == "-" + (id2 + EXT);
    LessAfterPrefix("-", id1 + EXT, id2 + EXT);
    if id1 == id2 {
      LessTrichotomy(id1 + EXT, id2 + EXT);
      LessTrichotomy(id1, id2);
    } else {
      LessByPrefix(id1, id2, EXT, EXT);
    }
  }

  lemma LineUp(t: nat, id: string)
    ensures JobFilename(t, id) == Dec(t) + ("-" + id + EXT)
  {
  }

  lemma PartOrder(a: string, b: string, x: string, y: string)
    requires |a| == |b|
    ensures Less(a + x, b + y) <==> Less(a, b) || (a == b && Less(x, y))
  {
    if a == b {
      LessTrichotomy(a, a);
      LessAfterPrefix(a, x, y);
    } else {
      LessByPrefix(a, b, x, y);
    }
  }

  /** For timestamps of one length and ids of one length, name order is order by (CreatedAt, id). */
  lemma FilenameOrder(t1: nat, id1: string, t2: nat, id2: string)
    requires |Dec(t1)| == |Dec(t2)| && |id1| == |id2|
    ensures Less(JobFilename(t1, id1), JobFilename(t2, id2)) <==> t1 < t2 || (t1 == t2 && Less(id1, id2))
  {
    DecOrder(t1, t2);
    LineUp(t1, id1);
    LineUp(t2, id2);
    PartOrder(Dec(t1), Dec(t2), "-" + id1 + EXT, "-" + id2 + EXT);
    IdOrder(id1, id2);
  }

  lemma PowersOfTen()
    ensures Pow10(18) == 1_000_000_000_000_000_000
  {
    assert Pow10(3) == 1000;
    assert Pow10(6) == 1000_000 by { assert Pow10(5) == 100_000; }
    assert Pow10(9) == 1000_000_000 by { assert Pow10(8) == 100_000_000; }
    assert Pow10(12) == 1000_000_000_000 by { assert Pow10(11) == 100_000_000_000; }
    assert Pow10(15) == 1000_000_000_000_000 by { assert Pow10(14) == 100_000_000_000_000; }
    assert Pow10(17) == 100_000_000_000_000_000;
  }

  /** The timestamps of 2001-09-09 to 2262-04-11 all have nineteen digits. */
  lemma ClockRange(t: nat)
    requires Pow10(18) <= t < 0x8000_0000_0000_0000
    ensures |Dec(t)| == 19
  {
    DecLength(t);
    assert Pow10(18) == 1_000_000_000_000_000_000 by { PowersOfTen(); }
    assert Pow10(19) == 10 * Pow10(18);
    if |Dec(t)| <= 18 {
      PowMonotone(|Dec(t)|, 18);
    } else if |Dec(t)| >= 20 {
      PowMonotone(19, |Dec(t)| - 1);
    }
  }

  lemma EqualPrefixIsLonger(t1: nat, t2: nat)
    requires t1 < t2 && Dec(t1) <= Dec(t2)
    ensures |Dec(t1)| < |Dec(t2)|
  {
    if |Dec(t1)| == |Dec(t2)| {
      DecOrder(t1, t2);
    }
  }

  lemma SplitName(t: nat, id: string, k: nat)
    requires k <= |Dec(t)|
    ensures JobFilename(t, id) == Dec(t)[..k] + (Dec(t)[k..] + "-" + id + EXT)
    ensures k == |Dec(t)| ==> JobFilename(t, id) == Dec(t) + ("-" + id + EXT)
  {
  }

  /** The dash after the shorter number sorts before any digit of the longer one. */
  lemma DigitsThenDash(a: string, p: string, x: string, y: string)
    requires |a| == |p|
    requires a == p ==> x != "" && y != "" && x[0] < y[0]
    ensures Less(a + x, p + y) <==> Less(a, p) || a == p
  {
    if a == p {
      LessAfterPrefix(p, x, y);
    } else {
      LessByPrefix(a, p, x, y);
    }
  }

  /** Only the equally long beginning of the longer number matters; on a tie the dash comes first. */
  lemma PrefixDecides(t1: nat, id1: string, t2: nat, id2: string)
    requires t1 < t2 && |Dec(t1)| <= |Dec(t2)|
    ensures var p := Dec(t2)[..|Dec(t1)|];
            Less(JobFilename(t1, id1), JobFilename(t2, id2)) <==> Less(Dec(t1), p) || Dec(t1) == p
  {
    var a, p, tail := Dec(t1), Dec(t2)[..|Dec(t1)|], Dec(t2)[|Dec(t1)|..];
    if a == p {
      EqualPrefixIsLonger(t1, t2);
      assert tail[0] == Dec(t2)[|a|];
    }
    SplitName(t1, id1, |a|);
    SplitName(t2, id2, |a|);
    DigitsThenDash(a, p, "-" + id1 + EXT, tail + "-" + id2 + EXT);
  }

  lemma AgainstPrefix(t1: nat, t2: nat, d: nat)
    requires |Dec(t1)| + d == |Dec(t2)|
    ensures var p := Dec(t2)[..|Dec(t1)|];
            Less(Dec(t1), p) || Dec(t1) == p <==> t1 <= TopDigits(t2, d)
  {
    DecPrefix(t2, d);
    DecOrder(t1, TopDigits(t2, d));
  }

  /**
   The exact extent of "the timestamp prefix ensures FIFO": the earlier job's name comes first
   if and only if its timestamp is at most the equally long prefix of the later one's.
   */
  lemma FifoExactly(t1: nat, id1: string, t2: nat, id2: string)
    requires t1 < t2
    ensures |Dec(t1)| <= |Dec(t2)|
    ensures Less(JobFilename(t1, id1), JobFilename(t2, id2)) <==> t1 <= TopDigits(t2, |Dec(t2)| - |Dec(t1)|)
  {
    LengthMonotone(t1, t2);
    var d := |Dec(t2)| - |Dec(t1)|;
    PrefixDecides(t1, id1, t2, id2);
    AgainstPrefix(t1, t2, d);
  }

  lemma DigitCount(n: nat, count: nat)
    requires count > 0 && 0 < n && Pow10(count - 1) <= n < Pow10(count)
    ensures |Dec(n)| == count
  {
    DecLength(n);
    if |Dec(n)| < count {
      PowMonotone(|Dec(n)|, count - 1);
    } else if |Dec(n)| > count {
      PowMonotone(count, |Dec(n)| - 1);
    }
  }

  lemma PowerDigits(d: nat)
    requires d > 0
    ensures |Dec(Pow10(d))| == d + 1 && |Dec(Pow10(d) - 1)| == d
  {
    DigitCount(Pow10(d), d + 1);
    assert Pow10(d) == 10 * Pow10(d - 1);
    DigitCount(Pow10(d) - 1, d);
  }

  /**
   Pairs out of order: where the digit count changes, the later job is dequeued first. For
   d == 18 that is one nanosecond on 9 September 2001.
   */
  lemma FifoFails(d: nat, id1: string, id2: string)
    requires d > 0
    ensures !Less(JobFilename(Pow10(d) - 1, id1), JobFilename(Pow10(d), id2))
  {
    PowerDigits(d);
    FifoExactly(Pow10(d) - 1, id1, Pow10(d), id2);
    assert TopDigits(Pow10(d), 1) == Pow10(d) / 10 == Pow10(d - 1);
    assert Pow10(d) == 10 * Pow10(d - 1);
  }
}
