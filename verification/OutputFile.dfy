/** The key=value file through which a step hands over its outputs (parseOutputFile, internal/engine/state.go). */
module OutputFile {
  import opened Strings

  /** bufio.MaxScanTokenSize: a line that fills the scanner's buffer stops it with an error. */
  const LINE_LIMIT := 65536

  datatype Pair = Pair(key: string, value: string)

  /** What the scanner yields: the lines without their line feeds. */
  function Lines(s: string): seq<string>
    decreases |s|
  {
    if s == "" then []
    else
      var n := IndexOf(s, '\n');
      if n == |s| then [s] else [s[..n]] + Lines(s[n + 1..])
  }

  /** Both what bufio.ScanLines drops (one carriage return) and what the code trims. */
  function Stripped(raw: string): string {
    TrimSpace(TrimSuffix(raw, "\r"))
  }

  function TrimmedPair(k: string, v: string): Pair {
    Pair(TrimSpace(k), TrimSpace(v))
  }

  /** Blank lines, comments and lines without '=' hold no pair. */
  function PairOf(line: string): seq<Pair> {
    var eq := IndexOf(line, '=');
    if line == "" || HasPrefix(line, "#") || eq == |line| then [] else [TrimmedPair(line[..eq], line[eq + 1..])]
  }

  function LinePairs(raw: string): seq<Pair> {
    PairOf(Stripped(raw))
  }

  function FlatMap<A, B>(f: A -> seq<B>, xs: seq<A>): seq<B> {
    if xs == [] then [] else f(xs[0]) + FlatMap(f, xs[1..])
  }

  function Pairs(lines: seq<string>): seq<Pair> {
    FlatMap(LinePairs, lines)
  }

  predicate SomeTooLong(lines: seq<string>) {
    exists i :: 0 <= i < |lines| && |lines[i]| >= LINE_LIMIT
  }

  function LastWins(ps: seq<Pair>): map<string, string> {
    if ps == [] then map[] else map[ps[0].key := ps[0].value] + LastWins(ps[1..])
  }

  datatype Parsed = Variables(m: map<string, string>) | TooLong

  function Parse(s: string): Parsed {
    if SomeTooLong(Lines(s)) then TooLong else Variables(LastWins(Pairs(Lines(s))))
  }

  lemma {:induction false} LastWinsSpec(ps: seq<Pair>, k: string)
    ensures k in LastWins(ps) <==> exists i :: 0 <= i < |ps| && ps[i].key == k
    ensures k in LastWins(ps) ==> exists i :: 0 <= i < |ps| && ps[i] == Pair(k, LastWins(ps)[k]) &&
                                              forall j | i < j < |ps| :: ps[j].key != k
  {
    if ps != [] {
      var rest := ps[1..];
      LastWinsSpec(rest, k);
      assert forall j | 0 < j < |ps| :: ps[j] == rest[j - 1];
      if k in LastWins(rest) {
        var i :| 0 <= i < |rest| && rest[i] == Pair(k, LastWins(rest)[k]) &&
                 forall j | i < j < |rest| :: rest[j].key != k;
        assert ps[i + 1] == Pair(k, LastWins(ps)[k]);
      } else if ps[0].key == k {
        assert ps[0] == Pair(k, LastWins(ps)[k]);
      }
    }
  }

  // ---------------------------------------------------------------- appending

  predicate EndsLine(s: string) {
    s == "" || s[|s| - 1] == '\n'
  }

  predicate NoneOf(s: string, c: char) {
    forall i | 0 <= i < |s| :: s[i] != c
  }

  lemma FirstLine(line: string, rest: string)
    requires NoneOf(line, '\n')
    ensures Lines(line + "\n" + rest) == [line] + Lines(rest)
  {
    var s := line + "\n" + rest;
    assert s[|line|] == '\n' && forall j | 0 <= j < |line| :: s[j] == line[j];
    IndexOfUnique(s, '\n', |line|);
    assert s[..|line|] == line && s[|line| + 1..] == rest;
  }

  /** A last line needs no line feed. */
  lemma LastLine(line: string)
    requires NoneOf(line, '\n')
    ensures Lines(line) == if line == "" then [] else [line]
  {
    IndexOfSpec(line, '\n');
  }

  lemma SplitAtFeed(a: string, b: string) returns (line: string, rest: string)
    requires a != "" && EndsLine(a)
    ensures NoneOf(line, '\n') && EndsLine(rest) && |rest| < |a|
    ensures a == line + "\n" + rest && a + b == line + "\n" + (rest + b)
  {
    var n := IndexOf(a, '\n');
    IndexOfSpec(a, '\n');
    line, rest := a[..n], a[n + 1..];
    assert a == line + "\n" + rest;
  }

  lemma Associative<T>(xs: seq<T>, ys: seq<T>, zs: seq<T>)
    ensures xs + (ys + zs) == (xs + ys) + zs
  {
  }

  lemma {:induction false} LinesConcat(a: string, b: string)
    requires EndsLine(a)
    ensures Lines(a + b) == Lines(a) + Lines(b)
    decreases |a|
  {
    if a == "" {
      assert a + b == b;
    } else {
      var line, rest := SplitAtFeed(a, b);
      FirstLine(line, rest);
      FirstLine(line, rest + b);
      LinesConcat(rest, b);
      Associative([line], Lines(rest), Lines(b));
    }
  }

  lemma {:induction false} FlatMapConcat<A, B>(f: A -> seq<B>, xs: seq<A>, ys: seq<A>)
    ensures FlatMap(f, xs + ys) == FlatMap(f, xs) + FlatMap(f, ys)
  {
    if xs == [] {
      assert xs + ys == ys;
    } else {
      assert (xs + ys)[1..] == xs[1..] + ys;
      FlatMapConcat(f, xs[1..], ys);
    }
  }

  lemma FlatMapOne<A, B>(f: A -> seq<B>, x: A)
    ensures FlatMap(f, [x]) == f(x)
  {
  }

  lemma Merged<K, V>(a: map<K, V>, b: map<K, V>, c: map<K, V>)
    ensures a + (b + c) == (a + b) + c && map[] + a == a
  {
  }

  lemma {:induction false} LastWinsConcat(xs: seq<Pair>, ys: seq<Pair>)
    ensures LastWins(xs + ys) == LastWins(xs) + LastWins(ys)
  {
    if xs == [] {
      assert xs + ys == ys;
      Merged(LastWins(ys), map[], map[]);
    } else {
      assert (xs + ys)[1..] == xs[1..] + ys;
      LastWinsConcat(xs[1..], ys);
      Merged(map[xs[0].key := xs[0].value], LastWins(xs[1..]), LastWins(ys));
    }
  }

  lemma TooLongConcat(xs: seq<string>, ys: seq<string>)
    ensures SomeTooLong(xs + ys) <==> SomeTooLong(xs) || SomeTooLong(ys)
  {
    assert forall i | 0 <= i < |xs| :: (xs + ys)[i] == xs[i];
    assert forall i | 0 <= i < |ys| :: (xs + ys)[|xs| + i] == ys[i];
  }

  /** Appending to a file that ends in a line feed overrides what it said, key by key. */
  lemma ParseAppended(a: string, b: string)
    requires EndsLine(a)
    ensures Parse(a + b).TooLong? <==> Parse(a).TooLong? || Parse(b).TooLong?
    ensures Parse(a + b).Variables? ==> Parse(a + b).m == Parse(a).m + Parse(b).m
  {
    LinesConcat(a, b);
    FlatMapConcat(LinePairs, Lines(a), Lines(b));
    LastWinsConcat(Pairs(Lines(a)), Pairs(Lines(b)));
    TooLongConcat(Lines(a), Lines(b));
  }

  // ---------------------------------------------------------------- round trip

  function Line(p: Pair): string {
    p.key + "=" + p.value
  }

  function Render(ps: seq<Pair>): string {
    if ps == [] then "" else Line(ps[0]) + "\n" + Render(ps[1..])
  }

  /** What a parsed pair always looks like. */
  predicate Presentable(p: Pair) {
    && NoneOf(p.key, '\n') && NoneOf(p.value, '\n') && NoneOf(p.key, '=')
    && Trimmed(p.key) && Trimmed(p.value) && !HasPrefix(p.key, "#")
  }

  lemma SuffixChar(s: string, c: char)
    ensures HasSuffix(s, [c]) ==> s != "" && s[|s| - 1] == c
  {
    if s != "" {
      assert s[|s| - 1] == s[|s| - 1..][0];
    }
  }

  lemma StrippedTrimmed(line: string)
    requires Trimmed(line)
    ensures Stripped(line) == line
  {
    TrimSpaceSpec(line);
    assert IsSpace('\r');
    SuffixChar(line, '\r');
  }

  lemma LineTrimmed(p: Pair)
    requires Presentable(p)
    ensures Trimmed(Line(p)) && Line(p) != "" && !HasPrefix(Line(p), "#") && NoneOf(Line(p), '\n')
  {
    var line := Line(p);
    assert line[|line| - 1] == if p.value == "" then '=' else p.value[|p.value| - 1];
    assert line[0] == if p.key == "" then '=' else p.key[0];
    assert !IsSpace('=');
    assert p.key != "" ==> p.key[..1] == [p.key[0]];
  }

  lemma LineSplits(p: Pair)
    requires NoneOf(p.key, '=')
    ensures IndexOf(Line(p), '=') == |p.key|
    ensures Line(p)[..|p.key|] == p.key && Line(p)[|p.key| + 1..] == p.value
  {
    var line := Line(p);
    assert line[|p.key|] == '=' && forall j | 0 <= j < |p.key| :: line[j] == p.key[j];
    IndexOfUnique(line, '=', |p.key|);
  }

  lemma LineParses(p: Pair)
    requires Presentable(p)
    ensures PairOf(Stripped(Line(p))) == [p]
  {
    LineTrimmed(p);
    StrippedTrimmed(Line(p));
    LineSplits(p);
    TrimSpaceSpec(p.key);
    TrimSpaceSpec(p.value);
  }

  lemma StrippedSpec(raw: string)
    requires NoneOf(raw, '\n')
    ensures Trimmed(Stripped(raw)) && NoneOf(Stripped(raw), '\n')
  {
    var cut := TrimSuffix(raw, "\r");
    TrimSpaceSpec(cut);
    forall i | 0 <= i < |Stripped(raw)| ensures Stripped(raw)[i] != '\n' {
      assert Stripped(raw)[i] in cut;
    }
  }

  predicate AllPresentable(ps: seq<Pair>) {
    forall i | 0 <= i < |ps| :: Presentable(ps[i])
  }

  lemma TrimmedPart(s: string)
    ensures Trimmed(TrimSpace(s))
    ensures NoneOf(s, '\n') ==> NoneOf(TrimSpace(s), '\n')
    ensures NoneOf(s, '=') ==> NoneOf(TrimSpace(s), '=')
  {
    TrimSpaceSpec(s);
    forall i | 0 <= i < |TrimSpace(s)| ensures exists j :: 0 <= j < |s| && s[j] == TrimSpace(s)[i] {
      assert TrimSpace(s)[i] in s;
    }
  }

  /** Trimming a text that does not begin with a space keeps its first character. */
  lemma KeyKeepsFirst(k: string)
    requires k != "" ==> !IsSpace(k[0])
    ensures HasPrefix(TrimSpace(k), "#") ==> HasPrefix(k, "#")
  {
    TrimRightSpec(k);
    assert TrimLeft(k) == k;
    if HasPrefix(TrimSpace(k), "#") {
      assert TrimSpace(k)[0] == k[0] == '#';
      assert k[..1] == "#";
    }
  }

  lemma TrimmedPairPresentable(k: string, v: string)
    requires NoneOf(k, '\n') && NoneOf(v, '\n') && NoneOf(k, '=') && !HasPrefix(k, "#")
    requires k != "" ==> !IsSpace(k[0])
    ensures AllPresentable([TrimmedPair(k, v)])
  {
    TrimmedPart(k);
    TrimmedPart(v);
    KeyKeepsFirst(k);
  }

  lemma SplitParts(line: string, eq: nat)
    requires NoneOf(line, '\n') && line != "" && !IsSpace(line[0]) && !HasPrefix(line, "#")
    requires eq < |line| && forall j | 0 <= j < eq :: line[j] != '='
    ensures NoneOf(line[..eq], '\n') && NoneOf(line[eq + 1..], '\n') && NoneOf(line[..eq], '=')
    ensures !HasPrefix(line[..eq], "#") && (eq > 0 ==> !IsSpace(line[..eq][0]))
  {
    assert eq > 0 ==> line[..eq][..1] == line[..1];
  }

  lemma PairOfPresentable(line: string)
    requires NoneOf(line, '\n') && Trimmed(line)
    ensures AllPresentable(PairOf(line))
  {
    var eq := IndexOf(line, '=');
    IndexOfSpec(line, '=');
    if line != "" && !HasPrefix(line, "#") && eq < |line| {
      SplitParts(line, eq);
      TrimmedPairPresentable(line[..eq], line[eq + 1..]);
    }
  }

  lemma AllPresentableConcat(ps: seq<Pair>, qs: seq<Pair>)
    requires AllPresentable(ps) && AllPresentable(qs)
    ensures AllPresentable(ps + qs)
  {
  }

  lemma {:induction false} LinesHaveNoFeed(s: string)
    ensures forall i | 0 <= i < |Lines(s)| :: NoneOf(Lines(s)[i], '\n')
    decreases |s|
  {
    if s != "" {
      var n := IndexOf(s, '\n');
      IndexOfSpec(s, '\n');
      if n < |s| {
        LinesHaveNoFeed(s[n + 1..]);
      }
    }
  }

  lemma {:induction false} PairsArePresentable(lines: seq<string>)
    requires forall i | 0 <= i < |lines| :: NoneOf(lines[i], '\n')
    ensures AllPresentable(Pairs(lines))
  {
    if lines != [] {
      StrippedSpec(lines[0]);
      PairOfPresentable(Stripped(lines[0]));
      PairsArePresentable(lines[1..]);
      AllPresentableConcat(LinePairs(lines[0]), Pairs(lines[1..]));
    }
  }

  /** The pairs that survive: presentable, and short enough for the scanner. */
  predicate PairOk(p: Pair) {
    Presentable(p) && |Line(p)| < LINE_LIMIT
  }

  lemma OnePair(p: Pair)
    requires NoneOf(Line(p), '\n')
    ensures Lines(Line(p) + "\n") == [Line(p)]
  {
    assert Line(p) + "\n" + "" == Line(p) + "\n";
    FirstLine(Line(p), "");
  }

  lemma LastWinsOne(p: Pair)
    ensures LastWins([p]) == map[p.key := p.value]
  {
  }

  lemma PairSurvives(p: Pair)
    requires PairOk(p)
    ensures Parse(Line(p) + "\n") == Variables(map[p.key := p.value])
  {
    LineTrimmed(p);
    OnePair(p);
    LineParses(p);
    FlatMapOne(LinePairs, Line(p));
    LastWinsOne(p);
  }

  lemma WinnerPresentable(ps: seq<Pair>, k: string)
    requires AllPresentable(ps) && k in LastWins(ps)
    ensures Presentable(Pair(k, LastWins(ps)[k]))
  {
    LastWinsSpec(ps, k);
  }

  lemma SurvivorPresentable(p: Pair)
    requires Parse(Line(p) + "\n") == Variables(map[p.key := p.value])
    ensures Presentable(p)
  {
    var lines := Lines(Line(p) + "\n");
    LinesHaveNoFeed(Line(p) + "\n");
    PairsArePresentable(lines);
    var m := map[p.key := p.value];
    assert LastWins(Pairs(lines)) == m && p.key in m;
    WinnerPresentable(Pairs(lines), p.key);
  }

  lemma SurvivorShort(p: Pair)
    requires Parse(Line(p) + "\n").Variables? && Presentable(p)
    ensures |Line(p)| < LINE_LIMIT
  {
    LineTrimmed(p);
    OnePair(p);
    var lines := [Line(p)];
    assert !SomeTooLong(lines) && lines[0] == Line(p);
  }

  /** A rendered pair is read back if and only if it is such a pair. */
  lemma PairRoundTrip(p: Pair)
    ensures Parse(Line(p) + "\n") == Variables(map[p.key := p.value]) <==> PairOk(p)
  {
    if PairOk(p) {
      PairSurvives(p);
    }
    if Parse(Line(p) + "\n") == Variables(map[p.key := p.value]) {
      SurvivorPresentable(p);
      SurvivorShort(p);
    }
  }

  /** Rendering pairs and parsing them yields for every key its last value. */
  lemma {:induction false} RenderParses(ps: seq<Pair>)
    requires forall i | 0 <= i < |ps| :: PairOk(ps[i])
    ensures Parse(Render(ps)) == Variables(LastWins(ps))
  {
    if ps != [] {
      ParseAppended(Line(ps[0]) + "\n", Render(ps[1..]));
      PairSurvives(ps[0]);
      RenderParses(ps[1..]);
    }
  }

  // ---------------------------------------------------------------- what a file says

  /** The line gives key k the value v: it is no comment, and k and v stand around its first '='. */
  ghost predicate Assigns(line: string, k: string, v: string) {
    !HasPrefix(TrimSpace(line), "#") &&
    exists a, b {:trigger a + ("=" + b)} ::
      TrimSpace(line) == a + ("=" + b) && '=' !in a && k == TrimSpace(a) && v == TrimSpace(b)
  }

  ghost predicate AssignsKey(line: string, k: string) {
    exists v :: Assigns(line, k, v)
  }

  /** The carriage return that the scanner drops would be trimmed anyway. */
  lemma StrippedIsTrimmed(raw: string)
    ensures Stripped(raw) == TrimSpace(raw)
  {
    if HasSuffix(raw, "\r") {
      var x := TrimSuffix(raw, "\r");
      var l, r := SpaceAround(x);
      TrimSpaceSpec(x);
      assert raw == x + "\r" == l + (TrimSpace(x) + (r + "\r"));
      TrimSpaceOf(l, TrimSpace(x), r + "\r");
    }
  }

  lemma SplitsAtFirst(line: string, a: string, b: string)
    requires line == a + ("=" + b) && '=' !in a
    ensures IndexOf(line, '=') == |a| && line[..|a|] == a && line[|a| + 1..] == b
  {
    assert line[|a|] == '=' && forall j | 0 <= j < |a| :: line[j] == a[j] && a[j] in a;
    IndexOfUnique(line, '=', |a|);
  }

  lemma PairOfSplit(line: string, a: string, b: string)
    requires line == a + ("=" + b) && '=' !in a && !HasPrefix(line, "#")
    ensures PairOf(line) == [Pair(TrimSpace(a), TrimSpace(b))]
  {
    SplitsAtFirst(line, a, b);
  }

  lemma AssignedPair(raw: string, k: string, v: string)
    requires Assigns(raw, k, v)
    ensures LinePairs(raw) == [Pair(k, v)]
  {
    StrippedIsTrimmed(raw);
    var line := TrimSpace(raw);
    var a, b :| line == a + ("=" + b) && '=' !in a && k == TrimSpace(a) && v == TrimSpace(b);
    PairOfSplit(line, a, b);
  }

  lemma PairAssigned(raw: string, k: string, v: string)
    requires LinePairs(raw) == [Pair(k, v)]
    ensures Assigns(raw, k, v)
  {
    StrippedIsTrimmed(raw);
    var line := TrimSpace(raw);
    IndexOfSpec(line, '=');
    var eq := IndexOf(line, '=');
    assert line == line[..eq] + ("=" + line[eq + 1..]);
  }

  /** A line holds the pair it assigns, and none if it assigns nothing. */
  lemma LineExactly(raw: string, k: string, v: string)
    ensures Assigns(raw, k, v) <==> LinePairs(raw) == [Pair(k, v)]
    ensures |LinePairs(raw)| <= 1
  {
    if Assigns(raw, k, v) {
      AssignedPair(raw, k, v);
    } else if LinePairs(raw) == [Pair(k, v)] {
      PairAssigned(raw, k, v);
    }
  }

  lemma KeyExactly(raw: string, k: string)
    ensures AssignsKey(raw, k) <==> LinePairs(raw) != [] && LinePairs(raw)[0].key == k
  {
    if AssignsKey(raw, k) {
      var v :| Assigns(raw, k, v);
      LineExactly(raw, k, v);
    }
    LineExactly(raw, k, "");
    if LinePairs(raw) != [] && LinePairs(raw)[0].key == k {
      LineExactly(raw, k, LinePairs(raw)[0].value);
    }
  }

  /** The last line that assigns a key decides its value, and there are no other keys. */
  lemma {:induction false} PairsExactly(lines: seq<string>, k: string)
    ensures
      var m := LastWins(Pairs(lines));
      && (k in m <==> exists i :: 0 <= i < |lines| && AssignsKey(lines[i], k))
      && (k in m ==> exists i :: 0 <= i < |lines| && Assigns(lines[i], k, m[k]) &&
                                 forall j | i < j < |lines| :: !AssignsKey(lines[j], k))
  {
    if lines != [] {
      var rest, first := lines[1..], LinePairs(lines[0]);
      PairsExactly(rest, k);
      LastWinsConcat(first, Pairs(rest));
      KeyExactly(lines[0], k);
      assert forall i | 1 <= i < |lines| :: lines[i] == rest[i - 1];
      if first != [] {
        LineExactly(lines[0], first[0].key, first[0].value);
        LastWinsOne(first[0]);
        assert first == [first[0]];
      }
    }
  }

  /** What parsing a file yields: an error for a line that fills the scanner's buffer, or its assignments. */
  lemma ParseExactly(text: string, k: string)
    ensures Parse(text).TooLong? <==> exists i :: 0 <= i < |Lines(text)| && |Lines(text)[i]| >= 65536
    ensures
      var lines := Lines(text);
      Parse(text).Variables? ==>
        var m := Parse(text).m;
        && (k in m <==> exists i :: 0 <= i < |lines| && AssignsKey(lines[i], k))
        && (k in m ==> exists i :: 0 <= i < |lines| && Assigns(lines[i], k, m[k]) &&
                                   forall j | i < j < |lines| :: !AssignsKey(lines[j], k))
  {
    PairsExactly(Lines(text), k);
  }

  // ---------------------------------------------------------------- parseOutputFile

  datatype FileState = Absent | Unreadable | Content(text: string)

  datatype Read = ReadOk(m: map<string, string>) | OpenFails | ScanFails

  function ReadSpec(file: FileState): Read {
    match file
    case Absent => ReadOk(map[])
    case Unreadable => OpenFails
    case Content(text) => if Parse(text).TooLong? then ScanFails else ReadOk(Parse(text).m)
  }

  lemma OneLineOn(text: string, seen: seq<string>, rest: string, line: string, behind: string)
    requires seen + Lines(rest) == Lines(text) && !SomeTooLong(seen)
    requires Lines(rest) == [line] + Lines(behind)
    ensures |line| >= LINE_LIMIT ==> SomeTooLong(Lines(text))
    ensures |line| < LINE_LIMIT ==> !SomeTooLong(seen + [line])
    ensures (seen + [line]) + Lines(behind) == Lines(text)
  {
    TooLongConcat(seen, [line]);
    TooLongConcat(seen, Lines(rest));
    assert Lines(rest)[0] == line;
    Associative(seen, [line], Lines(behind));
  }

  /** scanner.Scan() */
  method NextLine(rest: string) returns (line: string, behind: string)
    requires rest != ""
    ensures Lines(rest) == [line] + Lines(behind) && |behind| < |rest|
  {
    var n := IndexOf(rest, '\n');
    line := rest[..n];
    if n == |rest| {
      behind := "";
      assert rest[..n] == rest;
      assert Lines(rest) == [rest] + Lines("");
    } else {
      behind := rest[n + 1..];
    }
  }

  lemma Overwritten(m: map<string, string>, p: Pair)
    ensures m + LastWins([p]) == m[p.key := p.value]
  {
    LastWinsOne(p);
  }

  method EnterPair(m: map<string, string>, line: string) returns (result: map<string, string>)
    ensures result == m + LastWins(PairOf(line))
  {
    var eq := IndexOf(line, '=');
    if line == "" || HasPrefix(line, "#") || eq == |line| {
      return m;
    }
    result := m[TrimSpace(line[..eq]) := TrimSpace(line[eq + 1..])];
    Overwritten(m, Pair(TrimSpace(line[..eq]), TrimSpace(line[eq + 1..])));
  }

  method EnterLine(m: map<string, string>, raw: string, ghost seen: seq<string>) returns (result: map<string, string>)
    requires m == LastWins(Pairs(seen))
    ensures result == LastWins(Pairs(seen + [raw]))
  {
    FlatMapConcat(LinePairs, seen, [raw]);
    FlatMapOne(LinePairs, raw);
    LastWinsConcat(Pairs(seen), LinePairs(raw));
    result := EnterPair(m, Stripped(raw));
  }

  method ScanPairs(text: string) returns (p: Parsed)
    ensures p == Parse(text)
  {
    var result: map<string, string>, rest := map[], text;
    ghost var seen: seq<string> := [];
    while rest != ""
      invariant seen + Lines(rest) == Lines(text)
      invariant !SomeTooLong(seen) && result == LastWins(Pairs(seen))
      decreases |rest|
    {
      var line, behind := NextLine(rest);
      OneLineOn(text, seen, rest, line, behind);
      if |line| >= LINE_LIMIT {
        return TooLong;
      }
      result := EnterLine(result, line, seen);
      seen, rest := seen + [line], behind;
    }
    assert seen + [] == seen;
    return Variables(result);
  }

  method ParseOutputFile(file: FileState) returns (r: Read)
    ensures r == ReadSpec(file)
  {
    match file {
      case Absent => return ReadOk(map[]);
      case Unreadable => return OpenFails;
      case Content(text) =>
        var p := ScanPairs(text);
        return if p.TooLong? then ScanFails else ReadOk(p.m);
    }
  }
}
