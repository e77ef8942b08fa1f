/** Tool resolution as a cache of downloaded binaries (internal/engine/tool.go). */
module Tools {
  import opened Strings
  import opened Job
  import opened Flow

  const META_SUFFIX := ".meta.json"
  const DEFAULT_RETRIES := 1

  /** What the sidecar file records of a declaration. */
  datatype Meta = Meta(url: string, path: string, sha256: string)

  datatype Content = Bytes(data: string) | MetaJson(meta: Meta)

  /** The tools directory: binaries under the tools' names, metadata beside them. */
  type Disk = map<string, Content>

  function MetaOf(t: Tool): Meta {
    Meta(t.url, t.path, t.sha256)
  }

  function MetaName(name: string): string {
    name + META_SUFFIX
  }

  // ---------------------------------------------------------------- the outside world

  /** One download attempt: nothing opened, cut off after some bytes, or complete. */
  datatype Attempt = NoResponse | Broken(partial: string) | Served(body: string)

  /** Extracting a binary: not in the archive, damaged on the way, or written. */
  datatype Extraction = NoBinary | Damaged(partial: string) | Binary(data: string)

  /** sha256, the archive formats, and which bytes a URL may serve. */
  datatype World = World(
    sha: string -> string,
    extract: (string, string, string) -> Extraction,
    serves: (string, string) -> bool)

  /** What the network does to a download of a URL: its first, second, ... attempt. */
  type Network = (string, nat) -> Attempt

  /** The network hands out only what the URL serves. */
  ghost predicate Honest(net: Network, w: World) {
    forall url, k :: net(url, k).Served? ==> w.serves(url, net(url, k).body)
  }

  // ---------------------------------------------------------------- download

  /** What the last attempt that opened the destination left in it, and whether it was complete. */
  datatype Fetched = Fetched(left: Option<string>, ok: bool)

  /** The retry loop from attempt k on. */
  function Fetch(net: Network, url: string, k: nat, retries: nat, left: Option<string>): (f: Fetched)
    ensures f.ok ==> f.left.Some?
    decreases retries + 1 - k
  {
    if k > retries then Fetched(left, false)
    else
      match net(url, k)
      case NoResponse => Fetch(net, url, k + 1, retries, left)
      case Broken(partial) => Fetch(net, url, k + 1, retries, Some(partial))
      case Served(body) => Fetched(Some(body), true)
  }

  /** A download that succeeds leaves a complete body, whatever its failed attempts left behind. */
  lemma {:induction false} FetchServes(net: Network, w: World, url: string, k: nat, retries: nat, left: Option<string>)
    requires Honest(net, w) && Fetch(net, url, k, retries, left).ok
    ensures w.serves(url, Fetch(net, url, k, retries, left).left.value)
    decreases retries + 1 - k
  {
    match net(url, k) {
      case NoResponse => FetchServes(net, w, url, k + 1, retries, left);
      case Broken(partial) => FetchServes(net, w, url, k + 1, retries, Some(partial));
      case Served(_) =>
    }
  }

  /** No attempt is cut off after it opened the destination. */
  predicate NoneBroken(net: Network, url: string, k: nat, retries: nat) {
    forall j | k <= j <= retries :: !net(url, j).Broken?
  }

  /** A download that fails touches the destination if and only if an attempt was cut off. */
  lemma {:induction false} FetchTouches(net: Network, url: string, k: nat, retries: nat, left: Option<string>)
    requires !Fetch(net, url, k, retries, left).ok
    ensures Fetch(net, url, k, retries, left).left.None? <==> left.None? && NoneBroken(net, url, k, retries)
    decreases retries + 1 - k
  {
    if k <= retries {
      match net(url, k) {
        case NoResponse => FetchTouches(net, url, k + 1, retries, left);
        case Broken(partial) => FetchTouches(net, url, k + 1, retries, Some(partial));
        case Served(_) =>
      }
    }
  }

  // ---------------------------------------------------------------- resolving one tool

  datatype ToolError = NotOnPath(name: string) | DownloadFails | ChecksumMismatch | BinaryNotFound | ExtractFails
                     | InstallFails

  datatype Resolution = Resolution(disk: Disk, error: Option<ToolError>)

  function CachedMeta(disk: Disk, name: string): Option<Meta> {
    if MetaName(name) in disk && disk[MetaName(name)].MetaJson? then Some(disk[MetaName(name)].meta) else None
  }

  predicate Hit(disk: Disk, t: Tool) {
    t.name in disk && CachedMeta(disk, t.name) == Some(MetaOf(t))
  }

  function Retries(t: Tool): nat {
    if t.retries < 1 then DEFAULT_RETRIES else t.retries
  }

  predicate ChecksumOk(w: World, t: Tool, body: string) {
    t.sha256 == "" || w.sha(body) == t.sha256
  }

  /** chmod and saveMeta; on a failure the binary stays without new metadata. */
  function Finish(disk: Disk, t: Tool, data: string, saved: bool): Resolution {
    var disk1 := disk[t.name := Bytes(data)];
    if saved then Resolution(disk1[MetaName(t.name) := MetaJson(MetaOf(t))], None)
    else Resolution(disk1, Some(InstallFails))
  }

  function Touched(disk: Disk, name: string, left: Option<string>): Disk {
    if left.Some? then disk[name := Bytes(left.value)] else disk
  }

  function ResolveDirect(disk: Disk, t: Tool, net: Network, w: World, saved: bool): Resolution {
    var f := Fetch(net, t.url, 1, Retries(t), None);
    if !f.ok then Resolution(Touched(disk, t.name, f.left), Some(DownloadFails))
    else if !ChecksumOk(w, t, f.left.value) then Resolution(disk - {t.name}, Some(ChecksumMismatch))
    else Finish(disk, t, f.left.value, saved)
  }

  function ResolveArchive(disk: Disk, t: Tool, net: Network, w: World, saved: bool): Resolution {
    var f := Fetch(net, t.url, 1, Retries(t), None);
    if !f.ok then Resolution(disk, Some(DownloadFails))
    else if !ChecksumOk(w, t, f.left.value) then Resolution(disk, Some(ChecksumMismatch))
    else
      match w.extract(t.url, f.left.value, t.path)
      case NoBinary => Resolution(disk, Some(BinaryNotFound))
      case Damaged(partial) => Resolution(disk[t.name := Bytes(partial)], Some(ExtractFails))
      case Binary(data) => Finish(disk, t, data, saved)
  }

  function ResolveDownloaded(disk: Disk, t: Tool, net: Network, w: World, saved: bool): Resolution {
    if Hit(disk, t) then Resolution(disk, None)
    else if IsArchiveUrl(t.url) then ResolveArchive(disk, t, net, w, saved)
    else ResolveDirect(disk, t, net, w, saved)
  }

  /** The first complete attempt decides a download; there is none behind the last one allowed. */
  lemma {:induction false} FetchExactly(net: Network, url: string, k: nat, retries: nat, left: Option<string>)
      returns (j: nat)
    requires k <= retries + 1
    ensures k <= j <= retries + 1 && forall i | k <= i < j :: !net(url, i).Served?
    ensures Fetch(net, url, k, retries, left).ok <==> j <= retries
    ensures j <= retries ==> net(url, j) == Served(Fetch(net, url, k, retries, left).left.value)
    decreases retries + 1 - k
  {
    j := k;
    if k <= retries {
      match net(url, k) {
        case NoResponse => j := FetchExactly(net, url, k + 1, retries, left);
        case Broken(partial) => j := FetchExactly(net, url, k + 1, retries, Some(partial));
        case Served(_) =>
      }
    }
  }

  lemma {:induction false} NothingMore(net: Network, url: string, k: nat, retries: nat, left: Option<string>)
    requires forall i | k <= i <= retries :: net(url, i).NoResponse?
    ensures Fetch(net, url, k, retries, left) == Fetched(left, false)
    decreases retries + 1 - k
  {
    if k <= retries {
      NothingMore(net, url, k + 1, retries, left);
    }
  }

  /** A failed download leaves what the last attempt that was cut off wrote. */
  lemma {:induction false} FetchLeaves(net: Network, url: string, k: nat, retries: nat, left: Option<string>, b: nat)
    requires k <= b <= retries && net(url, b).Broken? && forall i | b < i <= retries :: net(url, i).NoResponse?
    requires forall i | k <= i <= b :: !net(url, i).Served?
    ensures Fetch(net, url, k, retries, left) == Fetched(Some(net(url, b).partial), false)
    decreases retries + 1 - k
  {
    match net(url, k) {
      case NoResponse => FetchLeaves(net, url, k + 1, retries, left, b);
      case Broken(partial) =>
        if k == b {
          NothingMore(net, url, k + 1, retries, Some(partial));
        } else {
          FetchLeaves(net, url, k + 1, retries, Some(partial), b);
        }
    }
  }

  /**
   What resolving a downloaded tool comes to: nothing is done if binary and metadata are there;
   otherwise the first complete one of the allowed attempts, j, must have the declared checksum
   and hold the binary, which is then installed with metadata of this very declaration.
   */
  lemma ResolvedExactly(disk: Disk, t: Tool, net: Network, w: World, saved: bool, j: nat)
    requires 1 <= j && forall i | 1 <= i < j :: !net(t.url, i).Served?
    ensures
      var r, meta := ResolveDownloaded(disk, t, net, w, saved), t.name + ".meta.json";
      var hit := t.name in disk && meta in disk && disk[meta] == MetaJson(Meta(t.url, t.path, t.sha256));
      && (hit ==> r == Resolution(disk, None))
      && (!hit && j > 1 && j > t.retries ==>
            && r.error == Some(DownloadFails)
            && (IsArchiveUrl(t.url) || (forall i | 1 <= i < j :: net(t.url, i).NoResponse?) ==> r.disk == disk))
      && (!hit && (j == 1 || j <= t.retries) && net(t.url, j).Served? ==>
            var body := net(t.url, j).body;
            var data := if IsArchiveUrl(t.url) then w.extract(t.url, body, t.path) else Binary(body);
            r == if t.sha256 != "" && w.sha(body) != t.sha256 then
                   Resolution(if IsArchiveUrl(t.url) then disk else disk - {t.name}, Some(ChecksumMismatch))
                 else if data.NoBinary? then Resolution(disk, Some(BinaryNotFound))
                 else if data.Damaged? then Resolution(disk[t.name := Bytes(data.partial)], Some(ExtractFails))
                 else if !saved then Resolution(disk[t.name := Bytes(data.data)], Some(InstallFails))
                 else
                   Resolution(disk[t.name := Bytes(data.data)][meta := MetaJson(Meta(t.url, t.path, t.sha256))], None))
  {
    var n := FetchExactly(net, t.url, 1, Retries(t), None);
    if j > Retries(t) && forall i | 1 <= i < j :: net(t.url, i).NoResponse? {
      NothingMore(net, t.url, 1, Retries(t), None);
    }
  }

  // ---------------------------------------------------------------- the cache

  /** The data came from the declared URL, has the declared checksum, and is the declared part of it. */
  ghost predicate Genuine(w: World, m: Meta, data: string) {
    exists body :: w.serves(m.url, body) && (m.sha256 == "" || w.sha(body) == m.sha256) &&
                   if IsArchiveUrl(m.url) then w.extract(m.url, body, m.path) == Binary(data) else body == data
  }

  /** What a cache hit on this name would use is what the metadata says. */
  ghost predicate NameOk(disk: Disk, w: World, name: string) {
    name in disk && CachedMeta(disk, name).Some? ==>
      disk[name].Bytes? && Genuine(w, CachedMeta(disk, name).value, disk[name].data)
  }

  predicate PlainTool(name: string) {
    !HasSuffix(name, META_SUFFIX)
  }

  ghost predicate CacheOk(disk: Disk, w: World) {
    forall name | PlainTool(name) :: NameOk(disk, w, name)
  }

  lemma MetaNames(a: string, b: string)
    ensures !PlainTool(MetaName(a))
    ensures MetaName(a) == MetaName(b) ==> a == b
  {
    assert MetaName(a)[|a|..] == META_SUFFIX && MetaName(a)[..|a|] == a && MetaName(b)[..|b|] == b;
  }

  /** Nothing but the tool's own two files differs. */
  ghost predicate OnlyChanges(disk: Disk, after: Disk, name: string) {
    forall f | f != name && f != MetaName(name) :: (f in after <==> f in disk) && (f in disk ==> after[f] == disk[f])
  }

  lemma OtherNames(disk: Disk, after: Disk, w: World, name: string)
    requires CacheOk(disk, w) && PlainTool(name)
    requires OnlyChanges(disk, after, name)
    ensures CacheOk(after, w) <==> NameOk(after, w, name)
  {
    if NameOk(after, w, name) {
      forall n | PlainTool(n) ensures NameOk(after, w, n) {
        MetaNames(n, name);
        MetaNames(name, n);
        assert NameOk(disk, w, n);
      }
    }
  }

  /** An installed tool: its binary is genuine for its own declaration, and the metadata says so. */
  ghost predicate Installed(disk: Disk, w: World, t: Tool) {
    && t.name in disk && disk[t.name].Bytes?
    && CachedMeta(disk, t.name) == Some(MetaOf(t)) && Genuine(w, MetaOf(t), disk[t.name].data)
  }

  lemma FinishInstalls(disk: Disk, w: World, t: Tool, data: string)
    requires PlainTool(t.name) && Genuine(w, MetaOf(t), data)
    ensures Installed(Finish(disk, t, data, true).disk, w, t)
  {
    MetaNames(t.name, t.name);
  }

  /** A tool resolved without error is installed for its own declaration. */
  lemma ResolvedIsInstalled(disk: Disk, t: Tool, net: Network, w: World, saved: bool)
    requires Honest(net, w) && CacheOk(disk, w) && PlainTool(t.name)
    requires ResolveDownloaded(disk, t, net, w, saved).error.None?
    ensures Installed(ResolveDownloaded(disk, t, net, w, saved).disk, w, t)
  {
    if Hit(disk, t) {
      assert NameOk(disk, w, t.name);
    } else {
      FetchServes(net, w, t.url, 1, Retries(t), None);
      var body := Fetch(net, t.url, 1, Retries(t), None).left.value;
      var data := if IsArchiveUrl(t.url) then w.extract(t.url, body, t.path).data else body;
      assert w.serves(MetaOf(t).url, body);
      assert Genuine(w, MetaOf(t), data);
      FinishInstalls(disk, w, t, data);
    }
  }

  lemma FinishOwn(disk: Disk, t: Tool, data: string, saved: bool)
    ensures OnlyChanges(disk, Finish(disk, t, data, saved).disk, t.name)
  {
  }

  lemma TouchedOwn(disk: Disk, name: string, left: Option<string>)
    ensures OnlyChanges(disk, Touched(disk, name, left), name) && OnlyChanges(disk, disk - {name}, name)
  {
  }

  lemma OnlyOwnFiles(disk: Disk, t: Tool, net: Network, w: World, saved: bool)
    ensures OnlyChanges(disk, ResolveDownloaded(disk, t, net, w, saved).disk, t.name)
  {
    var f := Fetch(net, t.url, 1, Retries(t), None);
    TouchedOwn(disk, t.name, f.left);
    if f.ok {
      FinishOwn(disk, t, f.left.value, saved);
      match w.extract(t.url, f.left.value, t.path) {
        case NoBinary =>
        case Damaged(partial) => TouchedOwn(disk, t.name, Some(partial));
        case Binary(data) => FinishOwn(disk, t, data, saved);
      }
    }
  }

  /** The failures that leave the installed binary alone, or remove it. */
  predicate Harmless(t: Tool, net: Network, w: World, saved: bool) {
    && saved && NoneBroken(net, t.url, 1, Retries(t))
    && (IsArchiveUrl(t.url) ==> forall k | 1 <= k <= Retries(t) && net(t.url, k).Served? ::
          !w.extract(t.url, net(t.url, k).body, t.path).Damaged?)
  }

  lemma {:induction false} FetchedIsServed(net: Network, url: string, k: nat, retries: nat, left: Option<string>)
      returns (j: nat)
    requires Fetch(net, url, k, retries, left).ok
    ensures k <= j <= retries && net(url, j) == Served(Fetch(net, url, k, retries, left).left.value)
    decreases retries + 1 - k
  {
    match net(url, k) {
      case NoResponse => j := FetchedIsServed(net, url, k + 1, retries, left);
      case Broken(partial) => j := FetchedIsServed(net, url, k + 1, retries, Some(partial));
      case Served(_) => j := k;
    }
  }

  /** After such a failure the disk is as it was, except that the binary may be gone. */
  lemma HarmlessFailure(disk: Disk, t: Tool, net: Network, w: World, saved: bool)
    requires Harmless(t, net, w, saved) && ResolveDownloaded(disk, t, net, w, saved).error.Some?
    ensures var after := ResolveDownloaded(disk, t, net, w, saved).disk; after == disk || after == disk - {t.name}
  {
    var f := Fetch(net, t.url, 1, Retries(t), None);
    if !f.ok {
      FetchTouches(net, t.url, 1, Retries(t), None);
    } else {
      var j := FetchedIsServed(net, t.url, 1, Retries(t), None);
    }
  }

  /** Cache coherence: resolving a tool, with whatever harmless failures, keeps every cache hit genuine. */
  lemma ResolveKeepsCache(disk: Disk, t: Tool, net: Network, w: World, saved: bool)
    requires Honest(net, w) && CacheOk(disk, w) && PlainTool(t.name)
    requires ResolveDownloaded(disk, t, net, w, saved).error.None? || Harmless(t, net, w, saved)
    ensures CacheOk(ResolveDownloaded(disk, t, net, w, saved).disk, w)
  {
    var r := ResolveDownloaded(disk, t, net, w, saved);
    OnlyOwnFiles(disk, t, net, w, saved);
    OtherNames(disk, r.disk, w, t.name);
    if r.error.None? {
      ResolvedIsInstalled(disk, t, net, w, saved);
    } else {
      HarmlessFailure(disk, t, net, w, saved);
      MetaNames(t.name, t.name);
      assert NameOk(disk, w, t.name);
    }
  }

  /**
   Where the cache breaks: a direct download none of whose attempts completes keeps it coherent
   if and only if no attempt was cut off, or no metadata of an earlier version is there, or the
   cut-off bytes happen to be that version.
   */
  lemma FailedDownloadExactly(disk: Disk, t: Tool, net: Network, w: World, saved: bool)
    requires CacheOk(disk, w) && PlainTool(t.name) && !Hit(disk, t) && !IsArchiveUrl(t.url)
    requires !Fetch(net, t.url, 1, Retries(t), None).ok
    ensures
      var left := Fetch(net, t.url, 1, Retries(t), None).left;
      CacheOk(ResolveDownloaded(disk, t, net, w, saved).disk, w) <==>
      || NoneBroken(net, t.url, 1, Retries(t))
      || CachedMeta(disk, t.name).None?
      || (left.Some? && Genuine(w, CachedMeta(disk, t.name).value, left.value))
  {
    var r := ResolveDownloaded(disk, t, net, w, saved);
    OnlyOwnFiles(disk, t, net, w, saved);
    OtherNames(disk, r.disk, w, t.name);
    FetchTouches(net, t.url, 1, Retries(t), None);
    MetaNames(t.name, t.name);
    assert NameOk(disk, w, t.name);
  }

  // ---------------------------------------------------------------- all declarations

  /** Everything outside the tools directory: the search path, the network, and whether installing works. */
  datatype Outside = Outside(onPath: string -> bool, net: Network, w: World, saved: bool)

  function ResolveOne(disk: Disk, t: Tool, o: Outside): Resolution {
    if t.url == "" then Resolution(disk, if o.onPath(t.name) then None else Some(NotOnPath(t.name)))
    else ResolveDownloaded(disk, t, o.net, o.w, o.saved)
  }

  function ResolveAll(disk: Disk, ts: seq<Tool>, o: Outside): Resolution
    decreases |ts|
  {
    if ts == [] then Resolution(disk, None)
    else
      var r := ResolveOne(disk, ts[0], o);
      if r.error.Some? then r else ResolveAll(r.disk, ts[1..], o)
  }

  predicate PlainTools(ts: seq<Tool>) {
    forall i | 0 <= i < |ts| :: PlainTool(ts[i].name)
  }

  lemma InstalledStays(disk: Disk, t: Tool, o: Outside, u: Tool)
    requires PlainTool(t.name) && PlainTool(u.name) && t.name != u.name && Installed(disk, o.w, u)
    ensures Installed(ResolveOne(disk, t, o).disk, o.w, u)
  {
    OnlyOwnFiles(disk, t, o.net, o.w, o.saved);
    MetaNames(u.name, t.name);
    MetaNames(t.name, u.name);
  }

  lemma {:induction false} InstalledStaysAll(disk: Disk, ts: seq<Tool>, o: Outside, u: Tool)
    requires PlainTools(ts) && PlainTool(u.name) && (forall i | 0 <= i < |ts| :: ts[i].name != u.name)
    requires Installed(disk, o.w, u)
    ensures Installed(ResolveAll(disk, ts, o).disk, o.w, u)
    decreases |ts|
  {
    if ts != [] {
      InstalledStays(disk, ts[0], o, u);
      assert forall i | 0 <= i < |ts[1..]| :: ts[1..][i] == ts[i + 1];
      InstalledStaysAll(ResolveOne(disk, ts[0], o).disk, ts[1..], o, u);
    }
  }

  function Answer(hit: bool, archive: bool, t: Tool, o: Outside): Option<ToolError> {
    if hit then None
    else if archive then ResolveArchive(map[], t, o.net, o.w, o.saved).error
    else ResolveDirect(map[], t, o.net, o.w, o.saved).error
  }

  lemma BothAnswers(disk: Disk, t: Tool, o: Outside)
    ensures ResolveArchive(disk, t, o.net, o.w, o.saved).error == Answer(false, true, t, o)
    ensures ResolveDirect(disk, t, o.net, o.w, o.saved).error == Answer(false, false, t, o)
  {
  }

  /** The tools directory matters to the answer only as far as there is a cache hit. */
  lemma AnswerByHit(disk: Disk, t: Tool, o: Outside)
    ensures t.url != "" ==> ResolveOne(disk, t, o).error == Answer(Hit(disk, t), IsArchiveUrl(t.url), t, o)
  {
    BothAnswers(disk, t, o);
  }

  lemma HitStays(before: Disk, after: Disk, name: string, u: Tool)
    requires OnlyChanges(before, after, name) && PlainTool(name) && PlainTool(u.name) && name != u.name
    ensures Hit(after, u) <==> Hit(before, u)
  {
    MetaNames(u.name, name);
    MetaNames(name, u.name);
  }

  lemma SameAnswer(disk: Disk, t: Tool, o: Outside, u: Tool)
    requires PlainTool(t.name) && PlainTool(u.name) && t.name != u.name
    ensures ResolveOne(ResolveOne(disk, t, o).disk, u, o).error == ResolveOne(disk, u, o).error
  {
    OnlyOwnFiles(disk, t, o.net, o.w, o.saved);
    var after := ResolveOne(disk, t, o).disk;
    assert OnlyChanges(disk, after, t.name);
    HitStays(disk, after, t.name, u);
    AnswerByHit(disk, u, o);
    AnswerByHit(after, u, o);
  }

  /**
   Resolve succeeds if and only if every tool does on its own: one without a URL is found on the
   search path, any other can be resolved in the tools directory as it was before.
   */
  lemma {:induction false} ResolvesAll(disk: Disk, ts: seq<Tool>, o: Outside)
    requires PlainTools(ts) && forall i, j | 0 <= i < j < |ts| :: ts[i].name != ts[j].name
    ensures ResolveAll(disk, ts, o).error.None? <==>
            forall i | 0 <= i < |ts| ::
              if ts[i].url == "" then o.onPath(ts[i].name)
              else ResolveDownloaded(disk, ts[i], o.net, o.w, o.saved).error.None?
    decreases |ts|
  {
    if ts != [] {
      var rest, disk1 := ts[1..], ResolveOne(disk, ts[0], o).disk;
      assert forall i | 0 <= i < |rest| :: rest[i] == ts[i + 1];
      ResolvesAll(disk1, rest, o);
      forall i | 0 <= i < |rest| ensures ResolveOne(disk1, rest[i], o).error == ResolveOne(disk, rest[i], o).error {
        SameAnswer(disk, ts[0], o, rest[i]);
      }
    }
  }

  /** A successful Resolve of validated tools leaves every downloaded tool installed for its own declaration. */
  lemma {:induction false} ResolveInstalls(disk: Disk, ts: seq<Tool>, o: Outside)
    requires Honest(o.net, o.w) && CacheOk(disk, o.w) && PlainTools(ts)
    requires forall i, j | 0 <= i < j < |ts| :: ts[i].name != ts[j].name
    requires ResolveAll(disk, ts, o).error.None?
    ensures CacheOk(ResolveAll(disk, ts, o).disk, o.w)
    ensures forall i | 0 <= i < |ts| && ts[i].url != "" :: Installed(ResolveAll(disk, ts, o).disk, o.w, ts[i])
    decreases |ts|
  {
    if ts != [] {
      var t, rest := ts[0], ts[1..];
      var disk1 := ResolveOne(disk, t, o).disk;
      assert PlainTool(t.name);
      assert forall i | 0 <= i < |rest| :: rest[i] == ts[i + 1];
      if t.url != "" {
        ResolveKeepsCache(disk, t, o.net, o.w, o.saved);
        ResolvedIsInstalled(disk, t, o.net, o.w, o.saved);
        InstalledStaysAll(disk1, rest, o, t);
      }
      ResolveInstalls(disk1, rest, o);
      forall i | 0 <= i < |ts| && ts[i].url != "" ensures Installed(ResolveAll(disk, ts, o).disk, o.w, ts[i]) {
        if i > 0 {
          assert ts[i] == rest[i - 1];
        }
      }
    }
  }

  /** Whatever Resolve comes to, harmless failures keep the cache coherent. */
  lemma {:induction false} ResolveAllKeepsCache(disk: Disk, ts: seq<Tool>, o: Outside)
    requires Honest(o.net, o.w) && CacheOk(disk, o.w) && PlainTools(ts)
    requires forall i | 0 <= i < |ts| :: Harmless(ts[i], o.net, o.w, o.saved)
    ensures CacheOk(ResolveAll(disk, ts, o).disk, o.w)
    decreases |ts|
  {
    if ts != [] {
      assert PlainTool(ts[0].name) && Harmless(ts[0], o.net, o.w, o.saved);
      if ts[0].url != "" {
        ResolveKeepsCache(disk, ts[0], o.net, o.w, o.saved);
      }
      assert forall i | 0 <= i < |ts[1..]| :: ts[1..][i] == ts[i + 1];
      ResolveAllKeepsCache(ResolveOne(disk, ts[0], o).disk, ts[1..], o);
    }
  }

  class ToolManager {
    var disk: Disk

    constructor (disk: Disk)
      ensures this.disk == disk
    {
      this.disk := disk;
    }

    method NeedsDownload(t: Tool) returns (needed: bool)
      ensures needed <==> !Hit(disk, t)
    {
      if t.name !in disk {
        return true;
      }
      var meta := CachedMeta(disk, t.name);
      if meta.None? {
        return true;
      }
      return meta.value.url != t.url || meta.value.path != t.path || meta.value.sha256 != t.sha256;
    }

    /** `direct` downloads write to the tool's own file, the others to a temporary one. */
    method Download(t: Tool, direct: bool, o: Outside) returns (body: Option<string>)
      modifies this
      ensures var f := Fetch(o.net, t.url, 1, Retries(t), None);
              && disk == (if direct then Touched(old(disk), t.name, f.left) else old(disk))
              && body == if f.ok then f.left else None
    {
      var left: Option<string>, attempt: nat := None, 1;
      while attempt <= Retries(t)
        invariant Fetch(o.net, t.url, attempt, Retries(t), left) == Fetch(o.net, t.url, 1, Retries(t), None)
        invariant disk == if direct then Touched(old(disk), t.name, left) else old(disk)
        decreases Retries(t) + 1 - attempt
      {
        match o.net(t.url, attempt) {
          case NoResponse =>
          case Broken(partial) =>
            left := Some(partial);
            if direct {
              disk := disk[t.name := Bytes(partial)];
            }
          case Served(data) =>
            if direct {
              disk := disk[t.name := Bytes(data)];
            }
            return Some(data);
        }
        attempt := attempt + 1;
      }
      return None;
    }

    method Install(t: Tool, data: string, o: Outside) returns (error: Option<ToolError>)
      modifies this
      ensures Resolution(disk, error) == Finish(old(disk), t, data, o.saved)
    {
      disk := disk[t.name := Bytes(data)];
      if !o.saved {
        return Some(InstallFails);
      }
      disk := disk[MetaName(t.name) := MetaJson(MetaOf(t))];
      return None;
    }

    method ResolveDownloadedTool(t: Tool, o: Outside) returns (error: Option<ToolError>)
      modifies this
      ensures Resolution(disk, error) == ResolveDownloaded(old(disk), t, o.net, o.w, o.saved)
    {
      var needed := NeedsDownload(t);
      if !needed {
        return None;
      }
      var archive := IsArchiveUrl(t.url);
      var body := Download(t, !archive, o);
      if body.None? {
        return Some(DownloadFails);
      }
      if !ChecksumOk(o.w, t, body.value) {
        if !archive {
          disk := disk - {t.name};
        }
        return Some(ChecksumMismatch);
      }
      if !archive {
        error := Install(t, body.value, o);
        return;
      }
      match o.w.extract(t.url, body.value, t.path) {
        case NoBinary => return Some(BinaryNotFound);
        case Damaged(partial) =>
          disk := disk[t.name := Bytes(partial)];
          return Some(ExtractFails);
        case Binary(data) => error := Install(t, data, o);
      }
    }

    method Resolve(ts: seq<Tool>, o: Outside) returns (error: Option<ToolError>)
      modifies this
      ensures Resolution(disk, error) == ResolveAll(old(disk), ts, o)
    {
      for i := 0 to |ts|
        invariant ResolveAll(disk, ts[i..], o) == ResolveAll(old(disk), ts, o)
      {
        if ts[i].url == "" {
          if !o.onPath(ts[i].name) {
            return Some(NotOnPath(ts[i].name));
          }
        } else {
          error := ResolveDownloadedTool(ts[i], o);
          if error.Some? {
            return;
          }
        }
      }
      return None;
    }
  }
}
