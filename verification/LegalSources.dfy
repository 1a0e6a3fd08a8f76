/** The incremental refresh of the legal sources (src/legal-sources.ts): what a run downloads is
    written to disk and entered into an index; what it cannot download is kept from the last run. */
module LegalSources {
  import opened Lists
  import opened Options
  import opened Sorting
  import opened Utf16

  datatype Source = Source(id: string, title: string, url: string, xmlUrl: Option<string>)

  datatype Entry = Entry(source: Source, downloadedAt: string, localPath: string, bytes: nat, sha256: string)

  datatype Extension = Xml | Pdf | Html

  /** What comes back for a URL: an error, or a body that its extension allows. */
  datatype Reply = Failure(message: string) | Accepted(extension: Extension, body: string)

  datatype Problem = Problem(id: string, message: string)

  /** The world of a run: the network and the clock by their calls, and the hash function. */
  datatype World = World(fetch: (nat, string) -> Reply, sha256: string -> string, byteLength: string -> nat, now: nat -> string)

  // --- File names ---

  predicate IsSafe(unit: int) {
    ('A' as int <= unit <= 'Z' as int) || ('a' as int <= unit <= 'z' as int) || ('0' as int <= unit <= '9' as int)
    || unit == '.' as int || unit == '_' as int || unit == '-' as int
  }

  function Sane(units: seq<int>): (r: string)
    ensures |r| == |units| && forall i :: 0 <= i < |units| ==> r[i] == if IsSafe(units[i]) then units[i] as char else '_'
  {
    if units == [] then "" else [if IsSafe(units[0]) then units[0] as char else '_'] + Sane(units[1..])
  }

  /** Every code unit that is not safe becomes an underscore. */
  function Sanitized(id: string): string {
    Sane(Units(id))
  }

  function Suffix(extension: Extension): string {
    match extension
    case Xml => "xml"
    case Pdf => "pdf"
    case Html => "html"
  }

  function SafeName(id: string, extension: Extension): string {
    Sanitized(id) + "." + Suffix(extension)
  }

  function LocalPath(id: string, extension: Extension): string {
    "sources/downloaded/" + SafeName(id, extension)
  }

  lemma SuffixesDiffer(x: Extension, y: Extension)
    ensures Suffix(x) == Suffix(y) ==> x == y
    ensures '.' !in Suffix(x)
  {
    assert x.Xml? ==> Suffix(x)[0] == 'x';
    assert x.Pdf? ==> Suffix(x)[0] == 'p';
    assert x.Html? ==> Suffix(x)[0] == 'h';
    assert y.Xml? ==> Suffix(y)[0] == 'x';
    assert y.Pdf? ==> Suffix(y)[0] == 'p';
    assert y.Html? ==> Suffix(y)[0] == 'h';
  }

  lemma NoDotAfter(s: string, x: string)
    requires '.' !in x
    ensures (s + "." + x)[|s|] == '.' && forall k :: |s| < k < |s + "." + x| ==> (s + "." + x)[k] != '.'
  {
    forall k | |s| < k < |s + "." + x| ensures (s + "." + x)[k] != '.' {
      assert (s + "." + x)[k] == x[k - |s| - 1];
    }
  }

  lemma LastDot(s: string, x: string, t: string, y: string)
    requires '.' !in x && '.' !in y && s + "." + x == t + "." + y
    ensures s == t && x == y
  {
    NoDotAfter(s, x);
    NoDotAfter(t, y);
    assert s == (s + "." + x)[..|s|] && t == (t + "." + y)[..|t|];
    assert x == (s + "." + x)[|s| + 1..] && y == (t + "." + y)[|t| + 1..];
  }

  /** Extensions have no dot, so paths collide only when both parts of the name are the same. */
  lemma PathsCollideExactlyWhen(a: string, x: Extension, b: string, y: Extension)
    ensures LocalPath(a, x) == LocalPath(b, y) <==> Sanitized(a) == Sanitized(b) && x == y
  {
    if LocalPath(a, x) == LocalPath(b, y) {
      var dir := "sources/downloaded/";
      assert SafeName(a, x) == LocalPath(a, x)[|dir|..] && SafeName(b, y) == LocalPath(b, y)[|dir|..];
      SuffixesDiffer(x, y);
      SuffixesDiffer(y, x);
      LastDot(Sanitized(a), Suffix(x), Sanitized(b), Suffix(y));
    }
  }

  // --- One source after the other ---

  /** `new Map` keeps the last entry of an id. */
  function Existing(index: seq<Entry>, id: string): Option<Entry> {
    if index == [] then None
    else if index[|index|-1].source.id == id then Some(index[|index|-1])
    else Existing(index[..|index|-1], id)
  }

  datatype State = State(index: seq<Entry>, errors: seq<Problem>, files: map<string, string>, ticks: nat)

  function Url(source: Source): string {
    if source.xmlUrl.Some? then source.xmlUrl.value else source.url
  }

  predicate IsUnchanged(w: World, existing: Option<Entry>, body: string) {
    existing.Some? && existing.value.sha256 == w.sha256(body)
  }

  function NewEntry(w: World, source: Source, existing: Option<Entry>, extension: Extension, body: string, tick: nat): Entry {
    Entry(source, if IsUnchanged(w, existing, body) then existing.value.downloadedAt else w.now(tick),
      LocalPath(source.id, extension), w.byteLength(body), w.sha256(body))
  }

  predicate IsKept(existing: Option<Entry>, files: map<string, string>) {
    existing.Some? && existing.value.localPath in files
  }

  function Step(w: World, last: seq<Entry>, s: State, source: Source, reply: Reply): State {
    var existing := Existing(last, source.id);
    match reply
    case Accepted(extension, body) =>
      State(s.index + [NewEntry(w, source, existing, extension, body, s.ticks)], s.errors,
        s.files[LocalPath(source.id, extension) := body], if IsUnchanged(w, existing, body) then s.ticks else s.ticks + 1)
    case Failure(message) =>
      State(s.index + (if IsKept(existing, s.files) then [existing.value] else []), s.errors + [Problem(source.id, message)], s.files, s.ticks)
  }

  /** Each source is asked for once, in the order of the manifest. */
  function Answer(w: World, sources: seq<Source>, k: nat): Reply
    requires k < |sources|
  {
    w.fetch(k, Url(sources[k]))
  }

  function Run(w: World, last: seq<Entry>, files: map<string, string>, sources: seq<Source>): State {
    if sources == [] then State([], [], files, 0)
    else Step(w, last, Run(w, last, files, sources[..|sources|-1]), sources[|sources|-1], Answer(w, sources, |sources| - 1))
  }

  class Disk {
    var files: map<string, string>

    constructor ()
      ensures files == map[]
    {
      files := map[];
    }

    method Download(w: World, last: seq<Entry>, sources: seq<Source>) returns (index: seq<Entry>, errors: seq<Problem>)
      modifies this
      ensures var r := Run(w, last, old(files), sources);
        index == r.index && errors == r.errors && files == r.files
    {
      index, errors := [], [];
      var ticks: nat := 0;
      ghost var before := files;
      for k := 0 to |sources|
        invariant State(index, errors, files, ticks) == Run(w, last, before, sources[..k])
      {
        Prefix(sources, k);
        var source := sources[k];
        var existing := Existing(last, source.id);
        match w.fetch(k, Url(source)) {
          case Accepted(extension, body) =>
            var hash := w.sha256(body);
            var downloadedAt;
            if existing.Some? && existing.value.sha256 == hash {
              downloadedAt := existing.value.downloadedAt;
            } else {
              downloadedAt := w.now(ticks);
              ticks := ticks + 1;
            }
            var localPath := LocalPath(source.id, extension);
            files := files[localPath := body];
            index := index + [Entry(source, downloadedAt, localPath, w.byteLength(body), hash)];
          case Failure(message) =>
            errors := errors + [Problem(source.id, message)];
            if existing.Some? && existing.value.localPath in files {
              index := index + [existing.value];
            }
        }
      }
      Whole(sources);
    }
  }

  // --- The index agrees with the disk ---

  ghost predicate DistinctIds(sources: seq<Source>) {
    forall i, j :: 0 <= i < j < |sources| ==> sources[i].id != sources[j].id
  }

  /** No two sources of the manifest share a file name, whatever their extensions. */
  ghost predicate DistinctNames(sources: seq<Source>) {
    forall i, j :: 0 <= i < j < |sources| ==> Sanitized(sources[i].id) != Sanitized(sources[j].id)
  }

  /** Sources that share a file name share their URL. */
  ghost predicate SharedNamesShareUrls(sources: seq<Source>) {
    forall i, j :: 0 <= i < j < |sources| && Sanitized(sources[i].id) == Sanitized(sources[j].id) ==>
      Url(sources[i]) == Url(sources[j])
  }

  /** Sources that share a file name are answered alike. */
  ghost predicate SharedNamesShareAnswers(w: World, sources: seq<Source>) {
    forall i, j :: 0 <= i < j < |sources| && Sanitized(sources[i].id) == Sanitized(sources[j].id) ==>
      Answer(w, sources, i) == Answer(w, sources, j)
  }

  /** A network that gives one answer for a URL as long as the run lasts. */
  ghost predicate IsSteady(w: World) {
    forall i, j, url :: w.fetch(i, url) == w.fetch(j, url)
  }

  ghost predicate IsNamed(e: Entry) {
    exists x :: e.localPath == LocalPath(e.source.id, x)
  }

  /** The entry's file is stored, with the entry's hash. */
  ghost predicate IsStored(hash: string -> string, files: map<string, string>, e: Entry) {
    e.localPath in files && hash(files[e.localPath]) == e.sha256
  }

  ghost predicate IsSound(hash: string -> string, files: map<string, string>, index: seq<Entry>) {
    forall e :: e in index ==> IsNamed(e) && IsStored(hash, files, e)
  }

  /** Files of the last index may be gone, but not changed. */
  ghost predicate IsUntouched(hash: string -> string, files: map<string, string>, index: seq<Entry>) {
    forall e :: e in index ==> IsNamed(e) && (e.localPath in files ==> IsStored(hash, files, e))
  }

  lemma {:induction false} ExistingIsThere(index: seq<Entry>, id: string)
    ensures Existing(index, id).Some? ==> Existing(index, id).value in index && Existing(index, id).value.source.id == id
    ensures Existing(index, id).None? ==> forall e :: e in index ==> e.source.id != id
  {
    if index != [] {
      ExistingIsThere(index[..|index|-1], id);
      assert forall e :: e in index <==> e in index[..|index|-1] || e == index[|index|-1];
    }
  }

  ghost predicate HasId(sources: seq<Source>, id: string) {
    exists s :: s in sources && s.id == id
  }

  /** The entry that a source brings into the index. */
  function Added(w: World, last: seq<Entry>, s: State, source: Source, reply: Reply): Option<Entry> {
    match reply
    case Accepted(extension, body) => Some(NewEntry(w, source, Existing(last, source.id), extension, body, s.ticks))
    case Failure(_) => if IsKept(Existing(last, source.id), s.files) then Existing(last, source.id) else None
  }

  lemma AddedIsAppended(w: World, last: seq<Entry>, s: State, source: Source, reply: Reply)
    ensures Step(w, last, s, source, reply).index ==
      s.index + if Added(w, last, s, source, reply).Some? then [Added(w, last, s, source, reply).value] else []
    ensures Added(w, last, s, source, reply).Some? ==> Added(w, last, s, source, reply).value.source.id == source.id
  {
    ExistingIsThere(last, source.id);
  }

  lemma {:induction false} IndexedIds(w: World, last: seq<Entry>, files: map<string, string>, sources: seq<Source>)
    ensures forall e :: e in Run(w, last, files, sources).index ==> HasId(sources, e.source.id)
  {
    if sources != [] {
      var n := |sources| - 1;
      IndexedIds(w, last, files, sources[..n]);
      AddedIsAppended(w, last, Run(w, last, files, sources[..n]), sources[n], Answer(w, sources, n));
      assert sources[n] in sources && forall s :: s in sources[..n] ==> s in sources;
    }
  }

  /** The source does not write to the file, or writes this body. */
  ghost predicate WritesOnly(source: Source, reply: Reply, path: string, body: string) {
    reply.Accepted? && LocalPath(source.id, reply.extension) == path ==> reply.body == body
  }

  ghost predicate Writes(source: Source, reply: Reply, path: string) {
    reply.Accepted? && LocalPath(source.id, reply.extension) == path
  }

  ghost predicate AllWriteOnly(w: World, sources: seq<Source>, path: string, body: string) {
    forall k :: 0 <= k < |sources| ==> WritesOnly(sources[k], Answer(w, sources, k), path, body)
  }

  ghost predicate NoneWrites(w: World, sources: seq<Source>, path: string) {
    forall k :: 0 <= k < |sources| ==> !Writes(sources[k], Answer(w, sources, k), path)
  }

  lemma PrefixAnswers(w: World, sources: seq<Source>, n: nat, k: nat)
    requires k < n <= |sources|
    ensures sources[..n][k] == sources[k] && Answer(w, sources[..n], k) == Answer(w, sources, k)
  {
  }

  lemma PrefixWrites(w: World, sources: seq<Source>, n: nat, path: string, body: string)
    requires n <= |sources|
    ensures AllWriteOnly(w, sources, path, body) ==> AllWriteOnly(w, sources[..n], path, body)
    ensures NoneWrites(w, sources, path) ==> NoneWrites(w, sources[..n], path)
  {
    forall k | 0 <= k < n ensures sources[..n][k] == sources[k] && Answer(w, sources[..n], k) == Answer(w, sources, k) {
      PrefixAnswers(w, sources, n, k);
    }
  }

  /** A file that no source is stored in stays as it was. */
  lemma {:induction false} OthersStay(w: World, last: seq<Entry>, files: map<string, string>, sources: seq<Source>, path: string)
    requires NoneWrites(w, sources, path)
    ensures var after := Run(w, last, files, sources).files;
      (path in after <==> path in files) && (path in files ==> after[path] == files[path])
  {
    if sources != [] {
      var n := |sources| - 1;
      PrefixWrites(w, sources, n, path, "");
      OthersStay(w, last, files, sources[..n], path);
      assert !Writes(sources[n], Answer(w, sources, n), path);
    }
  }

  /** What has been stored once stays stored when only the same body is written over it. */
  lemma StepKeeps(w: World, last: seq<Entry>, s: State, source: Source, reply: Reply, path: string, body: string)
    requires WritesOnly(source, reply, path, body) && path in s.files && s.files[path] == body
    ensures var t := Step(w, last, s, source, reply); path in t.files && t.files[path] == body
  {
  }

  lemma RunLast(w: World, last: seq<Entry>, files: map<string, string>, sources: seq<Source>)
    requires sources != []
    ensures var n := |sources| - 1;
      Run(w, last, files, sources) == Step(w, last, Run(w, last, files, sources[..n]), sources[n], Answer(w, sources, n))
  {
  }

  lemma {:induction false} StaysStored(w: World, last: seq<Entry>, files: map<string, string>, sources: seq<Source>, k: nat, path: string, body: string)
    requires k <= |sources| && AllWriteOnly(w, sources, path, body)
    requires var s := Run(w, last, files, sources[..k]); path in s.files && s.files[path] == body
    ensures var s := Run(w, last, files, sources); path in s.files && s.files[path] == body
  {
    if k < |sources| {
      var n := |sources| - 1;
      SliceTwice(sources, n, k);
      PrefixWrites(w, sources, n, path, body);
      StaysStored(w, last, files, sources[..n], k, path, body);
      StepKeeps(w, last, Run(w, last, files, sources[..n]), sources[n], Answer(w, sources, n), path, body);
      RunLast(w, last, files, sources);
    } else {
      Whole(sources);
    }
  }

  /** Where names are shared with the answer only, one body is written to a file. */
  lemma OneBody(w: World, sources: seq<Source>, k: nat, x: Extension, body: string)
    requires SharedNamesShareAnswers(w, sources) && k < |sources| && Answer(w, sources, k) == Accepted(x, body)
    ensures AllWriteOnly(w, sources, LocalPath(sources[k].id, x), body)
  {
    forall j | 0 <= j < |sources| ensures WritesOnly(sources[j], Answer(w, sources, j), LocalPath(sources[k].id, x), body) {
      if Answer(w, sources, j).Accepted? {
        PathsCollideExactlyWhen(sources[j].id, Answer(w, sources, j).extension, sources[k].id, x);
      }
    }
  }

  lemma NothingWritten(w: World, sources: seq<Source>, k: nat, x: Extension)
    requires SharedNamesShareAnswers(w, sources) && k < |sources| && Answer(w, sources, k).Failure?
    ensures NoneWrites(w, sources, LocalPath(sources[k].id, x))
  {
    forall j | 0 <= j < |sources| ensures !Writes(sources[j], Answer(w, sources, j), LocalPath(sources[k].id, x)) {
      if Answer(w, sources, j).Accepted? {
        PathsCollideExactlyWhen(sources[j].id, Answer(w, sources, j).extension, sources[k].id, x);
      }
    }
  }

  /** The entry of a download agrees with the disk at the end of the run. */
  lemma NewIsStored(w: World, last: seq<Entry>, files: map<string, string>, sources: seq<Source>, k: nat)
    requires SharedNamesShareAnswers(w, sources) && k < |sources| && Answer(w, sources, k).Accepted?
    ensures var e := Added(w, last, Run(w, last, files, sources[..k]), sources[k], Answer(w, sources, k)).value;
      IsNamed(e) && IsStored(w.sha256, Run(w, last, files, sources).files, e)
  {
    var Accepted(x, body) := Answer(w, sources, k);
    OneBody(w, sources, k, x, body);
    RunOneMore(w, last, files, sources, k);
    StaysStored(w, last, files, sources, k + 1, LocalPath(sources[k].id, x), body);
  }

  /** So does an entry that is kept. */
  lemma KeptIsStored(w: World, last: seq<Entry>, files: map<string, string>, sources: seq<Source>, k: nat)
    requires SharedNamesShareAnswers(w, sources) && IsUntouched(w.sha256, files, last)
    requires k < |sources| && Answer(w, sources, k).Failure?
    requires IsKept(Existing(last, sources[k].id), Run(w, last, files, sources[..k]).files)
    ensures var e := Existing(last, sources[k].id).value;
      IsNamed(e) && IsStored(w.sha256, Run(w, last, files, sources).files, e)
  {
    ExistingIsThere(last, sources[k].id);
    var e := Existing(last, sources[k].id).value;
    var x :| e.localPath == LocalPath(e.source.id, x);
    NothingWritten(w, sources, k, x);
    PrefixWrites(w, sources, k, e.localPath, "");
    OthersStay(w, last, files, sources[..k], e.localPath);
    OthersStay(w, last, files, sources, e.localPath);
  }

  lemma RunOneMore(w: World, last: seq<Entry>, files: map<string, string>, sources: seq<Source>, k: nat)
    requires k < |sources|
    ensures Run(w, last, files, sources[..k+1]) ==
      Step(w, last, Run(w, last, files, sources[..k]), sources[k], Answer(w, sources, k))
  {
    Prefix(sources, k);
  }

  /** Every entry of the index is the one that some source brought. */
  lemma {:induction false} EveryEntryWasAdded(w: World, last: seq<Entry>, files: map<string, string>, sources: seq<Source>, e: Entry) returns (k: nat)
    requires e in Run(w, last, files, sources).index
    ensures k < |sources| && Added(w, last, Run(w, last, files, sources[..k]), sources[k], Answer(w, sources, k)) == Some(e)
  {
    var n := |sources| - 1;
    AddedIsAppended(w, last, Run(w, last, files, sources[..n]), sources[n], Answer(w, sources, n));
    if e in Run(w, last, files, sources[..n]).index {
      k := EveryEntryWasAdded(w, last, files, sources[..n], e);
      SliceTwice(sources, n, k);
    } else {
      k := n;
    }
  }

  /** After a refresh every entry's file is stored with the entry's hash. */
  lemma RefreshIsSound(w: World, last: seq<Entry>, files: map<string, string>, sources: seq<Source>)
    requires SharedNamesShareAnswers(w, sources) && IsUntouched(w.sha256, files, last)
    ensures var r := Run(w, last, files, sources); IsSound(w.sha256, r.files, r.index)
  {
    var r := Run(w, last, files, sources);
    forall e | e in r.index ensures IsNamed(e) && IsStored(w.sha256, r.files, e) {
      var k := EveryEntryWasAdded(w, last, files, sources, e);
      if Answer(w, sources, k).Accepted? {
        NewIsStored(w, last, files, sources, k);
      } else {
        KeptIsStored(w, last, files, sources, k);
      }
    }
  }

  /** A refresh of the shelf: the state of the world, and the manifest. */
  datatype Refresh = Refresh(world: World, manifest: seq<Source>)

  datatype Shelf = Shelf(index: seq<Entry>, files: map<string, string>)

  /** Every refresh starts from the index and the files that the last one left. */
  function Refreshed(files: map<string, string>, refreshes: seq<Refresh>): Shelf {
    if refreshes == [] then Shelf([], files)
    else
      var last := Refreshed(files, refreshes[..|refreshes|-1]);
      var refresh := refreshes[|refreshes|-1];
      var r := Run(refresh.world, last.index, last.files, refresh.manifest);
      Shelf(r.index, r.files)
  }

  /** However the network answers, whatever the clock says and however the manifest changes from
      one refresh to the next: the index always agrees with the disk. */
  lemma {:induction false} EveryRefreshIsSound(hash: string -> string, files: map<string, string>, refreshes: seq<Refresh>)
    requires forall refresh :: refresh in refreshes ==> refresh.world.sha256 == hash && SharedNamesShareAnswers(refresh.world, refresh.manifest)
    ensures IsSound(hash, Refreshed(files, refreshes).files, Refreshed(files, refreshes).index)
  {
    if refreshes != [] {
      var front, refresh := refreshes[..|refreshes|-1], refreshes[|refreshes|-1];
      assert refresh in refreshes && forall r :: r in front ==> r in refreshes;
      EveryRefreshIsSound(hash, files, front);
      var last := Refreshed(files, front);
      RefreshIsSound(refresh.world, last.index, last.files, refresh.manifest);
    }
  }

  /** The last source that shares a name. */
  lemma {:induction false} LastOfName(sources: seq<Source>, i: nat) returns (k: nat)
    requires i < |sources|
    ensures i <= k < |sources| && IsLastOfName(sources, k) && Sanitized(sources[k].id) == Sanitized(sources[i].id)
  {
    var n := |sources| - 1;
    k := n;
    if Sanitized(sources[n].id) != Sanitized(sources[i].id) {
      k := LastOfName(sources[..n], i);
      assert forall j :: k < j < n ==> sources[..n][j] == sources[j];
    }
  }

  ghost predicate IsLastOfName(sources: seq<Source>, k: nat)
    requires k < |sources|
  {
    forall j :: k < j < |sources| ==> Sanitized(sources[j].id) != Sanitized(sources[k].id)
  }

  /** Every source is answered with a page. */
  ghost predicate AnswersPages(w: World) {
    forall i, url :: w.fetch(i, url).Accepted? && w.fetch(i, url).extension == Html
  }

  lemma {:induction false} LastIsStored(w: World, sources: seq<Source>, k: nat)
    requires k < |sources| && AnswersPages(w) && IsLastOfName(sources, k)
    ensures var path := LocalPath(sources[k].id, Html); var files := Run(w, [], map[], sources).files;
      path in files && files[path] == Answer(w, sources, k).body
  {
    var n := |sources| - 1;
    StepWrites(w, [], Run(w, [], map[], sources[..n]), sources[n], Answer(w, sources, n));
    if k < n {
      PrefixAnswers(w, sources, n, k);
      LastIsStored(w, sources[..n], k);
      PathsCollideExactlyWhen(sources[n].id, Html, sources[k].id, Html);
      assert LocalPath(sources[n].id, Html) != LocalPath(sources[k].id, Html);
    }
  }

  /** Two sources that share a name but not the answer: the last one's body replaces the other one's,
      and the entry of the other no longer agrees with its file. */
  lemma SharedNameIsUnsound(w: World, sources: seq<Source>, i: nat, k: nat)
    requires i < |sources| && k < |sources| && AnswersPages(w) && IsLastOfName(sources, k)
    requires Sanitized(sources[i].id) == Sanitized(sources[k].id)
    requires w.sha256(Answer(w, sources, i).body) != w.sha256(Answer(w, sources, k).body)
    ensures var r := Run(w, [], map[], sources); !IsSound(w.sha256, r.files, r.index)
  {
    var r := Run(w, [], map[], sources);
    EverySourceIsAccountedFor(w, [], map[], sources);
    assert IsAccountedFor(w, r, sources[i], Answer(w, sources, i));
    var e :| e in r.index && IsEntryOf(w, e, sources[i], Html, Answer(w, sources, i).body);
    LastIsStored(w, sources, k);
    PathsCollideExactlyWhen(sources[i].id, Html, sources[k].id, Html);
    assert !IsStored(w.sha256, r.files, e);
  }

  /** The index agrees with the disk after a refresh, whatever was on the shelf. */
  ghost predicate IsAlwaysSound(w: World, sources: seq<Source>) {
    forall last, files :: IsUntouched(w.sha256, files, last) ==>
      IsSound(w.sha256, Run(w, last, files, sources).files, Run(w, last, files, sources).index)
  }

  lemma AnswersMakeItSound(w: World, sources: seq<Source>)
    requires SharedNamesShareAnswers(w, sources)
    ensures IsAlwaysSound(w, sources)
  {
    forall last, files | IsUntouched(w.sha256, files, last)
      ensures IsSound(w.sha256, Run(w, last, files, sources).files, Run(w, last, files, sources).index)
    {
      RefreshIsSound(w, last, files, sources);
    }
  }

  /** A network that answers one call with one body and every other with another. */
  function TwoAnswers(hash: string -> string, k: nat, body: string, other: string): World {
    World((i: nat, url: string) => Accepted(Html, if i == k then body else other), hash, (b: string) => 0, (n: nat) => "")
  }

  /** A network that answers one URL with one body and every other with another. */
  function TwoBodies(hash: string -> string, url: string, body: string, other: string): World {
    World((i: nat, u: string) => Accepted(Html, if u == url then body else other), hash, (b: string) => 0, (n: nat) => "")
  }

  lemma StartsUnsound(w: World, sources: seq<Source>, i: nat, k: nat)
    requires i < |sources| && k < |sources| && AnswersPages(w) && IsLastOfName(sources, k)
    requires Sanitized(sources[i].id) == Sanitized(sources[k].id)
    requires w.sha256(Answer(w, sources, i).body) != w.sha256(Answer(w, sources, k).body)
    ensures !IsAlwaysSound(w, sources)
  {
    SharedNameIsUnsound(w, sources, i, k);
    assert IsUntouched(w.sha256, map[], []);
  }

  /** For a hash function that tells two bodies apart: however the network answers and whatever was
      on the shelf, the index agrees with the disk, exactly when no two sources share a file name. */
  lemma SoundExactlyWhen(hash: string -> string, sources: seq<Source>, body: string, other: string)
    requires hash(body) != hash(other)
    ensures (forall w: World :: w.sha256 == hash ==> IsAlwaysSound(w, sources)) <==> DistinctNames(sources)
  {
    if DistinctNames(sources) {
      forall w: World | w.sha256 == hash ensures IsAlwaysSound(w, sources) {
        AnswersMakeItSound(w, sources);
      }
    } else {
      var i, j :| 0 <= i < j < |sources| && Sanitized(sources[i].id) == Sanitized(sources[j].id);
      var k := LastOfName(sources, j);
      StartsUnsound(TwoAnswers(hash, k, body, other), sources, i, k);
    }
  }

  /** Where a URL has one answer for the length of a run, it is enough that sources that share a file
      name share their URL. */
  lemma SteadilySoundExactlyWhen(hash: string -> string, sources: seq<Source>, body: string, other: string)
    requires hash(body) != hash(other)
    ensures (forall w: World :: w.sha256 == hash && IsSteady(w) ==> IsAlwaysSound(w, sources)) <==> SharedNamesShareUrls(sources)
  {
    if SharedNamesShareUrls(sources) {
      forall w: World | w.sha256 == hash && IsSteady(w) ensures IsAlwaysSound(w, sources) {
        AnswersMakeItSound(w, sources);
      }
    } else {
      var i, j :| 0 <= i < j < |sources| && Sanitized(sources[i].id) == Sanitized(sources[j].id) && Url(sources[i]) != Url(sources[j]);
      var k := LastOfName(sources, j);
      var loser := if Url(sources[i]) != Url(sources[k]) then i else j;
      var w := TwoBodies(hash, Url(sources[k]), body, other);
      StartsUnsound(w, sources, loser, k);
      assert IsSteady(w);
    }
  }

  // --- The index follows the manifest ---

  ghost predicate IsIncreasing(positions: seq<nat>, n: nat) {
    && (forall i :: 0 <= i < |positions| ==> positions[i] < n)
    && (forall i, j :: 0 <= i < j < |positions| ==> positions[i] < positions[j])
  }

  /** The entries stand in the order of their sources in the manifest. */
  lemma {:induction false} IndexFollowsManifest(w: World, last: seq<Entry>, files: map<string, string>, sources: seq<Source>)
    returns (positions: seq<nat>)
    ensures var index := Run(w, last, files, sources).index;
      && |positions| == |index| && IsIncreasing(positions, |sources|)
      && forall i :: 0 <= i < |index| ==> index[i].source.id == sources[positions[i]].id
  {
    positions := [];
    if sources != [] {
      var n := |sources| - 1;
      positions := IndexFollowsManifest(w, last, files, sources[..n]);
      AddedIsAppended(w, last, Run(w, last, files, sources[..n]), sources[n], Answer(w, sources, n));
      if Added(w, last, Run(w, last, files, sources[..n]), sources[n], Answer(w, sources, n)).Some? {
        positions := positions + [n];
      }
    }
  }

  /** So do the failures. */
  lemma {:induction false} ErrorsFollowManifest(w: World, last: seq<Entry>, files: map<string, string>, sources: seq<Source>)
    returns (positions: seq<nat>)
    ensures var errors := Run(w, last, files, sources).errors;
      && |positions| == |errors| && IsIncreasing(positions, |sources|)
      && forall i :: 0 <= i < |errors| ==> IsFailureOf(w, sources, positions[i], errors[i])
    ensures forall k: nat :: k < |sources| && Answer(w, sources, k).Failure? ==> k in positions
  {
    positions := [];
    if sources != [] {
      var n := |sources| - 1;
      positions := ErrorsFollowManifest(w, last, files, sources[..n]);
      forall k: nat | k < n ensures sources[..n][k] == sources[k] && Answer(w, sources[..n], k) == Answer(w, sources, k) {
        PrefixAnswers(w, sources, n, k);
      }
      if Answer(w, sources, n).Failure? {
        positions := positions + [n];
        assert n in positions;
      }
    }
  }

  // --- Every source is accounted for ---

  ghost predicate IsEntryOf(w: World, e: Entry, source: Source, x: Extension, body: string) {
    && e.source == source && e.localPath == LocalPath(source.id, x)
    && e.bytes == w.byteLength(body) && e.sha256 == w.sha256(body)
  }

  /** What was downloaded has an entry of its own; what was not is reported. */
  ghost predicate IsAccountedFor(w: World, r: State, source: Source, reply: Reply) {
    match reply
    case Accepted(x, body) => exists e :: e in r.index && IsEntryOf(w, e, source, x, body)
    case Failure(message) => Problem(source.id, message) in r.errors
  }

  lemma StaysAccountedFor(w: World, last: seq<Entry>, s: State, next: Source, answer: Reply, source: Source, reply: Reply)
    requires IsAccountedFor(w, s, source, reply)
    ensures IsAccountedFor(w, Step(w, last, s, next, answer), source, reply)
  {
    AddedIsAppended(w, last, s, next, answer);
    match reply
    case Accepted(x, body) =>
      var e :| e in s.index && IsEntryOf(w, e, source, x, body);
      assert e in Step(w, last, s, next, answer).index;
    case Failure(_) =>
  }

  lemma NewlyAccountedFor(w: World, last: seq<Entry>, s: State, source: Source, reply: Reply)
    ensures IsAccountedFor(w, Step(w, last, s, source, reply), source, reply)
  {
    AddedIsAppended(w, last, s, source, reply);
    match reply
    case Accepted(x, body) =>
      var e := Added(w, last, s, source, reply).value;
      assert e in Step(w, last, s, source, reply).index && IsEntryOf(w, e, source, x, body);
    case Failure(_) =>
  }

  ghost predicate IsFailureOf(w: World, sources: seq<Source>, k: nat, p: Problem)
    requires k < |sources|
  {
    p.id == sources[k].id && Answer(w, sources, k) == Failure(p.message)
  }

  /** Every source is downloaded into the index or reported, and only failures are reported. */
  lemma EverySourceIsAccountedFor(w: World, last: seq<Entry>, files: map<string, string>, sources: seq<Source>)
    ensures var r := Run(w, last, files, sources);
      && (forall k :: 0 <= k < |sources| ==> IsAccountedFor(w, r, sources[k], Answer(w, sources, k)))
      && (forall p :: p in r.errors ==> exists k :: 0 <= k < |sources| && IsFailureOf(w, sources, k, p))
  {
    var r := Run(w, last, files, sources);
    forall k | 0 <= k < |sources| ensures IsAccountedFor(w, r, sources[k], Answer(w, sources, k)) {
      SourceIsAccountedFor(w, last, files, sources, k);
    }
    forall p | p in r.errors ensures exists k :: 0 <= k < |sources| && IsFailureOf(w, sources, k, p) {
      var k := OnlyFailuresAreReported(w, last, files, sources, p);
    }
  }

  lemma {:induction false} SourceIsAccountedFor(w: World, last: seq<Entry>, files: map<string, string>, sources: seq<Source>, k: nat)
    requires k < |sources|
    ensures IsAccountedFor(w, Run(w, last, files, sources), sources[k], Answer(w, sources, k))
  {
    var n := |sources| - 1;
    var s := Run(w, last, files, sources[..n]);
    if k < n {
      PrefixAnswers(w, sources, n, k);
      SourceIsAccountedFor(w, last, files, sources[..n], k);
      StaysAccountedFor(w, last, s, sources[n], Answer(w, sources, n), sources[k], Answer(w, sources, k));
    } else {
      NewlyAccountedFor(w, last, s, sources[n], Answer(w, sources, n));
    }
  }

  lemma {:induction false} OnlyFailuresAreReported(w: World, last: seq<Entry>, files: map<string, string>, sources: seq<Source>, p: Problem) returns (k: nat)
    requires p in Run(w, last, files, sources).errors
    ensures k < |sources| && IsFailureOf(w, sources, k, p)
  {
    var n := |sources| - 1;
    if p in Run(w, last, files, sources[..n]).errors {
      k := OnlyFailuresAreReported(w, last, files, sources[..n], p);
      PrefixAnswers(w, sources, n, k);
    } else {
      k := n;
    }
  }

  /** A source that could not be downloaded keeps its entry from the last run exactly when it had
      one whose file is stored. */
  lemma FailureKeepsEntry(w: World, last: seq<Entry>, files: map<string, string>, sources: seq<Source>, k: nat)
    requires k < |sources| && DistinctIds(sources) && Answer(w, sources, k).Failure?
    ensures var kept := Existing(Run(w, last, files, sources).index, sources[k].id);
      var stored := Run(w, last, files, sources[..k]).files;
      kept == if IsKept(Existing(last, sources[k].id), stored) then Existing(last, sources[k].id) else None
  {
    FoundAsAdded(w, last, files, sources, k);
  }

  // --- A rerun changes nothing ---

  /** What the sources write, in the order of the manifest. */
  function Written(w: World, sources: seq<Source>): map<string, string> {
    if sources == [] then map[]
    else
      var n := |sources| - 1;
      match Answer(w, sources, n)
      case Accepted(x, body) => Written(w, sources[..n])[LocalPath(sources[n].id, x) := body]
      case Failure(_) => Written(w, sources[..n])
  }

  lemma {:induction false} FilesAreWritten(w: World, last: seq<Entry>, files: map<string, string>, sources: seq<Source>)
    ensures Run(w, last, files, sources).files == files + Written(w, sources)
  {
    if sources != [] {
      var n := |sources| - 1;
      FilesAreWritten(w, last, files, sources[..n]);
      StepWrites(w, last, Run(w, last, files, sources[..n]), sources[n], Answer(w, sources, n));
    }
  }

  lemma StepWrites(w: World, last: seq<Entry>, s: State, source: Source, reply: Reply)
    ensures Step(w, last, s, source, reply).files ==
      match reply
      case Accepted(x, body) => s.files[LocalPath(source.id, x) := body]
      case Failure(_) => s.files
  {
  }

  lemma {:induction false} FilesGrow(w: World, sources: seq<Source>, k: nat)
    requires k <= |sources|
    ensures Written(w, sources[..k]).Keys <= Written(w, sources).Keys
  {
    if k < |sources| {
      FilesGrow(w, sources[..|sources|-1], k);
      assert sources[..|sources|-1][..k] == sources[..k];
    } else {
      Whole(sources);
    }
  }

  lemma ExistingAppended(index: seq<Entry>, more: Option<Entry>, id: string)
    ensures Existing(index + (if more.Some? then [more.value] else []), id) ==
      if more.Some? && more.value.source.id == id then more else Existing(index, id)
  {
    var all := index + if more.Some? then [more.value] else [];
    assert more.Some? ==> all[..|all|-1] == index;
    assert more.None? ==> all == index;
  }

  lemma LastIsNew(w: World, last: seq<Entry>, files: map<string, string>, sources: seq<Source>)
    requires sources != [] && DistinctIds(sources)
    ensures Existing(Run(w, last, files, sources[..|sources|-1]).index, sources[|sources|-1].id) == None
  {
    IndexedIds(w, last, files, sources[..|sources|-1]);
    ExistingIsThere(Run(w, last, files, sources[..|sources|-1]).index, sources[|sources|-1].id);
  }

  lemma FoundInStep(w: World, last: seq<Entry>, s: State, source: Source, reply: Reply, id: string)
    ensures Existing(Step(w, last, s, source, reply).index, id) ==
      if Added(w, last, s, source, reply).Some? && source.id == id then Added(w, last, s, source, reply) else Existing(s.index, id)
  {
    AddedIsAppended(w, last, s, source, reply);
    ExistingAppended(s.index, Added(w, last, s, source, reply), id);
  }

  /** In the new index a source is found with the entry that it brought. */
  lemma {:induction false} FoundAsAdded(w: World, last: seq<Entry>, files: map<string, string>, sources: seq<Source>, k: nat)
    requires k < |sources| && DistinctIds(sources)
    ensures Existing(Run(w, last, files, sources).index, sources[k].id) ==
      Added(w, last, Run(w, last, files, sources[..k]), sources[k], Answer(w, sources, k))
  {
    var n := |sources| - 1;
    if k < n {
      FoundEarlier(w, last, files, sources, k);
      FoundAsAdded(w, last, files, sources[..n], k);
      PrefixAnswers(w, sources, n, k);
      SliceTwice(sources, n, k);
    } else {
      FoundLast(w, last, files, sources, sources[k].id);
      LastIsNew(w, last, files, sources);
    }
  }

  lemma FoundEarlier(w: World, last: seq<Entry>, files: map<string, string>, sources: seq<Source>, k: nat)
    requires k < |sources| - 1 && DistinctIds(sources)
    ensures Existing(Run(w, last, files, sources).index, sources[k].id) ==
      Existing(Run(w, last, files, sources[..|sources|-1]).index, sources[k].id)
  {
    FoundLast(w, last, files, sources, sources[k].id);
    assert sources[|sources|-1].id != sources[k].id;
  }

  lemma FoundLast(w: World, last: seq<Entry>, files: map<string, string>, sources: seq<Source>, id: string)
    requires sources != []
    ensures var n := |sources| - 1; var s := Run(w, last, files, sources[..n]); var added := Added(w, last, s, sources[n], Answer(w, sources, n));
      Existing(Run(w, last, files, sources).index, id) ==
        if added.Some? && sources[n].id == id then added else Existing(s.index, id)
  {
    var n := |sources| - 1;
    FoundInStep(w, last, Run(w, last, files, sources[..n]), sources[n], Answer(w, sources, n), id);
  }

  // --- What is asked, and what is written down ---

  /** The XML address is asked for where there is one. */
  lemma XmlIsPreferred(w: World, sources: seq<Source>, k: nat)
    requires k < |sources|
    ensures sources[k].xmlUrl.Some? ==> Answer(w, sources, k) == w.fetch(k, sources[k].xmlUrl.value)
    ensures sources[k].xmlUrl.None? ==> Answer(w, sources, k) == w.fetch(k, sources[k].url)
  {
  }

  /** The last entry of an id counts. */
  ghost predicate IsLastEntry(index: seq<Entry>, k: int, id: string) {
    0 <= k < |index| && index[k].source.id == id && forall j :: k < j < |index| ==> index[j].source.id != id
  }

  lemma {:induction false} ExistingIsTheLast(index: seq<Entry>, id: string, e: Entry)
    ensures Existing(index, id) == Some(e) <==> exists k :: IsLastEntry(index, k, id) && index[k] == e
  {
    if index != [] {
      var n := |index| - 1;
      ExistingIsTheLast(index[..n], id, e);
      if index[n].source.id == id {
        assert IsLastEntry(index, n, id);
      } else {
        assert forall k :: IsLastEntry(index, k, id) <==> IsLastEntry(index[..n], k, id) by {
          assert forall k :: 0 <= k < n ==> index[..n][k] == index[k];
        }
      }
    }
  }

  ghost predicate IsLetterOrDigit(c: int) {
    ('A' as int <= c <= 'Z' as int) || ('a' as int <= c <= 'z' as int) || ('0' as int <= c <= '9' as int)
  }

  ghost predicate IsWritten(unit: int, c: char) {
    c == if IsLetterOrDigit(unit) || unit == 0x2D || unit == 0x2E || unit == 0x5F then unit as char else '_'
  }

  /** Where a document is stored: the id with its letters, digits, hyphens, dots and underscores, and
      an underscore for every other code unit; and the extension. */
  lemma PathIsSpelled(id: string, x: Extension) returns (name: string)
    ensures |name| == |Units(id)| && forall i :: 0 <= i < |name| ==> IsWritten(Units(id)[i], name[i])
    ensures LocalPath(id, x) ==
      "sources/downloaded/" + (name + match x { case Xml => ".xml" case Pdf => ".pdf" case Html => ".html" })
  {
    name := Sanitized(id);
    Regroup(name, ".", Suffix(x));
    assert "." + "xml" == ".xml" && "." + "pdf" == ".pdf" && "." + "html" == ".html";
  }

  /** How often the clock has been asked: once for each document that is new or has changed. */
  ghost predicate AsksClock(w: World, last: seq<Entry>, source: Source, reply: Reply) {
    reply.Accepted? && !IsUnchanged(w, Existing(last, source.id), reply.body)
  }

  ghost function ClockCalls(w: World, last: seq<Entry>, sources: seq<Source>): nat {
    if sources == [] then 0
    else
      var n := |sources| - 1;
      ClockCalls(w, last, sources[..n]) + if AsksClock(w, last, sources[n], Answer(w, sources, n)) then 1 else 0
  }

  lemma {:induction false} TicksAreCalls(w: World, last: seq<Entry>, files: map<string, string>, sources: seq<Source>)
    ensures Run(w, last, files, sources).ticks == ClockCalls(w, last, sources)
  {
    if sources != [] {
      TicksAreCalls(w, last, files, sources[..|sources|-1]);
    }
  }

  /** A download is dated by the clock, unless the last entry of its id has the same hash: then it
      keeps that entry's date. The clock goes on with every date that it gives. */
  lemma DownloadsAreDated(w: World, last: seq<Entry>, files: map<string, string>, sources: seq<Source>, k: nat)
    requires k < |sources| && Answer(w, sources, k).Accepted?
    ensures var e := Added(w, last, Run(w, last, files, sources[..k]), sources[k], Answer(w, sources, k)).value;
      var was := Existing(last, sources[k].id);
      e.downloadedAt == if was.Some? && was.value.sha256 == w.sha256(Answer(w, sources, k).body) then was.value.downloadedAt
        else w.now(ClockCalls(w, last, sources[..k]))
  {
    TicksAreCalls(w, last, files, sources[..k]);
  }

  /** The same network and hash function under another clock. */
  ghost predicate AnswersAlike(w: World, v: World) {
    v.fetch == w.fetch && v.sha256 == w.sha256 && v.byteLength == w.byteLength
  }

  /** A source brings the same entry again, and the clock is not asked. */
  lemma SameAgain(w: World, v: World, last: seq<Entry>, s: State, source: Source, reply: Reply, index: seq<Entry>, q: State)
    requires AnswersAlike(w, v) && Existing(index, source.id) == Added(w, last, s, source, reply)
    requires s.files.Keys <= q.files.Keys
    ensures Added(v, index, q, source, reply) == Added(w, last, s, source, reply)
    ensures Step(v, index, q, source, reply).ticks == q.ticks
  {
  }

  lemma FilesRemain(w: World, v: World, last: seq<Entry>, files: map<string, string>, sources: seq<Source>, k: nat)
    requires k <= |sources|
    ensures var r := Run(w, last, files, sources);
      Run(w, last, files, sources[..k]).files.Keys <= Run(v, r.index, r.files, sources[..k]).files.Keys
  {
    var r := Run(w, last, files, sources);
    FilesAreWritten(w, last, files, sources);
    FilesAreWritten(w, last, files, sources[..k]);
    FilesAreWritten(v, r.index, r.files, sources[..k]);
    FilesGrow(w, sources, k);
  }

  lemma SameStep(w: World, v: World, last: seq<Entry>, s: State, source: Source, reply: Reply, index: seq<Entry>, q: State)
    requires AnswersAlike(w, v) && Existing(index, source.id) == Added(w, last, s, source, reply)
    requires s.files.Keys <= q.files.Keys && q.index == s.index && q.errors == s.errors
    ensures var x, y := Step(v, index, q, source, reply), Step(w, last, s, source, reply);
      x.index == y.index && x.errors == y.errors && x.ticks == q.ticks
  {
    SameAgain(w, v, last, s, source, reply, index, q);
    AddedIsAppended(w, last, s, source, reply);
    AddedIsAppended(v, index, q, source, reply);
  }

  lemma {:induction false} RerunFollows(w: World, v: World, last: seq<Entry>, files: map<string, string>, sources: seq<Source>, k: nat)
    requires AnswersAlike(w, v) && DistinctIds(sources) && k <= |sources|
    ensures var r, p := Run(w, last, files, sources), Run(w, last, files, sources[..k]);
      var q := Run(v, r.index, r.files, sources[..k]);
      q.index == p.index && q.errors == p.errors && q.ticks == 0
  {
    if k > 0 {
      var r, p := Run(w, last, files, sources), Run(w, last, files, sources[..k-1]);
      var q := Run(v, r.index, r.files, sources[..k-1]);
      RerunFollows(w, v, last, files, sources, k - 1);
      RunOneMore(w, last, files, sources, k - 1);
      RunOneMore(v, r.index, r.files, sources, k - 1);
      FoundAsAdded(w, last, files, sources, k - 1);
      FilesRemain(w, v, last, files, sources, k - 1);
      SameStep(w, v, last, p, sources[k-1], Answer(w, sources, k - 1), r.index, q);
    }
  }

  lemma {:induction false} SameWrites(w: World, v: World, sources: seq<Source>)
    requires AnswersAlike(w, v)
    ensures Written(w, sources) == Written(v, sources)
  {
    if sources != [] {
      SameWrites(w, v, sources[..|sources|-1]);
    }
  }

  /** Rerunning on the same answers returns the same index, dates included, whatever the clock
      says, reports the same errors, and leaves the files as they are. */
  lemma RerunChangesNothing(w: World, v: World, last: seq<Entry>, files: map<string, string>, sources: seq<Source>)
    requires AnswersAlike(w, v) && DistinctIds(sources)
    ensures var r := Run(w, last, files, sources);
      var q := Run(v, r.index, r.files, sources);
      q.index == r.index && q.errors == r.errors && q.files == r.files
  {
    var r := Run(w, last, files, sources);
    RerunFollows(w, v, last, files, sources, |sources|);
    Whole(sources);
    FilesAreWritten(w, last, files, sources);
    FilesAreWritten(v, r.index, r.files, sources);
    SameWrites(w, v, sources);
  }

  /** An entry's date changes only with its hash. */
  lemma {:induction false} DatesChangeWithContent(w: World, last: seq<Entry>, files: map<string, string>, sources: seq<Source>, e: Entry)
    requires e in Run(w, last, files, sources).index && Existing(last, e.source.id).Some?
    requires Existing(last, e.source.id).value.sha256 == e.sha256
    ensures e.downloadedAt == Existing(last, e.source.id).value.downloadedAt
  {
    if sources != [] {
      var n := |sources| - 1;
      var front := sources[..n];
      AddedIsAppended(w, last, Run(w, last, files, front), sources[n], Answer(w, sources, n));
      if e in Run(w, last, files, front).index {
        DatesChangeWithContent(w, last, files, front, e);
      }
    }
  }
}
