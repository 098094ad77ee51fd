/** The directory of one model in the cache, as a value: what its links mean, what trimming may do
    to it, and what its completion marker says about the files of a revision
    (installer/internal/huggingface/cache/cache.go). */
module CacheDisk {
  import opened Wrappers
  import opened GoText
  import opened FileSelect

  datatype Node = Link(blob: string) | Plain

  /** One snapshot directory: its files and its directories, by path. */
  datatype Snapshot = Snapshot(files: map<string, Node>, dirs: set<string>)

  datatype Disk = Disk(
    snapshots: map<string, Snapshot>,
    blobs: Option<map<string, nat>>,   // name to size; None when there is no blobs directory
    ref: Option<string>,               // refs/main
    sentinel: Option<string>)          // the completion marker

  // ----- what links mean -----

  predicate Under(path: string, dir: string) {
    dir + "/" <= path
  }

  predicate Resolves(node: Node, blobs: Option<map<string, nat>>) {
    node.Link? ==> blobs.Some? && node.blob in blobs.value
  }

  ghost predicate NoDangling(d: Disk) {
    forall rev, path :: rev in d.snapshots && path in d.snapshots[rev].files ==>
      Resolves(d.snapshots[rev].files[path], d.blobs)
  }

  /** Nothing was added to a snapshot. */
  ghost predicate Shrunk(before: Snapshot, after: Snapshot) {
    && after.dirs <= before.dirs
    && forall path :: path in after.files ==> path in before.files && after.files[path] == before.files[path]
  }

  /** Only removals, and none that a link still there depended on. */
  ghost predicate Trimmed(before: Disk, after: Disk) {
    && after.ref == before.ref && after.sentinel == before.sentinel
    && (forall rev :: rev in after.snapshots ==>
          rev in before.snapshots && Shrunk(before.snapshots[rev], after.snapshots[rev]))
    && (forall rev, path | rev in after.snapshots && path in after.snapshots[rev].files ::
          Resolves(after.snapshots[rev].files[path], before.blobs) ==>
            Resolves(after.snapshots[rev].files[path], after.blobs))
  }

  lemma TrimmedTransitive(a: Disk, b: Disk, c: Disk)
    requires Trimmed(a, b) && Trimmed(b, c)
    ensures Trimmed(a, c)
  {
    forall rev, path | rev in c.snapshots && path in c.snapshots[rev].files
                       && Resolves(c.snapshots[rev].files[path], a.blobs)
      ensures Resolves(c.snapshots[rev].files[path], c.blobs)
    {
      assert Shrunk(b.snapshots[rev], c.snapshots[rev]);
      assert b.snapshots[rev].files[path] == c.snapshots[rev].files[path];
    }
  }

  /** Wherever trimming stops, no link dangles that did not dangle before. */
  lemma TrimmedKeepsLinks(before: Disk, after: Disk)
    requires Trimmed(before, after) && NoDangling(before)
    ensures NoDangling(after)
  {
    forall rev, path | rev in after.snapshots && path in after.snapshots[rev].files
      ensures Resolves(after.snapshots[rev].files[path], after.blobs)
    {
      assert Shrunk(before.snapshots[rev], after.snapshots[rev]);
      assert Resolves(before.snapshots[rev].files[path], before.blobs);
    }
  }

  ghost predicate HasFileUnder(files: map<string, Node>, dir: string) {
    exists path :: path in files && Under(path, dir)
  }

  /** The directories that still lead to a file. */
  ghost function UsedDirs(files: map<string, Node>, dirs: set<string>): set<string> {
    set d | d in dirs && HasFileUnder(files, d)
  }

  /** The part of a snapshot the server loads. */
  ghost function Selected(s: Snapshot): map<string, Node> {
    map path | path in s.files && path in Kept(s.files.Keys) :: s.files[path]
  }

  function LinkedBlobs(files: map<string, Node>): set<string> {
    set path | path in files && files[path].Link? :: files[path].blob
  }

  function WithFiles(d: Disk, revision: string, files: map<string, Node>): Disk
    requires revision in d.snapshots
  {
    d.(snapshots := d.snapshots[revision := d.snapshots[revision].(files := files)])
  }

  function WithoutDir(d: Disk, revision: string, dir: string): Disk
    requires revision in d.snapshots
  {
    d.(snapshots := d.snapshots[revision := d.snapshots[revision].(dirs := d.snapshots[revision].dirs - {dir})])
  }

  predicate Empty(s: Snapshot, dir: string) {
    && (forall p :: p in s.files.Keys ==> !Under(p, dir))
    && (forall d :: d in s.dirs ==> !Under(d, dir))
  }

  /** The pinned snapshot without some of its files. */
  function WithoutFiles(d: Disk, revision: string, gone: set<string>): Disk
    requires revision in d.snapshots
  {
    WithFiles(d, revision, d.snapshots[revision].files - gone)
  }

  lemma WithoutFilesSteps(d: Disk, revision: string, gone: set<string>, path: string)
    requires revision in d.snapshots
    ensures Trimmed(d, WithoutFiles(d, revision, gone))
    ensures WithoutFiles(d, revision, {}) == d
    ensures WithoutFiles(WithoutFiles(d, revision, gone), revision, {path}) ==
              WithoutFiles(d, revision, gone + {path})
  {
    var files := d.snapshots[revision].files;
    assert files - {} == files;
    assert files - gone - {path} == files - (gone + {path});
  }

  function Restrict<V>(m: map<string, V>, keys: set<string>): map<string, V> {
    map k | k in m && k in keys :: m[k]
  }

  lemma RestrictToAll<V>(m: map<string, V>, keys: set<string>)
    requires m.Keys <= keys
    ensures Restrict(m, keys) == m
  {
  }

  lemma RestrictLess<V>(m: map<string, V>, keys: set<string>, k: string)
    ensures Restrict(m, keys) - {k} == Restrict(m, keys - {k})
  {
  }

  /** Going through the directories children first, the next one can be removed exactly when no
      kept file is below it. */
  lemma RemovableIffUnused(now: Snapshot, start: set<string>, dirs: seq<string>, i: nat)
    requires i < |dirs| && SetOf(dirs) == start
    requires forall i, j :: 0 <= i < j < |dirs| ==> dirs[i] != dirs[j] && !Under(dirs[i], dirs[j])
    requires now.dirs == set d | d in start && (d in dirs[..i + 1] || HasFileUnder(now.files, d))
    ensures Empty(now, dirs[i]) <==> !HasFileUnder(now.files, dirs[i])
    ensures dirs[i] in now.dirs && dirs[i] !in dirs[..i]
  {
    assert dirs[i] in SetOf(dirs) && dirs[i] in dirs[..i + 1];
    if !HasFileUnder(now.files, dirs[i]) {
      forall d | d in now.dirs ensures !Under(d, dirs[i]) {
        if HasFileUnder(now.files, d) {
          var p :| p in now.files && Under(p, d);
          UnderTransitive(p, d, dirs[i]);
        }
      }
    }
  }

  lemma UnderTransitive(path: string, dir: string, top: string)
    requires Under(path, dir)
    ensures Under(dir, top) ==> Under(path, top)
  {
  }

  predicate Shortest(d: string, names: set<string>) {
    forall e :: e in names ==> |d| <= |e|
  }

  lemma {:induction false} ShortestOf(names: set<string>) returns (shortest: string)
    requires names != {}
    ensures shortest in names && Shortest(shortest, names)
  {
    var first :| first in names;
    var rest := names - {first};
    shortest := first;
    if rest != {} {
      var other := ShortestOf(rest);
      if |other| < |first| { shortest := other; }
    }
    forall e | e in names ensures |shortest| <= |e| {
      assert e == first || e in rest;
    }
  }

  ghost predicate HasRef(d: Disk) {
    d.ref.Some? && TrimSpace(d.ref.value) != ""
  }

  /** There is a revision the ref can name. */
  ghost predicate CanRef(d: Disk) {
    HasRef(d) || d.snapshots != map[]
  }

  /** What a trimmed cache holds: the selected files of the pinned revision as they were, only
      directories that lead to one of them, only the blobs they link to, and nothing else. */
  ghost predicate IsTrimmedTo(revision: string, before: Disk, after: Disk, exactDirs: bool)
    requires revision in before.snapshots
  {
    && after.snapshots.Keys == {revision}
    && after.snapshots[revision].files == Selected(before.snapshots[revision])
    && (exactDirs ==>
          after.snapshots[revision].dirs
          == UsedDirs(after.snapshots[revision].files, before.snapshots[revision].dirs))
    && after.blobs == if before.blobs.None? then None
                      else Some(Restrict(before.blobs.value, LinkedBlobs(after.snapshots[revision].files)))
  }

  // ----- the revisions of a repository -----

  /** The files of every revision, by the name its snapshot has. */
  type Repo = map<string, set<string>>

  ghost predicate CleanRepo(repo: Repo) {
    forall rev, path :: rev in repo && path in repo[rev] ==> Clean(path)
  }

  /** Snapshots are named by commits, whose names have one length: a pin that is cut short does not
      name another one. */
  ghost predicate NamesFit(repo: Repo, revision: string) {
    forall rev :: rev in repo && rev <= revision && rev != "" ==> rev == revision
  }

  /** All the files the server loads, and no file the revision does not have. */
  ghost predicate Whole(s: Snapshot, all: set<string>) {
    Kept(all) <= s.files.Keys <= all
  }

  /** The revision the completion marker names, if it names one. */
  ghost function Recorded(d: Disk): string {
    if d.sentinel.Some? then TrimSpace(d.sentinel.value) else ""
  }

  /** complete: the marker names this revision, or it is blank and this revision has a snapshot. */
  ghost predicate Marked(d: Disk, revision: string) {
    d.sentinel.Some? && if Recorded(d) != "" then Recorded(d) == revision else revision in d.snapshots
  }

  ghost predicate Within(repo: Repo, d: Disk) {
    forall rev :: rev in d.snapshots ==> rev in repo && d.snapshots[rev].files.Keys <= repo[rev]
  }

  /** A marker that names a snapshot vouches for it. */
  ghost predicate Honest(repo: Repo, d: Disk) {
    Recorded(d) != "" && Recorded(d) in repo ==>
      Recorded(d) in d.snapshots && Whole(d.snapshots[Recorded(d)], repo[Recorded(d)])
  }

  ghost predicate Sound(repo: Repo, d: Disk) {
    Within(repo, d) && Honest(repo, d)
  }

  /** Writing the marker for a revision failed or was cut short. */
  ghost predicate MarkerLeft(before: Option<string>, revision: string, after: Option<string>) {
    after == before || (after.Some? && after.value <= revision)
  }

  /** What a download did to the model directory: the snapshot it filled, and all that is there
      afterwards. */
  datatype Fetched = Fetched(
    succeeded: bool, into: string, snapshots: map<string, Snapshot>, blobs: Option<map<string, nat>>)
  {
    function On(d: Disk): Disk {
      d.(snapshots := snapshots, blobs := blobs)
    }

    /** What is assumed of the command line client: it adds files of a revision to the snapshot of
        that revision and to no other, and succeeds only with all the files it was asked for. */
    ghost predicate Fits(repo: Repo, before: Disk, revision: string, plan: seq<string>) {
      && (revision in repo ==> into == revision)
      && (forall rev :: rev in snapshots && rev != into ==> rev in before.snapshots)
      && (forall rev :: rev in before.snapshots && rev != into ==>
            rev in snapshots && snapshots[rev] == before.snapshots[rev])
      && (into in before.snapshots ==>
            into in snapshots && before.snapshots[into].files.Keys <= snapshots[into].files.Keys)
      && (into in snapshots ==> into in repo && snapshots[into].files.Keys <= repo[into])
      && (succeeded ==> into in snapshots && SetOf(plan) <= snapshots[into].files.Keys)
    }
  }

  function NormalizeRevision(revision: string): string {
    var trimmed := TrimSpace(revision);
    if trimmed == "" then "main" else trimmed
  }

  lemma NormalizedIsTrimmed(revision: string)
    ensures NoOuterSpace(NormalizeRevision(revision)) && NormalizeRevision(revision) != ""
    ensures TrimSpace(NormalizeRevision(revision)) == NormalizeRevision(revision)
  {
    TrimSpaceTrims(revision);
    TrimSpaceKeeps(NormalizeRevision(revision));
  }

  /** A pin without outer spaces stays itself, blank or with spaces around it or not at all: only a
      blank one becomes the default branch. */
  lemma NormalizeRevisionMeans(pin: string, before: string, after: string)
    requires NoOuterSpace(pin) && AllSpace(before) && AllSpace(after)
    ensures NormalizeRevision(before + pin + after) == if pin == "" then "main" else pin
  {
    TrimSpaceStrips(before, pin, after);
  }

  // ----- what a marker vouches for -----

  /** Of files of one revision, trimming leaves exactly those of the revision that the server
      loads if and only if those were all there: a whole download, a selected one and anything in
      between trim to the same. */
  lemma TrimmedFilesAreTheSelectedOnes(all: set<string>, s: Snapshot)
    requires s.files.Keys <= all
    requires forall p :: p in all ==> Clean(p)
    ensures Selected(s).Keys == Kept(all) <==> Whole(s, all)
  {
    if Whole(s, all) { SelectionIsStable(all, s.files.Keys); }
  }

  lemma FetchKeepsSound(repo: Repo, before: Disk, revision: string, plan: seq<string>, f: Fetched)
    requires Sound(repo, before) && f.Fits(repo, before, revision, plan)
    ensures Sound(repo, f.On(before))
  {
  }

  /** The marker is written once the snapshot is whole, and cut short it names no other one. */
  lemma CompleteKeepsSound(repo: Repo, before: Disk, after: Disk, revision: string)
    requires Sound(repo, before) && NamesFit(repo, revision) && NoOuterSpace(revision)
    requires revision in repo ==> revision in before.snapshots && Whole(before.snapshots[revision], repo[revision])
    requires after == before.(ref := after.ref, sentinel := after.sentinel)
    requires MarkerLeft(before.sentinel, revision, after.sentinel)
    ensures Sound(repo, after)
  {
    if after.sentinel != before.sentinel {
      TrimSpaceOfABeginning(revision, after.sentinel.value);
      assert Recorded(after) <= revision;
    }
  }

  /** The selected files of a snapshot are still there. */
  ghost predicate SelectedStay(before: Disk, after: Disk, revision: string) {
    revision in before.snapshots ==>
      revision in after.snapshots && Selected(before.snapshots[revision]).Keys <= after.snapshots[revision].files.Keys
  }

  /** Wherever trimming stops, the marker it relied on is still right. */
  lemma TrimKeepsSound(repo: Repo, before: Disk, after: Disk, revision: string)
    requires Sound(repo, before) && Marked(before, revision)
    requires Trimmed(before, after) && SelectedStay(before, after, revision)
    ensures Sound(repo, after)
  {
  }

  /** Every cache with this marker that passes for the revision trims to what the server loads of
      the revision. */
  ghost predicate Vouches(repo: Repo, marker: string, revision: string)
    requires revision in repo
  {
    forall d: Disk :: Sound(repo, d) && d.sentinel == Some(marker) && Marked(d, revision) ==>
      revision in d.snapshots && Selected(d.snapshots[revision]).Keys == Kept(repo[revision])
  }

  /** What passes for complete is complete exactly when the marker names a revision; a blank one
      vouches only for a revision of which the server loads nothing. */
  lemma VouchesIffItNames(repo: Repo, marker: string, revision: string)
    requires CleanRepo(repo) && revision in repo
    ensures Vouches(repo, marker, revision) <==> TrimSpace(marker) != "" || Kept(repo[revision]) == {}
  {
    if TrimSpace(marker) != "" || Kept(repo[revision]) == {} {
      forall d: Disk | Sound(repo, d) && d.sentinel == Some(marker) && Marked(d, revision)
        ensures revision in d.snapshots && Selected(d.snapshots[revision]).Keys == Kept(repo[revision])
      {
        TrimmedFilesAreTheSelectedOnes(repo[revision], d.snapshots[revision]);
      }
    } else {
      var d := Disk(map[revision := Snapshot(map[], {})], None, None, Some(marker));
      assert Sound(repo, d) && Marked(d, revision);
      assert Selected(d.snapshots[revision]).Keys == {};
    }
  }

  /** The way there: under a blank marker the revision is pinned for the first time, its download is
      cut short with some selected file missing, and from then on it passes for complete, although
      no trimming makes it so. */
  lemma AShortDownloadPasses(repo: Repo, before: Disk, revision: string, plan: seq<string>, some: set<string>)
    returns (f: Fetched)
    requires CleanRepo(repo) && Sound(repo, before) && revision in repo
    requires before.sentinel.Some? && Recorded(before) == "" && revision !in before.snapshots
    requires some <= repo[revision] && !(Kept(repo[revision]) <= some)
    ensures !Marked(before, revision) && !f.succeeded && f.Fits(repo, before, revision, plan)
    ensures Marked(f.On(before), revision) && f.snapshots[revision].files.Keys == some
    ensures Selected(f.snapshots[revision]).Keys != Kept(repo[revision])
  {
    var files := map path | path in some :: Plain;
    f := Fetched(false, revision, before.snapshots[revision := Snapshot(files, {})], before.blobs);
    TrimmedFilesAreTheSelectedOnes(repo[revision], f.snapshots[revision]);
  }

  /** And from nothing: the first pin is downloaded but writing its marker is cut short, then the
      pin moves and the second download is cut short. */
  lemma TwoCutsAndAnIncompleteModelPasses(
    repo: Repo, first: string, second: string, plan: seq<string>, some: set<string>)
    returns (whole: Fetched, marked: Disk, short: Fetched)
    requires CleanRepo(repo) && first in repo && second in repo && first != second
    requires some <= repo[second] && !(Kept(repo[second]) <= some)
    ensures var empty := Disk(map[], None, None, None);
            && Sound(repo, empty) && !Marked(empty, first)
            && whole.succeeded && (SetOf(plan) <= repo[first] ==> whole.Fits(repo, empty, first, plan))
            && marked == whole.On(empty).(ref := Some(first), sentinel := marked.sentinel)
            && MarkerLeft(None, first, marked.sentinel)
            && !Marked(marked, second) && !short.succeeded && short.Fits(repo, marked, second, plan)
            && Marked(short.On(marked), second) && Sound(repo, short.On(marked))
            && Selected(short.snapshots[second]).Keys != Kept(repo[second])
  {
    var files := map path | path in repo[first] :: Plain;
    whole := Fetched(true, first, map[first := Snapshot(files, {})], None);
    marked := Disk(whole.snapshots, None, Some(first), Some(""));
    short := AShortDownloadPasses(repo, marked, second, plan, some);
    FetchKeepsSound(repo, marked, second, plan, short);
  }
}
