/** The model cache of installer/internal/huggingface/cache/cache.go and the order in which
    installer/internal/huggingface/huggingface.go uses it, on a file system whose operations may
    fail and under a process that may die before or after any of them. */
module Cache {
  import opened Wrappers
  import opened GoText
  import opened FileSelect
  import opened StringOrder
  import opened CacheDisk

  datatype CacheError =
    | BadModelID | CacheDirFailed | RefFailed | ListFailed | RemoveFailed | SentinelFailed | MetadataFailed
    | DownloadFailed

  class ModelDir {
    var disk: Disk
    ghost var faults: nat

    constructor (disk: Disk)
      ensures this.disk == disk && faults == 0
    {
      this.disk, this.faults := disk, 0;
    }

    method Goes() returns (wrong: bool)
      modifies this`faults
      ensures faults == old(faults) + if wrong then 1 else 0
    {
      wrong := *;
      if wrong { faults := faults + 1; }
    }

    // ----- refs and the marker -----

    /** The name ReadDir lists first. */
    method FirstSnapshot() returns (first: Option<string>)
      ensures first.None? <==> disk.snapshots == map[]
      ensures first.Some? ==> first.value in disk.snapshots && IsLeast(first.value, disk.snapshots.Keys)
    {
      var names := SortedElements(disk.snapshots.Keys);
      if names == [] {
        assert forall rev :: rev in disk.snapshots.Keys ==> rev in names;
        return None;
      }
      forall e | e in disk.snapshots.Keys ensures Le(names[0], e) {
        var i :| 0 <= i < |names| && names[i] == e;
        if i == 0 { LeReflexive(e); }
      }
      assert names[0] in names && names[0] in disk.snapshots;
      return Some(names[0]);
    }

    method WriteRef(target: string) returns (r: Step<Result<(), CacheError>>)
      modifies this`disk, this`faults
      ensures old(faults) <= faults
      ensures disk == old(disk).(ref := disk.ref)
      ensures r.Alive? && r.value.Ok? ==> disk.ref == Some(target)
      ensures faults == old(faults) ==> r.Alive? && r.value.Ok?
    {
      var fails := Goes();
      if fails {
        var leftover: Option<string> := *;
        disk := disk.(ref := leftover);
        var alive: bool := *;
        return if alive then Alive(Err(RefFailed)) else Died;
      }
      disk := disk.(ref := Some(target));
      var dies := Goes();
      return if dies then Died else Alive(Ok(()));
    }

    /** EnsureRef: afterwards the ref names the pinned snapshot whenever that is there. */
    method EnsureRef(revision: string) returns (r: Step<Result<(), CacheError>>)
      modifies this`disk, this`faults
      ensures old(faults) <= faults
      ensures disk == old(disk).(ref := disk.ref)
      ensures r.Alive? && r.value.Ok? && revision in disk.snapshots ==> disk.ref == Some(revision)
      ensures r.Alive? && r.value.Ok? && revision !in disk.snapshots ==>
                if HasRef(old(disk)) then disk.ref == old(disk.ref)
                else disk.ref.Some? && disk.ref.value in disk.snapshots && IsLeast(disk.ref.value, disk.snapshots.Keys)
      ensures faults == old(faults) ==> r.Alive? && (r.value.Ok? <==> CanRef(old(disk)))
    {
      var target := revision;
      if revision !in disk.snapshots {
        if disk.ref.Some? && TrimSpace(disk.ref.value) != "" { return Alive(Ok(())); }
        var fails := Goes();
        if fails { return Alive(Err(ListFailed)); }
        var first := FirstSnapshot();
        if first.None? { return Alive(Err(RefFailed)); }
        target := first.value;
      }
      r := WriteRef(target);
    }

    /** Prepare: the download is skipped when the marker names this revision, or is blank and there
        is a snapshot of this name. */
    method Prepare(repoID: string, revision: string) returns (r: Step<Result<bool, CacheError>>)
      modifies this`disk, this`faults
      ensures old(faults) <= faults
      ensures disk == old(disk).(ref := disk.ref)
      ensures r.Alive? && r.value.Ok? ==>
                && TrimSpace(repoID) != "" && (r.value.value <==> Marked(old(disk), revision))
                && (r.value.value && revision in disk.snapshots ==> disk.ref == Some(revision))
      ensures !Marked(old(disk), revision) ==> disk == old(disk)
      ensures faults == old(faults) ==>
                && r.Alive?
                && (r.value.Ok? <==> TrimSpace(repoID) != "" && (!Marked(old(disk), revision) || CanRef(old(disk))))
    {
      if TrimSpace(repoID) == "" { return Alive(Err(BadModelID)); }
      var complete := false;
      if disk.sentinel.Some? {
        var recorded := TrimSpace(disk.sentinel.value);
        complete := if recorded != "" then recorded == revision else revision in disk.snapshots;
      }
      if complete {
        var ensured :- EnsureRef(revision);
        return Alive(if ensured.Err? then Err(ensured.error) else Ok(true));
      }
      var fails := Goes();
      return Alive(if fails then Err(CacheDirFailed) else Ok(false));
    }

    /** Complete: the marker is written last, so a new marker implies a ref; cut short, it is a
        beginning of the name of the revision. */
    method Complete(revision: string) returns (r: Step<Result<(), CacheError>>)
      modifies this`disk, this`faults
      ensures old(faults) <= faults
      ensures disk == old(disk).(ref := disk.ref, sentinel := disk.sentinel)
      ensures MarkerLeft(old(disk).sentinel, revision, disk.sentinel)
      ensures disk.sentinel != old(disk.sentinel) && revision in disk.snapshots ==> disk.ref == Some(revision)
      ensures r.Alive? && r.value.Ok? ==>
                && disk.sentinel == Some(revision)
                && (revision in disk.snapshots ==> disk.ref == Some(revision))
      ensures faults == old(faults) ==> r.Alive? && (r.value.Ok? <==> CanRef(old(disk)))
    {
      var ensured :- EnsureRef(revision);
      if ensured.Err? { return Alive(ensured); }
      var fails := Goes();
      if fails {
        var touched: bool, written: nat := *, *;
        if touched {
          disk := disk.(sentinel := Some(if written < |revision| then revision[..written] else revision));
        }
        var alive: bool := *;
        return if alive then Alive(Err(SentinelFailed)) else Died;
      }
      disk := disk.(sentinel := Some(revision));
      var dies := Goes();
      return if dies then Died else Alive(Ok(()));
    }

    // ----- trimming the pinned snapshot -----

    /** The files of a snapshot, in some order. */
    method ListFiles(files: map<string, Node>) returns (paths: seq<string>)
      ensures SetOf(paths) == files.Keys
      ensures forall i, j :: 0 <= i < j < |paths| ==> paths[i] != paths[j]
    {
      paths := [];
      var rest := files.Keys;
      while rest != {}
        invariant rest <= files.Keys && SetOf(paths) == files.Keys - rest
        invariant forall i, j :: 0 <= i < j < |paths| ==> paths[i] != paths[j]
      {
        var p :| p in rest;
        rest := rest - {p};
        forall i | 0 <= i < |paths| ensures paths[i] != p { assert paths[i] in SetOf(paths); }
        assert SetOf(paths + [p]) == SetOf(paths) + {p};
        paths := paths + [p];
      }
    }

    /** The directories of a snapshot with parents before children, as WalkDir lists them. */
    method ListDirs(dirs: set<string>) returns (list: seq<string>)
      ensures SetOf(list) == dirs
      ensures forall i, j :: 0 <= i < j < |list| ==> list[i] != list[j] && !Under(list[i], list[j])
    {
      list := [];
      var rest := dirs;
      while rest != {}
        invariant rest <= dirs && SetOf(list) == dirs - rest
        invariant forall i :: 0 <= i < |list| ==> Shortest(list[i], rest)
        invariant forall i, j :: 0 <= i < j < |list| ==> list[i] != list[j] && !Under(list[i], list[j])
      {
        ghost var shortest := ShortestOf(rest);
        var d :| d in rest && Shortest(d, rest);
        forall i | 0 <= i < |list| ensures list[i] != d && !Under(list[i], d) {
          assert list[i] in SetOf(list) && Shortest(list[i], rest);
        }
        ghost var before := rest;
        rest := rest - {d};
        assert SetOf(list + [d]) == SetOf(list) + {d};
        forall i | 0 <= i <= |list| ensures Shortest((list + [d])[i], rest) {
          assert Shortest((list + [d])[i], before);
        }
        list := list + [d];
      }
    }

    method RemoveFile(revision: string, path: string) returns (r: Step<Result<(), CacheError>>)
      requires revision in disk.snapshots && path in disk.snapshots[revision].files
      modifies this`disk, this`faults
      ensures old(faults) <= faults
      ensures disk == old(disk) || disk == WithoutFiles(old(disk), revision, {path})
      ensures r.Alive? && r.value.Ok? ==> disk == WithoutFiles(old(disk), revision, {path})
      ensures faults == old(faults) ==> r.Alive? && r.value.Ok?
    {
      var dies := Goes();
      if dies { return Died; }
      var fails := Goes();
      if fails { return Alive(Err(RemoveFailed)); }
      disk := WithoutFiles(disk, revision, {path});
      dies := Goes();
      return if dies then Died else Alive(Ok(()));
    }

    /** os.Remove on a directory: an empty one goes, any other stays, and the error is dropped. */
    method RemoveDir(revision: string, dir: string) returns (r: Step<()>)
      requires revision in disk.snapshots
      modifies this`disk, this`faults
      ensures old(faults) <= faults
      ensures disk == old(disk) || disk == WithoutDir(old(disk), revision, dir)
      ensures faults == old(faults) ==>
                && r.Alive?
                && disk == if Empty(old(disk).snapshots[revision], dir) then WithoutDir(old(disk), revision, dir)
                           else old(disk)
    {
      var dies := Goes();
      if dies { return Died; }
      var fails := Goes();
      if !fails && Empty(disk.snapshots[revision], dir) {
        disk := WithoutDir(disk, revision, dir);
      }
      dies := Goes();
      return if dies then Died else Alive(());
    }

    /** RemoveUnselected: of the pinned snapshot, the files the server loads stay, with the
        directories that lead to them. */
    method RemoveUnselected(revision: string) returns (r: Step<Result<(), CacheError>>)
      modifies this`disk, this`faults
      ensures old(faults) <= faults
      ensures Trimmed(old(disk), disk) && disk.blobs == old(disk).blobs
      ensures SelectedStay(old(disk), disk, revision)
      ensures disk.snapshots.Keys == old(disk).snapshots.Keys
      ensures forall rev :: rev in disk.snapshots && rev != revision ==> disk.snapshots[rev] == old(disk).snapshots[rev]
      ensures r.Alive? && r.value.Ok? && revision in disk.snapshots ==>
                && disk.snapshots[revision].files == Selected(old(disk).snapshots[revision])
                && (faults == old(faults) ==>
                      disk.snapshots[revision].dirs
                      == UsedDirs(disk.snapshots[revision].files, old(disk).snapshots[revision].dirs))
      ensures faults == old(faults) ==> r.Alive? && r.value.Ok?
    {
      if revision !in disk.snapshots { return Alive(Ok(())); }
      var fails := Goes();
      if fails { return Alive(Err(ListFailed)); }
      var dirs := ListDirs(disk.snapshots[revision].dirs);
      var removed := RemoveUnselectedFiles(revision);
      if removed.Died? { return Died; }
      if removed.value.Err? { return Alive(removed.value); }
      ghost var before := disk;
      var swept := RemoveEmptyDirs(revision, dirs);
      TrimmedTransitive(old(disk), before, disk);
      if swept.Died? { return Died; }
      r := Alive(Ok(()));
    }

    /** The files of the snapshot that the server does not load. */
    method RemoveUnselectedFiles(revision: string) returns (r: Step<Result<(), CacheError>>)
      requires revision in disk.snapshots
      modifies this`disk, this`faults
      ensures old(faults) <= faults
      ensures disk.snapshots.Keys == old(disk).snapshots.Keys
      ensures disk == WithFiles(old(disk), revision, disk.snapshots[revision].files)
      ensures Trimmed(old(disk), disk) && SelectedStay(old(disk), disk, revision)
      ensures r.Alive? && r.value.Ok? ==>
                disk.snapshots[revision].files == Selected(old(disk).snapshots[revision])
      ensures faults == old(faults) ==> r.Alive? && r.value.Ok?
    {
      var paths := ListFiles(disk.snapshots[revision].files);
      var chosen := Select(paths);
      r := RemoveFiles(revision, paths, chosen);
      assert forall p :: p in Selected(old(disk).snapshots[revision]) <==> p in SetOf(chosen);
    }

    method RemoveFiles(revision: string, paths: seq<string>, chosen: seq<string>)
      returns (r: Step<Result<(), CacheError>>)
      requires revision in disk.snapshots && SetOf(paths) == disk.snapshots[revision].files.Keys
      requires forall i, j :: 0 <= i < j < |paths| ==> paths[i] != paths[j]
      modifies this`disk, this`faults
      ensures old(faults) <= faults
      ensures disk.snapshots.Keys == old(disk).snapshots.Keys
      ensures disk == WithFiles(old(disk), revision, disk.snapshots[revision].files)
      ensures Trimmed(old(disk), disk)
      ensures forall p :: p in chosen && p in old(disk).snapshots[revision].files ==>
                p in disk.snapshots[revision].files
      ensures r.Alive? && r.value.Ok? ==>
                disk == WithoutFiles(old(disk), revision, SetOf(paths) - SetOf(chosen))
      ensures faults == old(faults) ==> r.Alive? && r.value.Ok?
    {
      ghost var gone: set<string> := {};
      WithoutFilesSteps(disk, revision, gone, "");
      for i := 0 to |paths|
        invariant old(faults) <= faults && gone == SetOf(paths[..i]) - SetOf(chosen)
        invariant disk == WithoutFiles(old(disk), revision, gone)
      {
        assert SetOf(paths[..i + 1]) == SetOf(paths[..i]) + {paths[i]};
        WithoutFilesSteps(old(disk), revision, gone, paths[i]);
        if paths[i] !in chosen {
          assert paths[i] in SetOf(paths) && paths[i] !in gone;
          WithoutFilesSteps(old(disk), revision, gone + {paths[i]}, paths[i]);
          var removed :- RemoveFile(revision, paths[i]);
          if removed.Err? { return Alive(removed); }
          gone := gone + {paths[i]};
        }
      }
      assert paths[..|paths|] == paths;
      WithoutFilesSteps(old(disk), revision, gone, "");
      r := Alive(Ok(()));
    }

    method RemoveEmptyDirs(revision: string, dirs: seq<string>) returns (r: Step<()>)
      requires revision in disk.snapshots && SetOf(dirs) == disk.snapshots[revision].dirs
      requires forall i, j :: 0 <= i < j < |dirs| ==> dirs[i] != dirs[j] && !Under(dirs[i], dirs[j])
      modifies this`disk, this`faults
      ensures old(faults) <= faults
      ensures revision in disk.snapshots && Trimmed(old(disk), disk) && disk.blobs == old(disk).blobs
      ensures disk.snapshots == old(disk).snapshots[
                revision := old(disk).snapshots[revision].(dirs := disk.snapshots[revision].dirs)]
      ensures faults == old(faults) ==>
                && r.Alive?
                && disk.snapshots[revision].dirs
                   == UsedDirs(disk.snapshots[revision].files, old(disk).snapshots[revision].dirs)
    {
      ghost var files := disk.snapshots[revision].files;
      ghost var start := disk.snapshots[revision].dirs;
      var i := |dirs|;
      while i > 0
        invariant 0 <= i <= |dirs| && old(faults) <= faults
        invariant revision in disk.snapshots && disk.snapshots[revision].dirs <= start
        invariant disk == old(disk).(snapshots := old(disk).snapshots[
                    revision := Snapshot(files, disk.snapshots[revision].dirs)])
        invariant faults == old(faults) ==>
                    disk.snapshots[revision].dirs
                    == set d | d in start && (d in dirs[..i] || HasFileUnder(files, d))
      {
        i := i - 1;
        ghost var now := disk.snapshots[revision];
        if faults == old(faults) {
          RemovableIffUnused(now, start, dirs, i);
        }
        var swept :- RemoveDir(revision, dirs[i]);
        assert dirs[..i + 1] == dirs[..i] + [dirs[i]];
      }
      r := Alive(());
    }

    // ----- pruning -----

    /** referencedBlobs */
    method ReferencedBlobs(files: map<string, Node>) returns (keep: set<string>)
      ensures keep == LinkedBlobs(files)
    {
      keep := {};
      var rest := files.Keys;
      while rest != {}
        invariant rest <= files.Keys
        invariant keep == set path | path in files && path !in rest && files[path].Link? :: files[path].blob
      {
        var p :| p in rest;
        rest := rest - {p};
        match files[p] {
          case Link(blob) => keep := keep + {blob};
          case Plain =>
        }
      }
    }

    /** os.RemoveAll on another snapshot: stopped half way, part of it is left. */
    method RemoveSnapshot(revision: string) returns (r: Step<Result<(), CacheError>>)
      requires revision in disk.snapshots
      modifies this`disk, this`faults
      ensures old(faults) <= faults
      ensures disk.blobs == old(disk).blobs && Trimmed(old(disk), disk)
      ensures forall rev :: rev in old(disk).snapshots && rev != revision ==>
                rev in disk.snapshots && disk.snapshots[rev] == old(disk).snapshots[rev]
      ensures r.Alive? && r.value.Ok? ==> revision !in disk.snapshots
      ensures faults == old(faults) ==> r.Alive? && r.value.Ok?
    {
      var dies := Goes();
      if dies { return Died; }
      var fails := Goes();
      if fails {
        var goneFiles: set<string>, goneDirs: set<string> := *, *;
        var s := disk.snapshots[revision];
        disk := disk.(snapshots := disk.snapshots[revision := Snapshot(s.files - goneFiles, s.dirs - goneDirs)]);
        var alive: bool := *;
        return if alive then Alive(Err(RemoveFailed)) else Died;
      }
      disk := disk.(snapshots := disk.snapshots - {revision});
      dies := Goes();
      return if dies then Died else Alive(Ok(()));
    }

    method RemoveOtherSnapshots(revision: string) returns (r: Step<Result<(), CacheError>>)
      requires revision in disk.snapshots
      modifies this`disk, this`faults
      ensures old(faults) <= faults && disk.blobs == old(disk).blobs && Trimmed(old(disk), disk)
      ensures revision in disk.snapshots && disk.snapshots[revision] == old(disk).snapshots[revision]
      ensures r.Alive? && r.value.Ok? ==> disk.snapshots.Keys == {revision}
      ensures faults == old(faults) ==> r.Alive? && r.value.Ok?
    {
      var others := disk.snapshots.Keys - {revision};
      while others != {}
        invariant old(faults) <= faults && disk.blobs == old(disk).blobs && Trimmed(old(disk), disk)
        invariant revision in disk.snapshots && disk.snapshots[revision] == old(disk).snapshots[revision]
        invariant others == disk.snapshots.Keys - {revision}
      {
        var rev :| rev in others;
        ghost var before := disk;
        var removed := RemoveSnapshot(rev);
        TrimmedTransitive(old(disk), before, disk);
        if removed.Died? { return Died; }
        if removed.value.Err? { return Alive(removed.value); }
        others := others - {rev};
      }
      r := Alive(Ok(()));
    }

    method RemoveBlob(blob: string) returns (r: Step<Result<(), CacheError>>)
      requires disk.blobs.Some? && blob in disk.blobs.value
      modifies this`disk, this`faults
      ensures old(faults) <= faults
      ensures disk == old(disk) || disk == old(disk).(blobs := Some(old(disk).blobs.value - {blob}))
      ensures r.Alive? && r.value.Ok? ==> disk == old(disk).(blobs := Some(old(disk).blobs.value - {blob}))
      ensures faults == old(faults) ==> r.Alive? && r.value.Ok?
    {
      var dies := Goes();
      if dies { return Died; }
      var fails := Goes();
      if fails { return Alive(Err(RemoveFailed)); }
      disk := disk.(blobs := Some(disk.blobs.value - {blob}));
      dies := Goes();
      return if dies then Died else Alive(Ok(()));
    }

    method RemoveOtherBlobs(revision: string, keep: set<string>) returns (r: Step<Result<(), CacheError>>)
      requires disk.blobs.Some? && disk.snapshots.Keys == {revision}
      requires keep == LinkedBlobs(disk.snapshots[revision].files)
      modifies this`disk, this`faults
      ensures old(faults) <= faults && Trimmed(old(disk), disk)
      ensures disk.snapshots == old(disk).snapshots
      ensures r.Alive? && r.value.Ok? ==> disk.blobs == Some(Restrict(old(disk).blobs.value, keep))
      ensures faults == old(faults) ==> r.Alive? && r.value.Ok?
    {
      ghost var all := disk.blobs.value;
      var rest := disk.blobs.value.Keys - keep;
      RestrictToAll(all, keep + rest);
      while rest != {}
        invariant old(faults) <= faults && disk == old(disk).(blobs := disk.blobs)
        invariant rest <= all.Keys - keep
        invariant disk.blobs == Some(Restrict(all, keep + rest))
      {
        var blob :| blob in rest;
        var removed := RemoveBlob(blob);
        if removed.Died? { return Died; }
        if removed.value.Err? { return Alive(removed.value); }
        RestrictLess(all, keep + rest, blob);
        assert keep + rest - {blob} == keep + (rest - {blob});
        rest := rest - {blob};
      }
      assert keep + rest == keep;
      r := Alive(Ok(()));
    }

    /** PruneOtherRevisions: what is left is the pinned snapshot and the blobs it links to. */
    method PruneOtherRevisions(revision: string) returns (r: Step<Result<(), CacheError>>)
      modifies this`disk, this`faults
      ensures old(faults) <= faults && Trimmed(old(disk), disk)
      ensures revision !in old(disk).snapshots ==> disk == old(disk)
      ensures revision in old(disk).snapshots ==>
                revision in disk.snapshots && disk.snapshots[revision] == old(disk).snapshots[revision]
      ensures r.Alive? && r.value.Ok? && revision in disk.snapshots ==>
                && disk.snapshots.Keys == {revision}
                && disk.blobs == if old(disk).blobs.None? then None
                                 else Some(Restrict(old(disk).blobs.value, LinkedBlobs(disk.snapshots[revision].files)))
      ensures faults == old(faults) ==> r.Alive? && r.value.Ok?
    {
      if revision !in disk.snapshots { return Alive(Ok(())); }
      var fails := Goes();
      if fails { return Alive(Err(ListFailed)); }
      var keep := ReferencedBlobs(disk.snapshots[revision].files);
      var others := RemoveOtherSnapshots(revision);
      if others.Died? { return Died; }
      if others.value.Err? { return Alive(others.value); }
      fails := Goes();
      if fails { return Alive(Err(ListFailed)); }
      if disk.blobs.None? { return Alive(Ok(())); }
      ghost var before := disk;
      r := RemoveOtherBlobs(revision, keep);
      TrimmedTransitive(old(disk), before, disk);
    }

    // ----- the download -----

    /** trimCache. Stopped anywhere, it has only removed things no remaining link needs. */
    method TrimCache(revision: string) returns (r: Step<Result<(), CacheError>>)
      modifies this`disk, this`faults
      ensures old(faults) <= faults && Trimmed(old(disk), disk)
      ensures r.Alive? && r.value.Ok? && revision in old(disk).snapshots ==>
                IsTrimmedTo(revision, old(disk), disk, faults == old(faults))
      ensures revision !in old(disk).snapshots ==> disk == old(disk)
      ensures SelectedStay(old(disk), disk, revision)
      ensures faults == old(faults) ==> r.Alive? && r.value.Ok?
    {
      var removed := RemoveUnselected(revision);
      if removed.Died? { return Died; }
      if removed.value.Err? { return Alive(removed.value); }
      ghost var between := disk;
      r := PruneOtherRevisions(revision);
      TrimmedTransitive(old(disk), between, disk);
    }

    /** fetchDownload to Complete: the download, with the selected files of the list as the plan, and
        then the marker. */
    method Fill(ghost repo: Repo, revision: string, metadata: Option<seq<string>>, cli: Cli)
      returns (r: Step<Result<(), CacheError>>)
      requires NormalizeRevision(revision) == revision
      modifies this`disk, this`faults
      ensures old(faults) <= faults
      ensures SameContents(disk, old(disk)) || HoldsFetched(old(disk), disk, metadata, cli)
      ensures r.Alive? && r.value.Ok? ==>
                && HoldsFetched(old(disk), disk, metadata, cli) && Fetch(old(disk), metadata, cli).value.succeeded
                && disk.sentinel == Some(revision)
                && (revision in disk.snapshots ==> disk.ref == Some(revision))
      ensures Sound(repo, old(disk)) && CanFill(repo, old(disk), revision, metadata, cli) ==> Sound(repo, disk)
      ensures Sound(repo, old(disk)) && CanFill(repo, old(disk), revision, metadata, cli) ==>
                (r.Alive? && r.value.Ok? && revision in repo ==>
                   revision in disk.snapshots && Whole(disk.snapshots[revision], repo[revision]))
      ensures faults == old(faults) ==> r.Alive? && (r.value.Ok? <==> CanComplete(old(disk), metadata, cli))
    {
      if metadata.None? { return Alive(Err(MetadataFailed)); }
      var plan := Select(metadata.value);
      var fetched := cli(disk, plan);
      if fetched.None? { return Alive(Err(DownloadFailed)); }
      disk := fetched.value.On(disk);
      ghost var filled := disk;
      if Sound(repo, old(disk)) && CanFill(repo, old(disk), revision, metadata, cli) {
        FetchKeepsSound(repo, old(disk), revision, plan, fetched.value);
      }
      if !fetched.value.succeeded { return Alive(Err(DownloadFailed)); }
      r := Complete(revision);
      if Sound(repo, old(disk)) && CanFill(repo, old(disk), revision, metadata, cli) {
        NormalizedIsTrimmed(revision);
        CompleteKeepsSound(repo, filled, disk, revision);
      }
    }

    /** downloadRepository up to trimCache: the revision is there already, or is downloaded. */
    method Provide(ghost repo: Repo, repoID: string, revision: string, metadata: Option<seq<string>>, cli: Cli)
      returns (r: Step<Result<(), CacheError>>)
      requires NormalizeRevision(revision) == revision
      modifies this`disk, this`faults
      ensures old(faults) <= faults
      ensures r.Alive? && r.value.Ok? ==> Provided(old(disk), disk, revision, metadata, cli)
      ensures CanFill(repo, old(disk), revision, metadata, cli) && Sound(repo, old(disk)) ==>
                && Sound(repo, disk)
                && (r.Alive? && r.value.Ok? && revision in repo ==>
                      && revision in disk.snapshots
                      && (!Marked(old(disk), revision) || Recorded(old(disk)) != "" ==>
                            Whole(disk.snapshots[revision], repo[revision])))
      ensures LinksHold(old(disk), metadata, cli) ==> NoDangling(disk)
      ensures faults == old(faults) ==>
                r.Alive? && (r.value.Ok? <==> CanProvide(old(disk), repoID, revision, metadata, cli))
    {
      NormalizedIsTrimmed(revision);
      var prepared :- Prepare(repoID, revision);
      if prepared.Err? { return Alive(Err(prepared.error)); }
      if prepared.value { return Alive(Ok(())); }
      r := Fill(repo, revision, metadata, cli);
    }

    /** downloadRepository. Whenever the marker is honest and the client adds files of the right
        revision only, the marker stays so wherever the run stops. A run that succeeds has trimmed to
        what the server loads of the pinned revision exactly when all of that was there, and it was
        there when this run downloaded it or the marker names the revision. */
    method DownloadRepository(
      ghost repo: Repo, repoID: string, pinned: string, metadata: Option<seq<string>>, cli: Cli)
      returns (r: Step<Result<(), CacheError>>, ghost trimmed: Disk)
      modifies this`disk, this`faults
      ensures old(faults) <= faults
      ensures var revision := NormalizeRevision(pinned);
              r.Alive? && r.value.Ok? ==>
                && Provided(old(disk), trimmed, revision, metadata, cli)
                && if revision in trimmed.snapshots then
                     IsTrimmedTo(revision, trimmed, disk, faults == old(faults)) && disk.ref == Some(revision)
                   else disk == trimmed
      ensures CanRun(repo, old(disk), pinned, metadata, cli) ==> Sound(repo, disk)
      ensures var revision := NormalizeRevision(pinned);
              CanRun(repo, old(disk), pinned, metadata, cli) && r.Alive? && r.value.Ok? && revision in repo ==>
                && revision in trimmed.snapshots && revision in disk.snapshots
                && (disk.snapshots[revision].files.Keys == Kept(repo[revision]) <==>
                      Whole(trimmed.snapshots[revision], repo[revision]))
                && (!Marked(old(disk), revision) || Recorded(old(disk)) != "" ==>
                      disk.snapshots[revision].files.Keys == Kept(repo[revision]))
      ensures LinksHold(old(disk), metadata, cli) ==> NoDangling(disk)
      ensures faults == old(faults) ==>
                && r.Alive?
                && (r.value.Ok? <==> CanProvide(old(disk), repoID, NormalizeRevision(pinned), metadata, cli))
    {
      var revision := NormalizeRevision(pinned);
      NormalizedIsTrimmed(pinned);
      r := Provide(repo, repoID, revision, metadata, cli);
      trimmed := disk;
      if r.Died? || r.value.Err? { return r, trimmed; }
      r := TrimCache(revision);
      if NoDangling(trimmed) { TrimmedKeepsLinks(trimmed, disk); }
      if CanRun(repo, old(disk), pinned, metadata, cli) {
        TrimKeepsSound(repo, trimmed, disk, revision);
        if revision in repo {
          TrimmedFilesAreTheSelectedOnes(repo[revision], trimmed.snapshots[revision]);
        }
      }
    }
  }

  /** The command line client: the directory it finds and the files it is asked for, to what it
      leaves; None when it failed before it changed anything. */
  type Cli = (Disk, seq<string>) -> Option<Fetched>

  /** The download a run that is not skipped asks for: the files the server loads, and no other. */
  ghost function Fetch(d: Disk, metadata: Option<seq<string>>, cli: Cli): Option<Fetched> {
    if metadata.None? then None else cli(d, Filter(metadata.value, Kept(SetOf(metadata.value))))
  }

  predicate SameContents(d: Disk, e: Disk) {
    d.snapshots == e.snapshots && d.blobs == e.blobs
  }

  ghost predicate HoldsFetched(before: Disk, after: Disk, metadata: Option<seq<string>>, cli: Cli) {
    Fetch(before, metadata, cli).Some? && SameContents(after, Fetch(before, metadata, cli).value.On(before))
  }

  /** The listed files are those of the revision, and the client does what is assumed of it. */
  ghost predicate CanFill(repo: Repo, d: Disk, revision: string, metadata: Option<seq<string>>, cli: Cli) {
    && CleanRepo(repo) && NamesFit(repo, revision)
    && (metadata.Some? && revision in repo ==> SetOf(metadata.value) == repo[revision])
    && (Fetch(d, metadata, cli).Some? ==>
          Fetch(d, metadata, cli).value.Fits(
            repo, d, revision, Filter(metadata.value, Kept(SetOf(metadata.value)))))
  }

  ghost predicate CanComplete(d: Disk, metadata: Option<seq<string>>, cli: Cli) {
    && Fetch(d, metadata, cli).Some? && Fetch(d, metadata, cli).value.succeeded
    && CanRef(Fetch(d, metadata, cli).value.On(d))
  }

  /** What there is to trim: the cache as it was, with a marker that passes for the revision, or
      what the client left, with a new marker. The ref names the pinned snapshot if that exists. */
  ghost predicate Provided(before: Disk, after: Disk, revision: string, metadata: Option<seq<string>>, cli: Cli) {
    && Marked(after, revision) && (revision in after.snapshots ==> after.ref == Some(revision))
    && if Marked(before, revision) then after == before.(ref := after.ref)
       else HoldsFetched(before, after, metadata, cli) && after.sentinel == Some(revision)
  }

  ghost predicate LinksHold(d: Disk, metadata: Option<seq<string>>, cli: Cli) {
    NoDangling(d) && (Fetch(d, metadata, cli).Some? ==> NoDangling(Fetch(d, metadata, cli).value.On(d)))
  }

  ghost predicate CanProvide(
    d: Disk, repoID: string, revision: string, metadata: Option<seq<string>>, cli: Cli)
  {
    && TrimSpace(repoID) != ""
    && if Marked(d, revision) then CanRef(d) else CanComplete(d, metadata, cli)
  }

  ghost predicate CanRun(repo: Repo, d: Disk, pinned: string, metadata: Option<seq<string>>, cli: Cli) {
    Sound(repo, d) && CanFill(repo, d, NormalizeRevision(pinned), metadata, cli)
  }

  /** One run of the installer for a model. */
  datatype Run = Run(repoID: string, pinned: string, metadata: Option<seq<string>>, cli: Cli)

  ghost predicate GoodRun(repo: Repo, run: Run) {
    forall d: Disk :: Sound(repo, d) ==> CanFill(repo, d, NormalizeRevision(run.pinned), run.metadata, run.cli)
  }

  /** Any number of runs with any pins, each stopped anywhere, keep every named marker right. */
  method Downloads(ghost repo: Repo, dir: ModelDir, runs: seq<Run>)
    requires Sound(repo, dir.disk) && forall run :: run in runs ==> GoodRun(repo, run)
    modifies dir`disk, dir`faults
    ensures Sound(repo, dir.disk)
  {
    for i := 0 to |runs|
      invariant Sound(repo, dir.disk)
    {
      var run := runs[i];
      assert GoodRun(repo, run);
      var outcome, trimmed := dir.DownloadRepository(repo, run.repoID, run.pinned, run.metadata, run.cli);
    }
  }
}
