/** installer/internal/huggingface/files/files.go: the files of a model repository that the model
    server loads. Paths are clean, relative and slash-separated, as the Hugging Face API lists
    them. */
module FileSelect {

  const SKIPPED_DIRS: set<string> := {"original", "metal", "onnx", "openvino", "coreml"}
  const SKIPPED_EXTS: set<string> := {".gguf", ".onnx", ".onnx_data", ".msgpack", ".h5", ".tflite", ".ot", ".mlmodel"}
  const SAFETENSORS := ".safetensors"
  const BIN := ".bin"
  const CONSOLIDATED := "consolidated"

  // ----- paths -----

  function ExtBefore(p: string, end: nat): string
    requires end <= |p|
  {
    if end == 0 || p[end - 1] == '/' then ""
    else if p[end - 1] == '.' then p[end - 1..]
    else ExtBefore(p, end - 1)
  }

  /** path.Ext */
  function Ext(p: string): string {
    ExtBefore(p, |p|)
  }

  function DirBefore(p: string, end: nat): string
    requires end <= |p|
  {
    if end == 0 then "." else if p[end - 1] == '/' then p[..end - 1] else DirBefore(p, end - 1)
  }

  /** path.Dir of a clean path */
  function Dir(p: string): string {
    DirBefore(p, |p|)
  }

  /** The first path component: what strings.Cut(p, "/") puts before the slash. */
  function First(p: string): string {
    if p == "" || p[0] == '/' then "" else [p[0]] + First(p[1..])
  }

  predicate IsRoot(p: string) {
    '/' !in p
  }

  predicate IsWeight(ext: string) {
    ext == SAFETENSORS || ext == BIN
  }

  predicate IsConsolidated(p: string) {
    CONSOLIDATED <= p && Ext(p) == SAFETENSORS
  }

  predicate Skipped(p: string) {
    !IsRoot(p) && First(p) in SKIPPED_DIRS
  }

  // ----- the rules -----

  datatype RootWeights = RootWeights(ext: string, consolidated: bool)

  predicate Keep(p: string, root: RootWeights, withSafetensors: set<string>) {
    if Skipped(p) then false
    else if Ext(p) in SKIPPED_EXTS then false
    else if !IsWeight(Ext(p)) then true
    else if IsRoot(p) then Ext(p) == root.ext && (root.consolidated ==> IsConsolidated(p))
    else Ext(p) == SAFETENSORS || Dir(p) !in withSafetensors
  }

  ghost predicate HasConsolidated(paths: set<string>) {
    exists p :: p in paths && IsRoot(p) && IsConsolidated(p)
  }

  ghost predicate HasRootWeight(paths: set<string>, ext: string) {
    exists p :: p in paths && IsRoot(p) && Ext(p) == ext
  }

  /** The root weight set the server loads, from what is there at all. */
  ghost function RootOf(paths: set<string>): RootWeights {
    if HasConsolidated(paths) then RootWeights(SAFETENSORS, true)
    else if HasRootWeight(paths, SAFETENSORS) then RootWeights(SAFETENSORS, false)
    else if HasRootWeight(paths, BIN) then RootWeights(BIN, false)
    else RootWeights("", false)
  }

  ghost function SafetensorsDirs(paths: set<string>): set<string> {
    set p | p in paths && Ext(p) == SAFETENSORS :: Dir(p)
  }

  ghost predicate KeptIn(p: string, paths: set<string>) {
    Keep(p, RootOf(paths), SafetensorsDirs(paths))
  }

  /** The files of a repository that are kept. */
  ghost function Kept(paths: set<string>): set<string> {
    set p | p in paths && KeptIn(p, paths)
  }

  function SetOf(paths: seq<string>): set<string> {
    set p | p in paths
  }

  /** The paths of a list that belong to a set, in their order. */
  function Filter(paths: seq<string>, chosen: set<string>): seq<string> {
    if paths == [] then []
    else Filter(paths[..|paths| - 1], chosen) + if paths[|paths| - 1] in chosen then [paths[|paths| - 1]] else []
  }

  lemma {:induction false} FilterMembers(paths: seq<string>, chosen: set<string>)
    ensures SetOf(Filter(paths, chosen)) == SetOf(paths) * chosen
  {
    if paths != [] {
      FilterMembers(paths[..|paths| - 1], chosen);
      assert paths == paths[..|paths| - 1] + [paths[|paths| - 1]];
      assert SetOf(paths) == SetOf(paths[..|paths| - 1]) + {paths[|paths| - 1]};
      var filtered := Filter(paths[..|paths| - 1], chosen);
      assert SetOf(Filter(paths, chosen)) ==
             SetOf(filtered) + if paths[|paths| - 1] in chosen then {paths[|paths| - 1]} else {};
    }
  }

  lemma {:induction false} FilterOfAll(paths: seq<string>, chosen: set<string>)
    requires SetOf(paths) <= chosen
    ensures Filter(paths, chosen) == paths
  {
    if paths != [] {
      var last := paths[|paths| - 1];
      assert last in SetOf(paths);
      FilterOfAll(paths[..|paths| - 1], chosen);
      assert paths == paths[..|paths| - 1] + [last];
    }
  }

  // ----- the same, in terms of the names alone -----

  predicate EndsWith(p: string, ext: string) {
    |ext| <= |p| && p[|p| - |ext|..] == ext
  }

  ghost predicate InSkippedDir(p: string) {
    exists dir :: dir in {"original", "metal", "onnx", "openvino", "coreml"} && dir + "/" <= p
  }

  ghost predicate InSkippedFormat(p: string) {
    exists ext :: ext in {".gguf", ".onnx", ".onnx_data", ".msgpack", ".h5", ".tflite", ".ot", ".mlmodel"}
                  && EndsWith(p, ext)
  }

  /** Two files of one directory below the root. */
  ghost predicate Beside(p: string, q: string) {
    exists slash :: 0 <= slash < |p| && LastSlash(p, slash) && LastSlash(q, slash) && p[..slash] == q[..slash]
  }

  predicate LastSlash(p: string, slash: int) {
    0 <= slash < |p| && p[slash] == '/' && forall i :: slash < i < |p| ==> p[i] != '/'
  }

  ghost predicate SomeConsolidated(all: set<string>) {
    exists p :: p in all && '/' !in p && "consolidated" <= p && EndsWith(p, ".safetensors")
  }

  ghost predicate SomeAtTheRoot(all: set<string>, ext: string) {
    exists p :: p in all && '/' !in p && EndsWith(p, ext)
  }

  /** The safetensors files of the root are read, if there are any, and of those the consolidated
      ones alone, if there are any; else its .bin files. */
  ghost predicate RootWeightLoaded(p: string, all: set<string>) {
    if SomeConsolidated(all) then "consolidated" <= p && EndsWith(p, ".safetensors")
    else if SomeAtTheRoot(all, ".safetensors") then EndsWith(p, ".safetensors")
    else EndsWith(p, ".bin")
  }

  /** In any other directory a .bin file is read exactly when no safetensors file is beside it. */
  ghost predicate ModuleWeightLoaded(p: string, all: set<string>) {
    EndsWith(p, ".safetensors") || !exists q :: q in all && Beside(p, q) && EndsWith(q, ".safetensors")
  }

  /** What the server loads of a repository: nothing of the skipped directories and formats, the
      weights it reads, and every other file. */
  ghost predicate Loaded(p: string, all: set<string>) {
    && !InSkippedDir(p) && !InSkippedFormat(p)
    && (EndsWith(p, ".safetensors") || EndsWith(p, ".bin") ==>
          if '/' in p then ModuleWeightLoaded(p, all) else RootWeightLoaded(p, all))
  }

  lemma EndsWithAt(p: string, ext: string, i: nat)
    requires EndsWith(p, ext) && |p| - |ext| <= i < |p|
    ensures p[i] == ext[i - (|p| - |ext|)]
  {
    assert p[|p| - |ext|..][i - (|p| - |ext|)] == p[i];
  }

  predicate IsExtension(ext: string) {
    ext != "" && ext[0] == '.' && forall i :: 1 <= i < |ext| ==> ext[i] != '.' && ext[i] != '/'
  }

  ghost predicate SelectsTheLoaded(paths: seq<string>, selected: seq<string>) {
    forall p :: p in paths ==> (p in selected <==> Loaded(p, SetOf(paths)))
  }

  /** The extension of a path is what follows its last dot, if no slash follows that. */
  lemma {:induction false} ExtIsASuffix(p: string, end: nat, ext: string)
    requires end <= |p| && (forall i :: end <= i < |p| ==> p[i] != '.' && p[i] != '/') && IsExtension(ext)
    ensures ExtBefore(p, end) == ext <==> EndsWith(p, ext)
  {
    if EndsWith(p, ext) {
      EndsWithAt(p, ext, |p| - |ext|);
      if |p| - |ext| < end { EndsWithAt(p, ext, end - 1); }
    }
    if end > 0 && p[end - 1] != '/' && p[end - 1] != '.' {
      ExtIsASuffix(p, end - 1, ext);
    }
  }

  lemma ExtMeans(p: string, ext: string)
    requires IsExtension(ext)
    ensures Ext(p) == ext <==> EndsWith(p, ext)
  {
    ExtIsASuffix(p, |p|, ext);
  }

  /** The first component is a directory exactly when the path goes on below it. */
  lemma {:induction false} FirstMeans(p: string, dir: string)
    requires '/' !in dir
    ensures !IsRoot(p) && First(p) == dir <==> dir + "/" <= p
  {
    if p != "" && p[0] != '/' {
      assert p == [p[0]] + p[1..];
      if dir != "" {
        FirstMeans(p[1..], dir[1..]);
        assert dir == [dir[0]] + dir[1..];
        assert dir + "/" == [dir[0]] + (dir[1..] + "/");
      }
    }
  }

  lemma SkippedNames()
    ensures forall dir :: dir in SKIPPED_DIRS ==> '/' !in dir
    ensures forall ext :: ext in SKIPPED_EXTS ==> IsExtension(ext)
  {
  }

  lemma SkippedDirMeans(p: string)
    ensures Skipped(p) <==> InSkippedDir(p)
  {
    SkippedNames();
    forall dir | dir in SKIPPED_DIRS ensures !IsRoot(p) && First(p) == dir <==> dir + "/" <= p {
      FirstMeans(p, dir);
    }
  }

  lemma SkippedFormatMeans(p: string)
    ensures Ext(p) in SKIPPED_EXTS <==> InSkippedFormat(p)
  {
    SkippedNames();
    forall ext | ext in SKIPPED_EXTS ensures Ext(p) == ext <==> EndsWith(p, ext) {
      ExtMeans(p, ext);
    }
  }

  lemma WeightsMean()
    ensures forall p :: Ext(p) == SAFETENSORS <==> EndsWith(p, ".safetensors")
    ensures forall p :: Ext(p) == BIN <==> EndsWith(p, ".bin")
  {
    forall p ensures Ext(p) == SAFETENSORS <==> EndsWith(p, ".safetensors") { ExtMeans(p, ".safetensors"); }
    forall p ensures Ext(p) == BIN <==> EndsWith(p, ".bin") { ExtMeans(p, ".bin"); }
  }

  lemma {:induction false} DirIsBeforeItsSlash(p: string, end: nat, slash: nat)
    requires slash < end <= |p| && p[slash] == '/' && forall i :: slash < i < end ==> p[i] != '/'
    ensures DirBefore(p, end) == p[..slash]
  {
    if slash < end - 1 { DirIsBeforeItsSlash(p, end - 1, slash); }
  }

  lemma {:induction false} HasALastSlash(p: string, end: nat) returns (slash: nat)
    requires end <= |p| && '/' in p[..end] && forall i :: end <= i < |p| ==> p[i] != '/'
    ensures LastSlash(p, slash)
  {
    if p[end - 1] == '/' {
      slash := end - 1;
    } else {
      assert p[..end] == p[..end - 1] + [p[end - 1]];
      slash := HasALastSlash(p, end - 1);
    }
  }

  /** Files below the root have the same directory exactly when they are beside each other. */
  lemma SameDirMeans(p: string, q: string)
    requires !IsRoot(p) && !IsRoot(q)
    ensures Dir(p) == Dir(q) <==> Beside(p, q)
  {
    assert p[..|p|] == p && q[..|q|] == q;
    var i := HasALastSlash(p, |p|);
    var j := HasALastSlash(q, |q|);
    DirIsBeforeItsSlash(p, |p|, i);
    DirIsBeforeItsSlash(q, |q|, j);
  }

  lemma RootMeans(all: set<string>)
    ensures HasConsolidated(all) <==> SomeConsolidated(all)
    ensures HasRootWeight(all, SAFETENSORS) <==> SomeAtTheRoot(all, ".safetensors")
  {
    WeightsMean();
  }

  lemma ModuleMeans(all: set<string>, p: string)
    requires !IsRoot(p) && forall q :: q in all + {p} ==> Clean(q)
    ensures Dir(p) in SafetensorsDirs(all) <==> exists q :: q in all && Beside(p, q) && EndsWith(q, ".safetensors")
  {
    WeightsMean();
    RootDirIsDot(p);
    forall q | q in all ensures Dir(p) == Dir(q) <==> Beside(p, q) {
      RootDirIsDot(q);
      if !IsRoot(q) { SameDirMeans(p, q); }
    }
  }

  /** The kept files of a repository are those the server loads. */
  lemma KeptAreTheLoaded(all: set<string>, p: string)
    requires p in all && forall q :: q in all ==> Clean(q)
    ensures p in Kept(all) <==> Loaded(p, all)
  {
    SkippedDirMeans(p);
    SkippedFormatMeans(p);
    WeightsMean();
    RootMeans(all);
    if !IsRoot(p) { ModuleMeans(all, p); }
  }

  // ----- the code -----

  method RootOfPaths(paths: seq<string>) returns (root: RootWeights)
    ensures root == RootOf(SetOf(paths))
  {
    for i := 0 to |paths|
      invariant forall j :: 0 <= j < i ==> !(IsRoot(paths[j]) && IsConsolidated(paths[j]))
    {
      if IsRoot(paths[i]) && IsConsolidated(paths[i]) {
        assert paths[i] in SetOf(paths);
        return RootWeights(SAFETENSORS, true);
      }
    }
    var weightExts := [SAFETENSORS, BIN];
    for k := 0 to 2
      invariant forall m :: 0 <= m < k ==> !HasRootWeight(SetOf(paths), weightExts[m])
    {
      for i := 0 to |paths|
        invariant forall j :: 0 <= j < i ==> !(IsRoot(paths[j]) && Ext(paths[j]) == weightExts[k])
      {
        if IsRoot(paths[i]) && Ext(paths[i]) == weightExts[k] {
          assert paths[i] in SetOf(paths);
          assert k == 1 ==> !HasRootWeight(SetOf(paths), weightExts[0]);
          return RootWeights(weightExts[k], false);
        }
      }
    }
    assert !HasRootWeight(SetOf(paths), weightExts[0]) && !HasRootWeight(SetOf(paths), weightExts[1]);
    root := RootWeights("", false);
  }

  method DirsWithSafetensors(paths: seq<string>) returns (dirs: set<string>)
    ensures dirs == SafetensorsDirs(SetOf(paths))
  {
    dirs := {};
    for i := 0 to |paths|
      invariant dirs == set j | 0 <= j < i && Ext(paths[j]) == SAFETENSORS :: Dir(paths[j])
    {
      if Ext(paths[i]) == SAFETENSORS {
        dirs := dirs + {Dir(paths[i])};
      }
    }
    forall d ensures d in dirs <==> d in SafetensorsDirs(SetOf(paths)) {
      if d in dirs {
        var j :| 0 <= j < |paths| && Ext(paths[j]) == SAFETENSORS && Dir(paths[j]) == d;
        assert paths[j] in SetOf(paths);
      }
    }
  }

  /** Select keeps the order of its input, and what it keeps depends only on the set of paths. */
  method Select(paths: seq<string>) returns (selected: seq<string>)
    ensures selected == Filter(paths, Kept(SetOf(paths)))
    ensures SetOf(selected) == Kept(SetOf(paths))
    ensures (forall p :: p in paths ==> Clean(p)) ==> SelectsTheLoaded(paths, selected)
  {
    var root := RootOfPaths(paths);
    var withSafetensors := DirsWithSafetensors(paths);
    selected := [];
    for i := 0 to |paths|
      invariant selected == Filter(paths[..i], Kept(SetOf(paths)))
    {
      assert paths[..i + 1][..i] == paths[..i] && paths[i] in SetOf(paths);
      if Keep(paths[i], root, withSafetensors) {
        selected := selected + [paths[i]];
      }
    }
    assert paths[..|paths|] == paths;
    FilterMembers(paths, Kept(SetOf(paths)));
    assert Kept(SetOf(paths)) <= SetOf(paths);
    if forall p :: p in paths ==> Clean(p) {
      forall p | p in paths ensures p in selected <==> Loaded(p, SetOf(paths)) {
        assert p in selected <==> p in SetOf(selected);
        KeptAreTheLoaded(SetOf(paths), p);
      }
    }
  }

  // ----- what the selection guarantees -----

  lemma SelectionSetsTheRoot(all: set<string>, some: set<string>)
    requires Kept(all) <= some <= all
    ensures RootOf(some) == RootOf(all)
  {
    if HasConsolidated(all) {
      var p :| p in all && IsRoot(p) && IsConsolidated(p);
      assert p in Kept(all);
    } else if HasRootWeight(all, SAFETENSORS) {
      var p :| p in all && IsRoot(p) && Ext(p) == SAFETENSORS;
      assert p in Kept(all);
      assert HasRootWeight(some, SAFETENSORS) && !HasConsolidated(some);
    } else if HasRootWeight(all, BIN) {
      var p :| p in all && IsRoot(p) && Ext(p) == BIN;
      assert p in Kept(all);
      assert HasRootWeight(some, BIN) && !HasConsolidated(some) && !HasRootWeight(some, SAFETENSORS);
    }
  }

  lemma SameComponentBefore(p: string, q: string, i: nat, j: nat)
    requires i <= |p| && j <= |q| && '/' in p[..i] && '/' in q[..j]
    requires DirBefore(p, i) == DirBefore(q, j)
    ensures First(p) == First(q)
  {
    if p[i - 1] != '/' {
      assert p[..i] == p[..i - 1] + [p[i - 1]];
      SameComponentBefore(p, q, i - 1, j);
    } else if q[j - 1] != '/' {
      assert q[..j] == q[..j - 1] + [q[j - 1]];
      SameComponentBefore(p, q, i, j - 1);
    } else {
      FirstOfDir(p, i - 1);
      FirstOfDir(q, j - 1);
    }
  }

  lemma {:induction false} FirstOfDir(p: string, slash: nat)
    requires slash < |p| && p[slash] == '/'
    ensures First(p) == First(p[..slash])
  {
    if slash > 0 && p[0] != '/' {
      FirstOfDir(p[1..], slash - 1);
      assert p[1..][..slash - 1] == p[..slash][1..];
    }
  }

  /** Files of one directory are under the same top-level directory. */
  lemma SameDirSameTop(p: string, q: string)
    requires !IsRoot(p) && !IsRoot(q) && Dir(p) == Dir(q)
    ensures First(p) == First(q)
  {
    assert p[..|p|] == p && q[..|q|] == q;
    SameComponentBefore(p, q, |p|, |q|);
  }

  /** The directory name is "." for a root file, and is the part before a slash otherwise. */
  lemma {:induction false} DirBeforeIsPrefix(p: string, end: nat)
    requires end <= |p|
    ensures '/' !in p[..end] ==> DirBefore(p, end) == "."
    ensures '/' in p[..end] ==> exists k :: 0 <= k < end && p[k] == '/' && DirBefore(p, end) == p[..k]
  {
    if end > 0 && p[end - 1] != '/' {
      DirBeforeIsPrefix(p, end - 1);
      assert p[..end] == p[..end - 1] + [p[end - 1]];
    } else if end > 0 {
      assert p[end - 1] in p[..end];
    }
  }

  /** A clean path never has "." as a component. */
  predicate Clean(p: string) {
    First(p) != "."
  }

  lemma RootDirIsDot(p: string)
    requires Clean(p)
    ensures Dir(p) == "." <==> IsRoot(p)
  {
    assert p[..|p|] == p;
    DirBeforeIsPrefix(p, |p|);
    if !IsRoot(p) {
      var k :| 0 <= k < |p| && p[k] == '/' && Dir(p) == p[..k];
      FirstOfDir(p, k);
    }
  }

  /** Whatever set of files lies between the selected ones and all of them, selecting from it
      gives the selected ones: a whole download, an exact one and anything in between trim to
      the same files. */
  lemma SelectionIsStable(all: set<string>, some: set<string>)
    requires Kept(all) <= some <= all
    requires forall p :: p in all ==> Clean(p)
    ensures Kept(some) == Kept(all)
  {
    SelectionSetsTheRoot(all, some);
    forall p | p in some ensures p in Kept(some) <==> p in Kept(all) {
      if !Skipped(p) && Ext(p) !in SKIPPED_EXTS && IsWeight(Ext(p)) && !IsRoot(p) && Ext(p) != SAFETENSORS {
        if Dir(p) in SafetensorsDirs(all) {
          var q :| q in all && Ext(q) == SAFETENSORS && Dir(q) == Dir(p);
          RootDirIsDot(p);
          RootDirIsDot(q);
          SameDirSameTop(p, q);
          assert q in Kept(all);
        }
      }
    }
  }

  /** Trimming a cache that was filled with the selected files removes nothing. */
  lemma SelectIsIdempotent(paths: seq<string>)
    requires forall p :: p in paths ==> Clean(p)
    ensures var once := Filter(paths, Kept(SetOf(paths)));
            Filter(once, Kept(SetOf(once))) == once && Kept(SetOf(once)) == SetOf(once)
  {
    var all := SetOf(paths);
    var once := Filter(paths, Kept(all));
    FilterMembers(paths, Kept(all));
    SelectionIsStable(all, SetOf(once));
    FilterOfAll(once, Kept(SetOf(once)));
  }

  ghost predicate RootWeight(p: string) {
    IsRoot(p) && IsWeight(Ext(p))
  }

  /** The last weight file of the root is never removed. */
  lemma RootKeepsAWeight(paths: set<string>, p: string) returns (kept: string)
    requires p in paths && RootWeight(p)
    ensures kept in Kept(paths) && RootWeight(kept)
  {
    if HasConsolidated(paths) {
      kept :| kept in paths && IsRoot(kept) && IsConsolidated(kept);
    } else if HasRootWeight(paths, SAFETENSORS) {
      kept :| kept in paths && IsRoot(kept) && Ext(kept) == SAFETENSORS;
    } else {
      assert HasRootWeight(paths, BIN);
      kept :| kept in paths && IsRoot(kept) && Ext(kept) == BIN;
    }
  }

  /** Nor is the last weight file of a module directory the server reads. */
  lemma ModuleKeepsAWeight(paths: set<string>, p: string) returns (kept: string)
    requires forall q :: q in paths ==> Clean(q)
    requires p in paths && !IsRoot(p) && !Skipped(p) && IsWeight(Ext(p))
    ensures kept in Kept(paths) && !IsRoot(kept) && Dir(kept) == Dir(p) && IsWeight(Ext(kept))
  {
    kept := p;
    if Ext(p) != SAFETENSORS && Dir(p) in SafetensorsDirs(paths) {
      kept :| kept in paths && Ext(kept) == SAFETENSORS && Dir(kept) == Dir(p);
      RootDirIsDot(p);
      RootDirIsDot(kept);
      SameDirSameTop(p, kept);
    }
  }
}
