/** The space reserved for building a model artifact: estimateBuildWorkingSpace and roundUp of
    installer/internal/oras/uploader/model_upload.go. */
module BuildEstimate {
  import opened Wrappers

  const TAR_BLOCK_SIZE := 512
  const TAR_END_BLOCKS := 2
  const GZIP_SAFETY_DIVISOR := 100
  const ARTIFACT_SAFETY_BYTES := 1048576

  /** RFC 1951, section 3.2.4: a stored block holds up to 65535 bytes behind 5 bytes of its own.
      RFC 1952, section 2.3: 10 bytes of header and 8 of trailer. */
  const STORED_BLOCK := 65535
  const STORED_OVERHEAD := 5
  const GZIP_FRAMING := 18

  /** A walk visits the root of a tree at least, so that the smallest tar is one header and the
      end blocks. */
  const SMALLEST_TAR := (1 + TAR_END_BLOCKS) * TAR_BLOCK_SIZE

  /** What a hundred of the smallest trees cost beyond their own share of the headroom. */
  const UNCOVERED := GZIP_SAFETY_DIVISOR * (STORED_OVERHEAD + GZIP_FRAMING) - SMALLEST_TAR

  const MAX_TREES := GZIP_SAFETY_DIVISOR * ARTIFACT_SAFETY_BYTES / UNCOVERED

  function RoundUp(value: int, blockSize: int): int
    requires blockSize > 0
  {
    if value <= 0 then 0 else ((value + blockSize - 1) / blockSize) * blockSize
  }

  /** The least multiple of the block size that is not negative and not below the value. */
  lemma RoundUpIsLeast(value: int, blockSize: int, other: nat) returns (blocks: nat)
    requires blockSize > 0
    ensures RoundUp(value, blockSize) == blocks * blockSize >= value
    ensures other * blockSize >= value ==> blocks <= other
  {
    blocks := if value <= 0 then 0 else (value + blockSize - 1) / blockSize;
    if other < blocks {
      Times(other + 1, blocks, blockSize);
      assert (other + 1) * blockSize == other * blockSize + blockSize;
    }
  }

  lemma Times(a: int, b: int, n: int)
    requires a <= b && n >= 0
    ensures a * n <= b * n
  {
  }

  /** An entry of a walked directory tree: a regular file, or anything else. */
  datatype Entry = Regular(size: nat) | NotRegular

  /** The blocks of an entry in the tar: one header, and a regular file's content, padded. */
  function EntryBytes(e: Entry): nat {
    TAR_BLOCK_SIZE + match e case Regular(size) => RoundUp(size, TAR_BLOCK_SIZE) case NotRegular => 0
  }

  function EntriesBytes(entries: seq<Entry>): nat {
    if entries == [] then 0 else EntriesBytes(entries[..|entries| - 1]) + EntryBytes(entries[|entries| - 1])
  }

  /** The tar of one directory. */
  function TarBytes(entries: seq<Entry>): nat {
    EntriesBytes(entries) + TAR_END_BLOCKS * TAR_BLOCK_SIZE
  }

  function AllTarBytes(dirs: seq<seq<Entry>>): nat {
    if dirs == [] then 0 else AllTarBytes(dirs[..|dirs| - 1]) + TarBytes(dirs[|dirs| - 1])
  }

  function Estimate(tarBytes: nat): nat {
    tarBytes + tarBytes / GZIP_SAFETY_DIVISOR + ARTIFACT_SAFETY_BYTES
  }

  ghost predicate AreTrees(dirs: seq<Option<seq<Entry>>>, trees: seq<seq<Entry>>) {
    |trees| == |dirs| && forall i :: 0 <= i < |dirs| ==> dirs[i] == Some(trees[i])
  }

  /** estimateBuildWorkingSpace. A directory that is missing or cannot be walked is an error. */
  method EstimateBuildWorkingSpace(dirs: seq<Option<seq<Entry>>>) returns (r: Result<nat, string>)
    ensures r.Err? <==> None in dirs
    ensures forall trees: seq<seq<Entry>> :: AreTrees(dirs, trees) ==> r == Ok(Estimate(AllTarBytes(trees)))
  {
    var tarBytes := 0;
    ghost var walked: seq<seq<Entry>> := [];
    for i := 0 to |dirs|
      invariant |walked| == i && forall j :: 0 <= j < i ==> dirs[j] == Some(walked[j])
      invariant tarBytes == AllTarBytes(walked)
    {
      if dirs[i].None? { return Err("model cache directory"); }
      var entries := dirs[i].value;
      ghost var before := tarBytes;
      for j := 0 to |entries|
        invariant tarBytes == before + EntriesBytes(entries[..j])
      {
        assert entries[..j + 1][..j] == entries[..j];
        tarBytes := tarBytes + TAR_BLOCK_SIZE;
        if entries[j].Regular? {
          tarBytes := tarBytes + RoundUp(entries[j].size, TAR_BLOCK_SIZE);
        }
      }
      assert entries[..|entries|] == entries;
      assert (walked + [entries])[..i] == walked;
      walked := walked + [entries];
      tarBytes := tarBytes + TAR_END_BLOCKS * TAR_BLOCK_SIZE;
    }
    forall trees: seq<seq<Entry>> | AreTrees(dirs, trees) ensures trees == walked
    {
      forall i | 0 <= i < |dirs| ensures trees[i] == walked[i] { assert dirs[i] == Some(walked[i]); }
    }
    r := Ok(Estimate(tarBytes));
  }

  // ----- is it enough? -----

  /** The most gzip makes of n bytes: stored blocks only, and at least one. */
  function WorstGzip(n: nat): nat {
    n + STORED_OVERHEAD * (n / STORED_BLOCK + 1) + GZIP_FRAMING
  }

  function AllWorstGzip(dirs: seq<seq<Entry>>): nat {
    if dirs == [] then 0 else AllWorstGzip(dirs[..|dirs| - 1]) + WorstGzip(TarBytes(dirs[|dirs| - 1]))
  }

  /** Every directory that can be walked yields an entry for its root. */
  ghost predicate Walked(dirs: seq<seq<Entry>>) {
    forall i :: 0 <= i < |dirs| ==> dirs[i] != []
  }

  lemma {:induction false} WalkedTarBytes(entries: seq<Entry>)
    requires entries != []
    ensures TarBytes(entries) >= SMALLEST_TAR
  {
    assert EntriesBytes(entries) >= EntryBytes(entries[|entries| - 1]);
  }

  /** A tree pays for its own framing and blocks up to a fixed part. */
  lemma OneTree(tar: nat)
    requires tar >= SMALLEST_TAR
    ensures GZIP_SAFETY_DIVISOR * (WorstGzip(tar) - tar) <= tar + UNCOVERED
  {
  }

  lemma {:induction false} AllTrees(dirs: seq<seq<Entry>>)
    requires Walked(dirs)
    ensures GZIP_SAFETY_DIVISOR * (AllWorstGzip(dirs) - AllTarBytes(dirs)) <= AllTarBytes(dirs) + UNCOVERED * |dirs|
  {
    if dirs != [] {
      AllTrees(dirs[..|dirs| - 1]);
      WalkedTarBytes(dirs[|dirs| - 1]);
      OneTree(TarBytes(dirs[|dirs| - 1]));
    }
  }

  /** The estimate covers the worst gzip can make of the tars of that many directory trees. */
  ghost predicate Enough(dirs: seq<seq<Entry>>) {
    Estimate(AllTarBytes(dirs)) >= AllWorstGzip(dirs)
  }

  lemma EstimateIsEnough(dirs: seq<seq<Entry>>)
    requires Walked(dirs) && |dirs| <= MAX_TREES
    ensures Enough(dirs)
  {
    AllTrees(dirs);
  }

  function SmallTrees(n: nat): seq<seq<Entry>> {
    if n == 0 then [] else SmallTrees(n - 1) + [[NotRegular]]
  }

  lemma SmallTree()
    ensures TarBytes([NotRegular]) == SMALLEST_TAR == 1536 && WorstGzip(SMALLEST_TAR) == 1559
  {
    assert [NotRegular][..0] == [];
  }

  lemma {:induction false} ManySmall(n: nat)
    ensures |SmallTrees(n)| == n && Walked(SmallTrees(n))
    ensures AllTarBytes(SmallTrees(n)) == 1536 * n && AllWorstGzip(SmallTrees(n)) == 1559 * n
  {
    if n > 0 {
      ManySmall(n - 1);
      SmallTree();
      assert SmallTrees(n)[..n - 1] == SmallTrees(n - 1);
    }
  }

  lemma TooManySmallTrees(n: nat)
    requires n > MAX_TREES
    ensures !Enough(SmallTrees(n))
  {
    ManySmall(n);
    TooMany(n, 1536 * n, 1559 * n);
  }

  lemma TooMany(n: nat, tar: nat, worst: nat)
    requires n > MAX_TREES && tar == 1536 * n && worst == 1559 * n
    ensures Estimate(tar) < worst
  {
  }

  /** Whether the estimate is enough for any n directory trees, whatever is in them. */
  ghost predicate AlwaysEnough(n: nat) {
    forall dirs: seq<seq<Entry>> :: |dirs| == n && Walked(dirs) ==> Enough(dirs)
  }

  /** Exactly how many directory trees the estimate is enough for. */
  lemma EnoughIffFewTrees(n: nat)
    ensures MAX_TREES == 137248 && (AlwaysEnough(n) <==> n <= MAX_TREES)
  {
    if n <= MAX_TREES {
      forall dirs: seq<seq<Entry>> | |dirs| == n && Walked(dirs) ensures Enough(dirs) {
        EstimateIsEnough(dirs);
      }
    } else {
      ManySmall(n);
      TooManySmallTrees(n);
    }
  }
}
