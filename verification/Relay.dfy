/** `ComposePublicationRelay`: chunked staging, compare-and-swap and compare-and-delete on a file
    tree. Each relay script is one atomic step. */
module Relay {
  import opened Text

  type Byte = b: int | 0 <= b < 256

  type Bytes = seq<Byte>

  type Path = string

  type Digest = string

  /** The regular files of the owner's tree. */
  type Tree = map<Path, Bytes>

  function Get(tree: Tree, p: Path): Option<Bytes> {
    if p in tree then Some(tree[p]) else None
  }

  function DigestAt(hash: Bytes -> Digest, tree: Tree, p: Path): Option<Digest> {
    if p in tree then Some(hash(tree[p])) else None
  }

  datatype Outcome = Committed | AlreadyCommitted | Conflict | StagedMismatch

  /* ---- the scripts as functions of the tree ---- */

  /** Offset zero truncates; any other offset appends, creating the file when it is missing. */
  function AfterChunk(tree: Tree, p: Path, data: Bytes, offset: int): Tree {
    if offset == 0 then tree[p := data]
    else tree[p := (if p in tree then tree[p] else []) + data]
  }

  function SwapOutcome(hash: Bytes -> Digest, tree: Tree, staged: Path, target: Path,
                       expected: Option<Digest>, desired: Digest): Outcome {
    var current := DigestAt(hash, tree, target);
    if current == Some(desired) then AlreadyCommitted
    else if current != expected then Conflict
    else if DigestAt(hash, tree, staged) != Some(desired) then StagedMismatch
    else Committed
  }

  function AfterSwap(hash: Bytes -> Digest, tree: Tree, staged: Path, target: Path,
                     expected: Option<Digest>, desired: Digest): Tree {
    if SwapOutcome(hash, tree, staged, target, expected, desired) == Committed
    then (tree - {staged})[target := tree[staged]] else tree
  }

  function DeleteOutcome(hash: Bytes -> Digest, tree: Tree, target: Path, expected: Digest): Outcome {
    if target !in tree then AlreadyCommitted
    else if hash(tree[target]) != expected then Conflict
    else Committed
  }

  function AfterDelete(hash: Bytes -> Digest, tree: Tree, target: Path, expected: Digest): Tree {
    if DeleteOutcome(hash, tree, target, expected) == Committed then tree - {target} else tree
  }

  function AfterRemove(tree: Tree, root: Path): Tree {
    map p | p in tree && !Under(root, p) :: tree[p]
  }

  predicate Under(root: Path, p: Path) {
    p == root || root + "/" <= p
  }

  /* ---- what the scripts promise ---- */

  /** A swap changes the tree only when the target holds the expected content and the staged file
      the desired one; then the target holds the staged bytes and the staged file is gone. Any
      other outcome leaves the whole tree as it was. */
  lemma SwapPromise(hash: Bytes -> Digest, tree: Tree, staged: Path, target: Path,
                    expected: Option<Digest>, desired: Digest)
    requires staged != target
    ensures var after := AfterSwap(hash, tree, staged, target, expected, desired);
      if SwapOutcome(hash, tree, staged, target, expected, desired) == Committed then
        && DigestAt(hash, tree, target) == expected && DigestAt(hash, after, target) == Some(desired)
        && Get(after, target) == Get(tree, staged) && Get(after, staged) == None
        && (forall p :: p != target && p != staged ==> Get(after, p) == Get(tree, p))
      else after == tree
    ensures SwapOutcome(hash, tree, staged, target, expected, desired) == AlreadyCommitted
       <==> DigestAt(hash, tree, target) == Some(desired)
  {
  }

  /** Replaying a swap after it committed finds it committed, although the staged file is gone. */
  lemma SwapReplays(hash: Bytes -> Digest, tree: Tree, staged: Path, target: Path,
                    expected: Option<Digest>, desired: Digest)
    requires SwapOutcome(hash, tree, staged, target, expected, desired) == Committed
    ensures var after := AfterSwap(hash, tree, staged, target, expected, desired);
      && SwapOutcome(hash, after, staged, target, expected, desired) == AlreadyCommitted
      && AfterSwap(hash, after, staged, target, expected, desired) == after
  {
  }

  lemma DeletePromise(hash: Bytes -> Digest, tree: Tree, target: Path, expected: Digest)
    ensures var after := AfterDelete(hash, tree, target, expected);
      if DeleteOutcome(hash, tree, target, expected) == Committed then
        && DigestAt(hash, tree, target) == Some(expected) && Get(after, target) == None
        && (forall p :: p != target ==> Get(after, p) == Get(tree, p))
        && DeleteOutcome(hash, after, target, expected) == AlreadyCommitted
      else after == tree
  {
  }

  /** The path has the directory's and a slash before its own name. */
  predicate Below(root: Path, p: Path) {
    |p| > |root| && p[..|root|] == root && p[|root|] == '/'
  }

  /** A clean-up removes the path itself and what lies below it, and nothing else. It can be repeated; what was swapped from inside the removed directory to a target
      outside it stays; and with a swap that lies wholly outside it commutes. */
  lemma CleanupPromise(hash: Bytes -> Digest, tree: Tree, root: Path, staged: Path, target: Path,
                       expected: Option<Digest>, desired: Digest)
    requires !Under(root, target)
    ensures forall p :: Get(AfterRemove(tree, root), p) == if p == root || Below(root, p) then None else Get(tree, p)
    ensures AfterRemove(AfterRemove(tree, root), root) == AfterRemove(tree, root)
    ensures SwapOutcome(hash, tree, staged, target, expected, desired) == Committed ==>
      AfterRemove(AfterSwap(hash, tree, staged, target, expected, desired), root)
        == (AfterRemove(tree, root) - {staged})[target := tree[staged]]
    ensures !Under(root, staged) ==>
      && SwapOutcome(hash, AfterRemove(tree, root), staged, target, expected, desired)
         == SwapOutcome(hash, tree, staged, target, expected, desired)
      && AfterSwap(hash, AfterRemove(tree, root), staged, target, expected, desired)
         == AfterRemove(AfterSwap(hash, tree, staged, target, expected, desired), root)
  {
    if SwapOutcome(hash, tree, staged, target, expected, desired) == Committed {
      var swapped := (tree - {staged})[target := tree[staged]];
      assert AfterRemove(swapped, root) == (AfterRemove(tree, root) - {staged})[target := tree[staged]];
    }
  }

  /* ---- the relay object ---- */

  class ComposePublicationRelay {
    const hash: Bytes -> Digest
    var tree: Tree

    constructor (hash: Bytes -> Digest, tree: Tree)
      ensures this.hash == hash && this.tree == tree
    {
      this.hash := hash;
      this.tree := tree;
    }

    method PathSha256(path: Path) returns (digest: Option<Digest>)
      ensures digest == DigestAt(hash, tree, path)
    {
      digest := if path in tree then Some(hash(tree[path])) else None;
    }

    method WriteBytesChunk(path: Path, data: Bytes, offset: int) returns (size: nat)
      modifies this`tree
      ensures tree == AfterChunk(old(tree), path, data, offset)
      ensures size == |tree[path]|
    {
      if offset == 0 {
        tree := tree[path := data];
      } else {
        var held := if path in tree then tree[path] else [];
        tree := tree[path := held + data];
      }
      size := |tree[path]|;
    }

    method CompareAndSwapFile(staged: Path, target: Path, expected: Option<Digest>, desired: Digest)
      returns (outcome: Outcome)
      modifies this`tree
      ensures outcome == SwapOutcome(hash, old(tree), staged, target, expected, desired)
      ensures tree == AfterSwap(hash, old(tree), staged, target, expected, desired)
    {
      var current := PathSha256(target);
      var ready := PathSha256(staged);
      if current == Some(desired) {
        outcome := AlreadyCommitted;
      } else if current != expected {
        outcome := Conflict;
      } else if ready != Some(desired) {
        outcome := StagedMismatch;
      } else {
        tree := (tree - {staged})[target := tree[staged]];
        outcome := Committed;
      }
    }

    method CompareAndDeleteFile(target: Path, expected: Digest) returns (outcome: Outcome)
      modifies this`tree
      ensures outcome == DeleteOutcome(hash, old(tree), target, expected)
      ensures tree == AfterDelete(hash, old(tree), target, expected)
    {
      if target !in tree {
        outcome := AlreadyCommitted;
      } else if hash(tree[target]) != expected {
        outcome := Conflict;
      } else {
        tree := tree - {target};
        outcome := Committed;
      }
    }

    method RemovePath(path: Path)
      modifies this`tree
      ensures tree == AfterRemove(old(tree), path)
    {
      tree := map p | p in tree && !Under(path, p) :: tree[p];
    }

    /** A caller that stages chunks with the returned size as the next offset. */
    method StageChunks(path: Path, chunks: seq<Bytes>) returns (sizes: seq<nat>)
      requires chunks != []
      modifies this`tree
      ensures tree == old(tree)[path := Flatten(chunks)]
      ensures |sizes| == |chunks| && forall k :: 0 <= k < |chunks| ==> sizes[k] == |Flatten(chunks[..k + 1])|
    {
      var offset: nat := 0;
      sizes := [];
      for k := 0 to |chunks|
        invariant k == 0 ==> tree == old(tree)
        invariant k > 0 ==> tree == old(tree)[path := Flatten(chunks[..k])]
        invariant offset == |Flatten(chunks[..k])|
        invariant |sizes| == k && forall j :: 0 <= j < k ==> sizes[j] == |Flatten(chunks[..j + 1])|
      {
        FlattenSnoc(chunks, k);
        ghost var staged, next := Flatten(chunks[..k]), Flatten(chunks[..k + 1]);
        assert k == 0 ==> staged == [];
        assert offset == 0 ==> next == chunks[k];
        assert k > 0 ==> old(tree)[path := staged][path := next] == old(tree)[path := next];
        offset := WriteBytesChunk(path, chunks[k], offset);
        sizes := sizes + [offset];
      }
      assert chunks[..|chunks|] == chunks;
    }
  }

  lemma FlattenSnoc(chunks: seq<Bytes>, k: nat)
    requires k < |chunks|
    ensures Flatten(chunks[..k + 1]) == Flatten(chunks[..k]) + chunks[k]
  {
    assert chunks[..k + 1] == chunks[..k] + [chunks[k]];
    FlattenAppend(chunks[..k], [chunks[k]]);
    FlattenOne(chunks[k]);
  }

  /** Staging any split of a file and swapping it in leaves exactly the file at the target. */
  lemma StagedThenSwapped(hash: Bytes -> Digest, tree: Tree, staged: Path, target: Path,
                          chunks: seq<Bytes>, file: Bytes, expected: Option<Digest>)
    requires staged != target && chunks != [] && Flatten(chunks) == file
    requires DigestAt(hash, tree, target) == expected != Some(hash(file))
    ensures var ready := tree[staged := Flatten(chunks)];
      && SwapOutcome(hash, ready, staged, target, expected, hash(file)) == Committed
      && AfterSwap(hash, ready, staged, target, expected, hash(file)) == (tree - {staged})[target := file]
  {
    var ready := tree[staged := file];
    assert ready - {staged} == tree - {staged};
  }

  /** With the staged file below the root that is then cleaned up, the file stays at the target, and
      nothing else has changed but what was below the root. */
  lemma StagedSwappedCleaned(hash: Bytes -> Digest, tree: Tree, root: Path, staged: Path, target: Path,
                             chunks: seq<Bytes>, file: Bytes, expected: Option<Digest>)
    requires Under(root, staged) && !Under(root, target) && chunks != [] && Flatten(chunks) == file
    requires DigestAt(hash, tree, target) == expected != Some(hash(file))
    ensures var ready := tree[staged := Flatten(chunks)];
      AfterRemove(AfterSwap(hash, ready, staged, target, expected, hash(file)), root) == AfterRemove(tree, root)[target := file]
  {
    var ready := tree[staged := file];
    StagedThenSwapped(hash, tree, staged, target, chunks, file, expected);
    CleanupPromise(hash, ready, root, staged, target, expected, hash(file));
    assert AfterRemove(ready, root) - {staged} == AfterRemove(tree, root);
  }
}
