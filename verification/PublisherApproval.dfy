/** What publication never does: act without approval, undo a record, or send bytes nobody approved.
    Every statement is about the worlds of a run with foreign writers and crashes anywhere. */
module PublisherApproval {
  import opened Text
  import opened Relay
  import opened Publisher

  /** A run that starts between two calls of `publish`. */
  ghost predicate RunFromRest(cfg: Config, ms: seq<Machine>, moves: seq<Move>) {
    IsRun(cfg, ms, moves) && ms[0].pc == Idle
  }

  predicate SameRecords(a: World, b: World) {
    a.state == b.state && a.files == b.files && a.changeSet == b.changeSet
  }

  /* ---- only while approved ---- */

  /** Where a run stands says what the change set's record is, and that it was approved. */
  predicate ApprovalInv(cfg: Config, m: Machine) {
    m.pc != Idle ==>
      && cfg.owner == cfg.actor && cfg.approval == Some(Approval(cfg.actor, cfg.digest))
      && match m.pc
         case MarkPublishing => m.w.changeSet == CsApproved || m.w.changeSet == CsPublishing
         case MarkChangeSet => m.w.changeSet == CsApproved || m.w.changeSet == CsPublishing
         case Cleanup => m.w.changeSet == CsPublished
         case _ => m.w.changeSet == CsPublishing
  }

  lemma ApprovalNext(cfg: Config, m: Machine, move: Move)
    requires Wf(cfg, m.w, m.pc) && Allowed(m, move) && ApprovalInv(cfg, m)
    ensures ApprovalInv(cfg, Next(cfg, m, move))
  {
  }

  lemma {:induction false} ApprovalHolds(cfg: Config, ms: seq<Machine>, moves: seq<Move>, k: nat)
    requires RunFromRest(cfg, ms, moves) && k < |ms|
    ensures Wf(cfg, ms[k].w, ms[k].pc) && ApprovalInv(cfg, ms[k])
  {
    hide ApprovalInv, Next, Wf, Allowed;
    if k > 0 {
      ApprovalHolds(cfg, ms, moves, k - 1);
      ApprovalNext(cfg, ms[k - 1], moves[k - 1]);
    } else {
      RestApproved(cfg, ms[0]);
    }
  }

  lemma RestApproved(cfg: Config, m: Machine)
    ensures m.pc == Idle ==> ApprovalInv(cfg, m)
  {
  }

  lemma MovesOnlyApproved(cfg: Config, m: Machine, move: Move, p: Path)
    requires Wf(cfg, m.w, m.pc) && Allowed(m, move) && ApprovalInv(cfg, m) && !move.Foreign?
    ensures var m' := Next(cfg, m, move);
      && (Get(m'.w.tree, p) != Get(m.w.tree, p) && !Under(cfg.root, p) ==> m.w.changeSet == CsPublishing)
      && (!SameRecords(m.w, m'.w) ==> m.w.changeSet == CsApproved || m.w.changeSet == CsPublishing)
      && (m.w != m'.w ==> cfg.owner == cfg.actor && cfg.approval == Some(Approval(cfg.actor, cfg.digest)))
  {
  }

  /** A step that is not foreign changes a path outside the staging area only while the change set's
      record is publishing, a record only while that is approved or publishing, and anything at all
      only when the caller owns the change set and approved its very digest. */
  lemma OnlyApproved(cfg: Config, ms: seq<Machine>, moves: seq<Move>, k: nat, p: Path)
    requires RunFromRest(cfg, ms, moves) && k < |moves| && !moves[k].Foreign?
    ensures Get(ms[k + 1].w.tree, p) != Get(ms[k].w.tree, p) && !Under(cfg.root, p) ==> ms[k].w.changeSet == CsPublishing
    ensures !SameRecords(ms[k].w, ms[k + 1].w) ==> ms[k].w.changeSet == CsApproved || ms[k].w.changeSet == CsPublishing
    ensures ms[k].w != ms[k + 1].w ==> cfg.owner == cfg.actor && cfg.approval == Some(Approval(cfg.actor, cfg.digest))
  {
    hide ApprovalInv, Next, Wf, Allowed;
    ApprovalHolds(cfg, ms, moves, k);
    MovesOnlyApproved(cfg, ms[k], moves[k], p);
  }

  /** Nothing a call may act on: the publication is terminal, or the change set not approved. */
  predicate Closed(w: World) {
    w.state == Published || w.state == Conflicted || (w.changeSet != CsApproved && w.changeSet != CsPublishing)
  }

  /** From such a state, between two calls, only foreign writers change anything, ever. */
  lemma {:induction false} ClosedStays(cfg: Config, ms: seq<Machine>, moves: seq<Move>, k: nat)
    requires RunFromRest(cfg, ms, moves) && Closed(ms[0].w) && k < |moves|
    ensures SameRecords(ms[k].w, ms[0].w) && ms[k].pc == Idle && ms[k + 1].pc == Idle
    ensures !moves[k].Foreign? ==> ms[k + 1].w == ms[k].w
    ensures SameRecords(ms[k + 1].w, ms[0].w)
  {
    if k > 0 {
      ClosedStays(cfg, ms, moves, k - 1);
    }
    assert Allowed(ms[k], moves[k]) && ms[k + 1] == Next(cfg, ms[k], moves[k]);
  }

  /** So a whole call does nothing. */
  lemma ClosedPublish(cfg: Config, w: World)
    requires Wf(cfg, w, Idle) && Closed(w)
    ensures Publish(cfg, w) == w
  {
  }

  /* ---- only approved bytes ---- */

  /** The workspace still holds the approved file for change `i`. */
  predicate HoldsApproved(cfg: Config, i: nat) {
    && i < |cfg.changes| && cfg.changes[i].action.Write? && cfg.changes[i].action.content.Some?
    && |cfg.changes[i].action.content.value| == cfg.changes[i].action.size
    && cfg.hash(cfg.changes[i].action.content.value) == cfg.changes[i].action.desired
  }

  predicate BytesInv(cfg: Config, pc: Pc) {
    pc.WriteChunk? ==> HoldsApproved(cfg, pc.i)
  }

  lemma BytesNext(cfg: Config, m: Machine, move: Move)
    requires Wf(cfg, m.w, m.pc) && Allowed(m, move) && BytesInv(cfg, m.pc)
    ensures BytesInv(cfg, Next(cfg, m, move).pc)
  {
  }

  lemma {:induction false} BytesHold(cfg: Config, ms: seq<Machine>, moves: seq<Move>, k: nat)
    requires RunFromRest(cfg, ms, moves) && k < |ms|
    ensures Wf(cfg, ms[k].w, ms[k].pc) && BytesInv(cfg, ms[k].pc)
  {
    hide Next, Wf, Allowed;
    if k > 0 {
      BytesHold(cfg, ms, moves, k - 1);
      BytesNext(cfg, ms[k - 1], moves[k - 1]);
    }
  }

  /** The bytes at `p` after a step were there before, or are an approved file's staged prefix, or
      were the staged bytes of a change with this target and have its approved digest. */
  ghost predicate Accounted(cfg: Config, before: Tree, after: Tree, p: Path)
    requires p in after
  {
    || Get(before, p) == Get(after, p)
    || (exists i :: 0 <= i < |cfg.changes| && StagesPiece(cfg, before, after, p, i))
    || (exists i :: 0 <= i < |cfg.changes| && Publishes(cfg, before, after, p, i))
  }

  /** A piece of the approved file replaced what was at its staging path, or was added to it. */
  ghost predicate StagesPiece(cfg: Config, before: Tree, after: Tree, p: Path, i: nat)
    requires p in after && i < |cfg.changes|
  {
    && HoldsApproved(cfg, i) && cfg.changes[i].action.staging == p
    && SomePieceLands(if p in before then before[p] else [], after[p], cfg.changes[i].action.content.value)
  }

  ghost predicate SomePieceLands(held: Bytes, now: Bytes, content: Bytes) {
    exists a: nat, b: nat :: PieceLands(held, now, content, a, b)
  }

  predicate PieceLands(held: Bytes, now: Bytes, content: Bytes, a: nat, b: nat) {
    a <= b <= |content| && now == (if a == 0 then [] else held) + content[a..b]
  }

  predicate Publishes(cfg: Config, before: Tree, after: Tree, p: Path, i: nat)
    requires p in after && i < |cfg.changes|
  {
    && cfg.changes[i].target == p && cfg.changes[i].action.Write? && Get(before, cfg.changes[i].action.staging) == Some(after[p])
    && cfg.hash(after[p]) == cfg.changes[i].action.desired
  }

  lemma ChunkAccounted(cfg: Config, w: World, i: nat, k: nat, p: Path)
    requires Wf(cfg, w, WriteChunk(i, k)) && BytesInv(cfg, WriteChunk(i, k))
    requires p in Step(cfg, w, WriteChunk(i, k)).0.tree
    ensures Accounted(cfg, w.tree, Step(cfg, w, WriteChunk(i, k)).0.tree, p)
  {
    var content := cfg.changes[i].action.content.value;
    var next := if k + cfg.chunk < |content| then k + cfg.chunk else |content|;
    var after := Step(cfg, w, WriteChunk(i, k)).0.tree;
    if p == cfg.changes[i].action.staging {
      assert PieceLands(if p in w.tree then w.tree[p] else [], after[p], content, k, next);
      assert StagesPiece(cfg, w.tree, after, p, i);
    }
  }

  lemma SwapAccounted(cfg: Config, w: World, i: nat, p: Path)
    requires Wf(cfg, w, Swap(i)) && p in Step(cfg, w, Swap(i)).0.tree
    ensures Accounted(cfg, w.tree, Step(cfg, w, Swap(i)).0.tree, p)
  {
    var after := Step(cfg, w, Swap(i)).0.tree;
    assert Get(w.tree, p) != Get(after, p) ==> Publishes(cfg, w.tree, after, p, i);
  }

  lemma StepAccounted(cfg: Config, w: World, pc: Pc, p: Path)
    requires Wf(cfg, w, pc) && pc != Idle && BytesInv(cfg, pc) && p in Step(cfg, w, pc).0.tree
    ensures Accounted(cfg, w.tree, Step(cfg, w, pc).0.tree, p)
  {
    hide StagesPiece, Publishes, BytesInv;
    match pc
    case WriteChunk(i, k) => ChunkAccounted(cfg, w, i, k, p);
    case Swap(i) => SwapAccounted(cfg, w, i, p);
    case _ =>
  }

  /** No step of any run puts bytes anywhere but pieces of the approved file on its staging path, or
      onto a target staged bytes of the approved digest. */
  lemma OnlyApprovedBytes(cfg: Config, ms: seq<Machine>, moves: seq<Move>, k: nat, p: Path)
    requires RunFromRest(cfg, ms, moves) && k < |moves| && !moves[k].Foreign? && p in ms[k + 1].w.tree
    ensures Accounted(cfg, ms[k].w.tree, ms[k + 1].w.tree, p)
  {
    hide Accounted, BytesInv, Step, Wf;
    BytesHold(cfg, ms, moves, k);
    assert Allowed(ms[k], moves[k]) && ms[k + 1] == Next(cfg, ms[k], moves[k]);
    if moves[k].Tick? {
      StepAccounted(cfg, ms[k].w, ms[k].pc, p);
    } else {
      Unmoved(cfg, ms[k].w.tree, p);
    }
  }

  lemma Unmoved(cfg: Config, tree: Tree, p: Path)
    requires p in tree
    ensures Accounted(cfg, tree, tree, p)
  {
  }

  /* ---- records only go forward ---- */

  function Rank(s: FileState): nat {
    match s
    case Pending => 0
    case Staged => 1
    case Done => 2
  }

  /** On a file not yet done, and before it is marked as staged on one still pending. */
  predicate ForwardInv(cfg: Config, m: Machine)
    requires Wf(cfg, m.w, m.pc)
  {
    && (m.pc.MarkStaged? || m.pc.VerifyStaged? || m.pc.WriteChunk? ==> m.w.files[m.pc.i] == Pending)
    && (m.w.state == Published ==> m.pc == Idle || m.pc == FinishChangeSet || m.pc == Cleanup)
    && (m.w.state == Conflicted ==> m.pc == Idle || m.pc == GiveUpChangeSet(true))
  }

  lemma ForwardNext(cfg: Config, m: Machine, move: Move, i: nat)
    requires Wf(cfg, m.w, m.pc) && Allowed(m, move) && ForwardInv(cfg, m) && i < |cfg.changes|
    ensures var m' := Next(cfg, m, move);
      && Rank(m.w.files[i]) <= Rank(m'.w.files[i])
      && (m.w.state == Published || m.w.state == Conflicted ==> m'.w.state == m.w.state)
  {
  }

  lemma {:induction false} ForwardHolds(cfg: Config, ms: seq<Machine>, moves: seq<Move>, k: nat)
    requires RunFromRest(cfg, ms, moves) && k < |ms|
    ensures Wf(cfg, ms[k].w, ms[k].pc) && ForwardInv(cfg, ms[k])
  {
    hide ForwardInv, Next, Wf, Allowed;
    if k > 0 {
      ForwardHolds(cfg, ms, moves, k - 1);
      ForwardKeeps(cfg, ms[k - 1], moves[k - 1]);
    } else {
      RestForward(cfg, ms[0]);
    }
  }

  lemma ForwardKeeps(cfg: Config, m: Machine, move: Move)
    requires Wf(cfg, m.w, m.pc) && Allowed(m, move) && ForwardInv(cfg, m)
    ensures ForwardInv(cfg, Next(cfg, m, move))
  {
  }

  lemma RestForward(cfg: Config, m: Machine)
    requires Wf(cfg, m.w, m.pc) && m.pc == Idle
    ensures ForwardInv(cfg, m)
  {
  }

  /** Whatever happens, a file's record never falls back, and a published or conflicted publication
      stays just that. */
  lemma {:induction false} RecordsGoForward(cfg: Config, ms: seq<Machine>, moves: seq<Move>, j: nat, k: nat, i: nat)
    requires RunFromRest(cfg, ms, moves) && j <= k < |ms| && i < |cfg.changes|
    ensures |ms[j].w.files| == |ms[k].w.files| == |cfg.changes| && Rank(ms[j].w.files[i]) <= Rank(ms[k].w.files[i])
    ensures ms[j].w.state == Published || ms[j].w.state == Conflicted ==> ms[k].w.state == ms[j].w.state
  {
    hide ForwardInv, Next, Allowed;
    if j < k {
      RecordsGoForward(cfg, ms, moves, j, k - 1, i);
      ForwardHolds(cfg, ms, moves, k - 1);
      ForwardNext(cfg, ms[k - 1], moves[k - 1], i);
    }
  }
}
