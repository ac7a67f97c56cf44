/** `WorkspacePublisher.publish` as a machine of atomic steps: every relay call and every store
    write is one step, a crash forgets where the run stood, and a new run starts from the store. */
module Publisher {
  import opened Text
  import opened Relay

  datatype Action =
    | Write(desired: Digest, staging: Path, content: Option<Bytes>, size: nat)
    | Remove

  /** `content` is the file the workspace holds for the path when the run reads it. */
  datatype Change = Change(target: Path, expected: Option<Digest>, action: Action)

  /** Who approved the change set, and the digest of what was approved. */
  datatype Approval = Approval(actor: string, digest: Digest)

  /** `digest` is the change set's own, `actor` the caller of `publish`. */
  datatype Config = Config(hash: Bytes -> Digest, changes: seq<Change>, chunk: nat, root: Path,
                           actor: string, owner: string, digest: Digest, approval: Option<Approval>)

  datatype FileState = Pending | Staged | Done

  datatype PublicationState = Prepared | Publishing | Published | Conflicted | Failed

  /** The states of the change set that a run can meet or leave. */
  datatype ChangeSetState = CsApproved | CsPublishing | CsPublished | CsConflicted | CsFailed

  /** What survives a crash: the file tree and the two store records. */
  datatype World = World(tree: Tree, state: PublicationState, files: seq<FileState>, changeSet: ChangeSetState)

  datatype Pc =
    | Idle
    | MarkPublishing
    | MarkChangeSet
    | Inspect(i: nat)
    | WriteChunk(i: nat, k: nat)
    | VerifyStaged(i: nat)
    | MarkStaged(i: nat)
    | Swap(i: nat)
    | Unlink(i: nat)
    | MarkDone(i: nat)
    | Finish
    | FinishChangeSet
    | Cleanup
    | GiveUp(conflict: bool)
    | GiveUpChangeSet(conflict: bool)

  predicate Wf(cfg: Config, w: World, pc: Pc) {
    && cfg.chunk > 0 && |w.files| == |cfg.changes|
    && match pc
       case Inspect(i) => i <= |cfg.changes|
       case WriteChunk(i, k) => i < |cfg.changes| && cfg.changes[i].action.Write? && cfg.changes[i].action.content.Some?
                                && k <= |cfg.changes[i].action.content.value|
       case VerifyStaged(i) => i < |cfg.changes| && cfg.changes[i].action.Write?
       case MarkStaged(i) => i < |cfg.changes| && cfg.changes[i].action.Write?
       case Swap(i) => i < |cfg.changes| && cfg.changes[i].action.Write?
       case Unlink(i) => i < |cfg.changes| && cfg.changes[i].action.Remove? && cfg.changes[i].expected.Some?
       case MarkDone(i) => i < |cfg.changes|
       case _ => true
  }

  /** `_local_content`: the workspace file still has the approved size and digest. */
  predicate Intact(cfg: Config, a: Action) {
    a.Write? ==> a.content.Some? && |a.content.value| == a.size && cfg.hash(a.content.value) == a.desired
  }

  /** `_validate_approval`, the change set's state apart. */
  predicate Approved(cfg: Config) {
    cfg.owner == cfg.actor && cfg.approval == Some(Approval(cfg.actor, cfg.digest))
  }

  /** A call of `publish`: a terminal publication is returned, an unapproved change set raises. */
  function Start(cfg: Config, w: World): Pc {
    if w.state == Published || w.state == Conflicted then Idle
    else if w.changeSet != CsApproved && w.changeSet != CsPublishing then Idle
    else if !Approved(cfg) then Idle
    else MarkPublishing
  }

  function Inspected(cfg: Config, w: World, i: nat): Pc
    requires Wf(cfg, w, Inspect(i)) && i < |cfg.changes|
  {
    var c := cfg.changes[i];
    var current := DigestAt(cfg.hash, w.tree, c.target);
    if w.files[i] == Done then Inspect(i + 1)
    else
      match c.action
      case Remove =>
        if current == None then MarkDone(i)
        else if current != c.expected then GiveUp(true)
        else Unlink(i)
      case Write(desired, _, _, _) =>
        if current == Some(desired) then MarkDone(i)
        else if current != c.expected then GiveUp(true)
        else if w.files[i] == Staged then Swap(i)
        else if Intact(cfg, c.action) then WriteChunk(i, 0)
        else Idle
  }

  function AfterOutcome(i: nat, o: Outcome): Pc {
    match o
    case Committed => MarkDone(i)
    case AlreadyCommitted => MarkDone(i)
    case Conflict => GiveUp(true)
    case StagedMismatch => GiveUp(false)
  }

  /** One atomic step of a running publication. */
  function Step(cfg: Config, w: World, pc: Pc): (r: (World, Pc))
    requires Wf(cfg, w, pc) && pc != Idle
    ensures Wf(cfg, r.0, r.1)
  {
    match pc
    case MarkPublishing => (if w.state == Prepared then w.(state := Publishing) else w, MarkChangeSet)
    case MarkChangeSet => (if w.changeSet == CsApproved then w.(changeSet := CsPublishing) else w, Inspect(0))
    case Inspect(i) => (w, if i == |cfg.changes| then Finish else Inspected(cfg, w, i))
    case WriteChunk(i, k) =>
      var a := cfg.changes[i].action;
      var content := a.content.value;
      var next := if k + cfg.chunk < |content| then k + cfg.chunk else |content|;
      (w.(tree := AfterChunk(w.tree, a.staging, content[k..next], if k == 0 then 0 else -1)),
       if next == |content| then VerifyStaged(i) else WriteChunk(i, next))
    case VerifyStaged(i) =>
      var a := cfg.changes[i].action;
      (w, if DigestAt(cfg.hash, w.tree, a.staging) == Some(a.desired) then MarkStaged(i) else GiveUp(false))
    case MarkStaged(i) => (w.(files := w.files[i := Staged]), Swap(i))
    case Swap(i) =>
      var c := cfg.changes[i];
      (w.(tree := AfterSwap(cfg.hash, w.tree, c.action.staging, c.target, c.expected, c.action.desired)),
       AfterOutcome(i, SwapOutcome(cfg.hash, w.tree, c.action.staging, c.target, c.expected, c.action.desired)))
    case Unlink(i) =>
      var c := cfg.changes[i];
      (w.(tree := AfterDelete(cfg.hash, w.tree, c.target, c.expected.value)),
       AfterOutcome(i, DeleteOutcome(cfg.hash, w.tree, c.target, c.expected.value)))
    case MarkDone(i) => (w.(files := w.files[i := Done]), Inspect(i + 1))
    case Finish => (w.(state := Published), FinishChangeSet)
    case FinishChangeSet => (w.(changeSet := CsPublished), Cleanup)
    case Cleanup => (w.(tree := AfterRemove(w.tree, cfg.root)), Idle)
    case GiveUp(conflict) => (w.(state := if conflict then Conflicted else Failed), GiveUpChangeSet(conflict))
    case GiveUpChangeSet(conflict) => (w.(changeSet := if conflict then CsConflicted else CsFailed), Idle)
  }

  /* ---- termination of one run ---- */

  function Stage(pc: Pc): nat {
    match pc
    case MarkPublishing => 9
    case MarkChangeSet => 8
    case Inspect(_) => 7
    case WriteChunk(_, _) => 6
    case VerifyStaged(_) => 5
    case MarkStaged(_) => 4
    case Swap(_) => 3
    case Unlink(_) => 3
    case MarkDone(_) => 2
    case Finish => 6
    case FinishChangeSet => 5
    case Cleanup => 4
    case GiveUp(_) => 1
    case GiveUpChangeSet(_) => 0
    case Idle => 0
  }

  /** Files not yet passed, plus one; the steps after the last file, or after giving up, share the
      lowest values. */
  function Left(cfg: Config, pc: Pc): int {
    match pc
    case MarkPublishing => |cfg.changes| + 1
    case MarkChangeSet => |cfg.changes| + 1
    case Inspect(i) => |cfg.changes| - i
    case WriteChunk(i, _) => |cfg.changes| - i
    case VerifyStaged(i) => |cfg.changes| - i
    case MarkStaged(i) => |cfg.changes| - i
    case Swap(i) => |cfg.changes| - i
    case Unlink(i) => |cfg.changes| - i
    case MarkDone(i) => |cfg.changes| - i
    case _ => 0
  }

  function ToWrite(cfg: Config, w: World, pc: Pc): nat
    requires Wf(cfg, w, pc)
  {
    match pc
    case WriteChunk(i, k) => |cfg.changes[i].action.content.value| - k
    case _ => 0
  }

  /** The run from here to its return, with nothing else touching the tree. */
  function RunToEnd(cfg: Config, w: World, pc: Pc): World
    requires Wf(cfg, w, pc)
    decreases Left(cfg, pc), Stage(pc), ToWrite(cfg, w, pc)
  {
    if pc == Idle then w
    else
      var (w', pc') := Step(cfg, w, pc);
      if pc' == Idle then w' else RunToEnd(cfg, w', pc')
  }

  /** One whole call of `publish`. */
  function Publish(cfg: Config, w: World): World
    requires Wf(cfg, w, Idle)
  {
    RunToEnd(cfg, w, Start(cfg, w))
  }

  /* ---- runs with crashes and foreign writers ---- */

  datatype Move =
    | Call
    | Tick
    | Crash
    | Foreign(path: Path, content: Option<Bytes>)

  datatype Machine = Machine(w: World, pc: Pc)

  predicate Allowed(m: Machine, move: Move) {
    match move
    case Call => m.pc == Idle
    case Tick => m.pc != Idle
    case _ => true
  }

  function Next(cfg: Config, m: Machine, move: Move): (m': Machine)
    requires Wf(cfg, m.w, m.pc) && Allowed(m, move)
    ensures Wf(cfg, m'.w, m'.pc)
  {
    match move
    case Call => m.(pc := Start(cfg, m.w))
    case Tick => var (w', pc') := Step(cfg, m.w, m.pc); Machine(w', pc')
    case Crash => m.(pc := Idle)
    case Foreign(p, c) =>
      m.(w := m.w.(tree := match c case Some(bytes) => m.w.tree[p := bytes] case None => m.w.tree - {p}))
  }

  /** A run: the machines passed through, one per move and one to start from. */
  ghost predicate IsRun(cfg: Config, ms: seq<Machine>, moves: seq<Move>) {
    && |ms| == |moves| + 1
    && (forall k :: 0 <= k < |ms| ==> Wf(cfg, ms[k].w, ms[k].pc))
    && (forall k :: 0 <= k < |moves| ==> Allowed(ms[k], moves[k]) && ms[k + 1] == Next(cfg, ms[k], moves[k]))
  }

  /** Left alone, a run comes to its end in finitely many ticks, with the world `RunToEnd` says. */
  lemma {:induction false} RunEnds(cfg: Config, w: World, pc: Pc) returns (ms: seq<Machine>, moves: seq<Move>)
    requires Wf(cfg, w, pc)
    ensures IsRun(cfg, ms, moves) && (forall k :: 0 <= k < |moves| ==> moves[k] == Tick)
    ensures ms[0] == Machine(w, pc) && ms[|moves|] == Machine(RunToEnd(cfg, w, pc), Idle)
    decreases Left(cfg, pc), Stage(pc), ToWrite(cfg, w, pc)
  {
    if pc == Idle {
      ms, moves := [Machine(w, pc)], [];
    } else {
      var (w', pc') := Step(cfg, w, pc);
      var ms', moves' := [Machine(w', Idle)], [];
      if pc' != Idle {
        ms', moves' := RunEnds(cfg, w', pc');
      }
      MoveFirst(cfg, Machine(w, pc), Tick, ms', moves');
      ms, moves := [Machine(w, pc)] + ms', [Tick] + moves';
    }
  }

  lemma MoveFirst(cfg: Config, m: Machine, move: Move, ms: seq<Machine>, moves: seq<Move>)
    requires Wf(cfg, m.w, m.pc) && Allowed(m, move) && IsRun(cfg, ms, moves) && ms[0] == Next(cfg, m, move)
    ensures IsRun(cfg, [m] + ms, [move] + moves)
  {
    hide Wf, Next, Allowed;
  }

  lemma MoveLast(cfg: Config, ms: seq<Machine>, moves: seq<Move>, move: Move)
    requires IsRun(cfg, ms, moves) && Allowed(ms[|moves|], move)
    ensures IsRun(cfg, ms + [Next(cfg, ms[|moves|], move)], moves + [move])
  {
    hide Wf, Next, Allowed;
  }

  predicate Fresh(cfg: Config, w: World) {
    && w.state == Prepared && w.changeSet == CsApproved
    && |w.files| == |cfg.changes| && (forall i :: 0 <= i < |w.files| ==> w.files[i] == Pending)
  }

  /** The target of change `i` is as the change wants it. */
  predicate Achieved(cfg: Config, tree: Tree, i: nat)
    requires i < |cfg.changes|
  {
    match cfg.changes[i].action
    case Write(desired, _, _, _) => DigestAt(cfg.hash, tree, cfg.changes[i].target) == Some(desired)
    case Remove => cfg.changes[i].target !in tree
  }

  /** The target is neither as the change found it when approved nor as it wants it. */
  predicate Foreigned(cfg: Config, tree: Tree, i: nat)
    requires i < |cfg.changes|
  {
    !Achieved(cfg, tree, i) && DigestAt(cfg.hash, tree, cfg.changes[i].target) != cfg.changes[i].expected
  }

  /** Paths the publisher may touch on its own account. */
  predicate OwnPath(cfg: Config, p: Path) {
    Under(cfg.root, p) || exists i :: 0 <= i < |cfg.changes| && cfg.changes[i].action.Write? && cfg.changes[i].action.staging == p
  }

  /** In any state whatever, a step of the publisher changes a path outside its staging area only
      by turning the target of one change from its expected content into its desired one. */
  lemma StepSafety(cfg: Config, w: World, pc: Pc, p: Path)
    requires Wf(cfg, w, pc) && pc != Idle && !OwnPath(cfg, p)
    ensures var w' := Step(cfg, w, pc).0;
      Get(w'.tree, p) != Get(w.tree, p) ==>
        exists i :: 0 <= i < |cfg.changes| && cfg.changes[i].target == p && w.files[i] == w'.files[i]
          && DigestAt(cfg.hash, w.tree, p) == cfg.changes[i].expected && Achieved(cfg, w'.tree, i)
  {
    match pc
    case WriteChunk(i, _) => assert OwnPath(cfg, cfg.changes[i].action.staging);
    case Swap(i) => assert OwnPath(cfg, cfg.changes[i].action.staging);
    case _ =>
  }

  /** Hence over a whole run with foreign writers and crashes anywhere. */
  lemma RunSafety(cfg: Config, ms: seq<Machine>, moves: seq<Move>, k: nat, p: Path)
    requires IsRun(cfg, ms, moves) && k < |moves| && !moves[k].Foreign? && !OwnPath(cfg, p)
    ensures Get(ms[k + 1].w.tree, p) != Get(ms[k].w.tree, p) ==>
      exists i :: 0 <= i < |cfg.changes| && cfg.changes[i].target == p
        && DigestAt(cfg.hash, ms[k].w.tree, p) == cfg.changes[i].expected && Achieved(cfg, ms[k + 1].w.tree, i)
  {
    if moves[k].Tick? {
      StepSafety(cfg, ms[k].w, ms[k].pc, p);
    }
  }

  /* ---- what the records witness, foreign writers or not ---- */

  ghost predicate Seen(cfg: Config, ms: seq<Machine>, k: nat, i: nat)
    requires i < |cfg.changes| && k < |ms|
  {
    exists j :: 0 <= j <= k && Achieved(cfg, ms[j].w.tree, i)
  }

  ghost predicate SeenForeign(cfg: Config, ms: seq<Machine>, k: nat)
    requires k < |ms|
  {
    exists j, i :: 0 <= j <= k && 0 <= i < |cfg.changes| && Foreigned(cfg, ms[j].w.tree, i)
  }

  /** A staged file was found without the digest it was to have. */
  ghost predicate SeenMismatch(cfg: Config, ms: seq<Machine>, k: nat)
    requires k < |ms|
  {
    exists j, i :: 0 <= j <= k && 0 <= i < |cfg.changes| && Mismatched(cfg, ms[j].w.tree, i)
  }

  predicate Mismatched(cfg: Config, tree: Tree, i: nat)
    requires i < |cfg.changes|
  {
    && cfg.changes[i].action.Write?
    && DigestAt(cfg.hash, tree, cfg.changes[i].action.staging) != Some(cfg.changes[i].action.desired)
  }

  /** The staged file of a change had the approved digest. */
  ghost predicate SeenStaged(cfg: Config, ms: seq<Machine>, k: nat, i: nat)
    requires k < |ms| && i < |cfg.changes|
  {
    cfg.changes[i].action.Write? && exists j :: 0 <= j <= k && !Mismatched(cfg, ms[j].w.tree, i)
  }

  /** Steps that work on one file, having passed all files before it. */
  predicate OnFile(pc: Pc) {
    pc.Inspect? || pc.WriteChunk? || pc.VerifyStaged? || pc.MarkStaged? || pc.Swap? || pc.Unlink? || pc.MarkDone?
  }

  /** Every record has its witness in the run so far. */
  ghost predicate Witnessed(cfg: Config, ms: seq<Machine>, k: nat)
    requires k < |ms|
  {
    Wf(cfg, ms[k].w, ms[k].pc) && FilesWitnessed(cfg, ms, k) && VerdictWitnessed(cfg, ms, k)
  }

  ghost predicate FilesWitnessed(cfg: Config, ms: seq<Machine>, k: nat)
    requires k < |ms| && Wf(cfg, ms[k].w, ms[k].pc)
  {
    var w, pc := ms[k].w, ms[k].pc;
    && (forall i :: 0 <= i < |w.files| && w.files[i] == Done ==> Seen(cfg, ms, k, i))
    && (pc.MarkDone? ==> Seen(cfg, ms, k, pc.i))
    && (forall i :: 0 <= i < |w.files| && w.files[i] == Staged ==> SeenStaged(cfg, ms, k, i))
    && (pc.MarkStaged? ==> SeenStaged(cfg, ms, k, pc.i))
  }

  ghost predicate VerdictWitnessed(cfg: Config, ms: seq<Machine>, k: nat)
    requires k < |ms| && Wf(cfg, ms[k].w, ms[k].pc)
  {
    var w, pc := ms[k].w, ms[k].pc;
    && (OnFile(pc) ==> forall i :: 0 <= i < pc.i ==> w.files[i] == Done)
    && (w.state == Published || pc == Finish ==> forall i :: 0 <= i < |w.files| ==> w.files[i] == Done)
    && (w.state == Published ==> pc == Idle || pc == FinishChangeSet || pc == Cleanup)
    && (w.state == Conflicted ==> pc == Idle || pc == GiveUpChangeSet(true))
    && (w.state == Conflicted || pc == GiveUp(true) ==> SeenForeign(cfg, ms, k))
    && (w.state == Failed || pc == GiveUp(false) ==> SeenMismatch(cfg, ms, k))
  }

  lemma SeenLater(cfg: Config, ms: seq<Machine>, k: nat)
    requires k + 1 < |ms|
    ensures forall i :: 0 <= i < |cfg.changes| && Seen(cfg, ms, k, i) ==> Seen(cfg, ms, k + 1, i)
    ensures forall i :: 0 <= i < |cfg.changes| && SeenStaged(cfg, ms, k, i) ==> SeenStaged(cfg, ms, k + 1, i)
    ensures SeenForeign(cfg, ms, k) ==> SeenForeign(cfg, ms, k + 1)
    ensures SeenMismatch(cfg, ms, k) ==> SeenMismatch(cfg, ms, k + 1)
  {
  }

  /** A tick that goes on to record a file, or to give up, has just seen the reason. */
  lemma TickSees(cfg: Config, ms: seq<Machine>, k: nat)
    requires k + 1 < |ms| && Wf(cfg, ms[k].w, ms[k].pc) && ms[k].pc != Idle
    requires (ms[k + 1].w, ms[k + 1].pc) == Step(cfg, ms[k].w, ms[k].pc)
    ensures ms[k + 1].pc.MarkDone? ==> Seen(cfg, ms, k + 1, ms[k + 1].pc.i)
    ensures ms[k + 1].pc.MarkStaged? ==> SeenStaged(cfg, ms, k + 1, ms[k + 1].pc.i)
    ensures ms[k + 1].pc == GiveUp(true) ==> SeenForeign(cfg, ms, k + 1)
    ensures ms[k + 1].pc == GiveUp(false) ==> SeenMismatch(cfg, ms, k + 1)
  {
    var w, w', pc' := ms[k].w, ms[k + 1].w, ms[k + 1].pc;
    if pc'.MarkDone? {
      assert Achieved(cfg, w.tree, pc'.i) || Achieved(cfg, w'.tree, pc'.i);
    } else if pc'.MarkStaged? {
      assert !Mismatched(cfg, w.tree, pc'.i);
    } else if pc' == GiveUp(true) {
      var i := ms[k].pc.i;
      assert Foreigned(cfg, w.tree, i);
    } else if pc' == GiveUp(false) {
      var i := ms[k].pc.i;
      assert Mismatched(cfg, w.tree, i);
    }
  }

  lemma FilesWitnessedNext(cfg: Config, ms: seq<Machine>, moves: seq<Move>, k: nat)
    requires IsRun(cfg, ms, moves) && k < |moves| && Witnessed(cfg, ms, k)
    ensures Wf(cfg, ms[k + 1].w, ms[k + 1].pc) && FilesWitnessed(cfg, ms, k + 1)
  {
    hide Seen, SeenStaged, VerdictWitnessed;
    SeenLater(cfg, ms, k);
    if moves[k].Tick? {
      TickSees(cfg, ms, k);
    }
  }

  lemma VerdictWitnessedNext(cfg: Config, ms: seq<Machine>, moves: seq<Move>, k: nat)
    requires IsRun(cfg, ms, moves) && k < |moves| && Witnessed(cfg, ms, k)
    ensures Wf(cfg, ms[k + 1].w, ms[k + 1].pc) && VerdictWitnessed(cfg, ms, k + 1)
  {
    hide SeenForeign, SeenMismatch, FilesWitnessed;
    SeenLater(cfg, ms, k);
    if moves[k].Tick? {
      TickSees(cfg, ms, k);
    }
  }

  /** Whatever foreign writers and crashes do: a file recorded as done was once as wanted, one recorded
      as staged once lay staged with its digest, a published change set had every file so, and neither
      a conflict nor a failure is spurious. */
  lemma {:induction false} RecordsAreTrue(cfg: Config, ms: seq<Machine>, moves: seq<Move>, k: nat)
    requires IsRun(cfg, ms, moves) && k < |ms| && Fresh(cfg, ms[0].w) && ms[0].pc == Idle
    ensures Witnessed(cfg, ms, k)
    ensures forall i :: 0 <= i < |cfg.changes| ==>
      (ms[k].w.files[i] == Done ==> Seen(cfg, ms, k, i)) && (ms[k].w.files[i] == Staged ==> SeenStaged(cfg, ms, k, i))
    ensures ms[k].w.state == Published ==> forall i :: 0 <= i < |cfg.changes| ==> Seen(cfg, ms, k, i)
    ensures ms[k].w.state == Conflicted ==> SeenForeign(cfg, ms, k)
    ensures ms[k].w.state == Failed ==> SeenMismatch(cfg, ms, k)
  {
    if k > 0 {
      RecordsAreTrue(cfg, ms, moves, k - 1);
      FilesWitnessedNext(cfg, ms, moves, k - 1);
      VerdictWitnessedNext(cfg, ms, moves, k - 1);
    }
  }
}
