/** Publication without foreign writers: however often a run is cut short and restarted, the tree
    and the verdict are those of one run that was never interrupted. */
module PublisherRecovery {
  import opened Text
  import opened Relay
  import opened Publisher

  /** The change set is approved; targets are distinct and lie outside the staging area, staged files inside it. */
  ghost predicate ValidCfg(cfg: Config) {
    && cfg.chunk > 0 && Approved(cfg)
    && (forall i, j :: 0 <= i < j < |cfg.changes| ==> cfg.changes[i].target != cfg.changes[j].target)
    && (forall i :: 0 <= i < |cfg.changes| ==> !Under(cfg.root, cfg.changes[i].target))
    && (forall i :: 0 <= i < |cfg.changes| && cfg.changes[i].action.Write? ==>
          Under(cfg.root, cfg.changes[i].action.staging))
  }

  /** A publication as `prepare` saves it, with nothing staged yet. */
  ghost predicate AsPrepared(cfg: Config, w: World) {
    Fresh(cfg, w) && forall p :: p in w.tree ==> !Under(cfg.root, p)
  }

  /* ---- what the approved tree makes of each change ---- */

  datatype Kind = Skips | Commits | Conflicts | Breaks

  function KindOf(cfg: Config, t0: Tree, i: nat): Kind
    requires i < |cfg.changes|
  {
    var c := cfg.changes[i];
    var digest := DigestAt(cfg.hash, t0, c.target);
    if (if c.action.Remove? then digest == None else digest == Some(c.action.desired)) then Skips
    else if digest != c.expected then Conflicts
    else if Intact(cfg, c.action) then Commits
    else Breaks
  }

  predicate Stops(cfg: Config, t0: Tree, i: nat)
    requires i < |cfg.changes|
  {
    KindOf(cfg, t0, i) == Conflicts || KindOf(cfg, t0, i) == Breaks
  }

  function Final(cfg: Config, t0: Tree, i: nat): Option<Bytes>
    requires i < |cfg.changes|
  {
    var c := cfg.changes[i];
    if KindOf(cfg, t0, i) == Commits then (if c.action.Remove? then None else c.action.content)
    else Get(t0, c.target)
  }

  /* ---- the invariant ---- */

  /** The first file not recorded as done. */
  function Front(files: seq<FileState>): (f: nat)
    ensures f <= |files| && forall i :: 0 <= i < f ==> files[i] == Done
    ensures f < |files| ==> files[f] != Done
  {
    if files == [] || files[0] != Done then 0 else 1 + Front(files[1..])
  }

  predicate IsTarget(cfg: Config, p: Path) {
    exists i :: 0 <= i < |cfg.changes| && cfg.changes[i].target == p
  }

  predicate StagedFor(cfg: Config, f: nat, p: Path) {
    f < |cfg.changes| && cfg.changes[f].action.Write? && cfg.changes[f].action.staging == p
  }

  /** Files before `f` are final, files after it untouched, and only file `f` may be staged. */
  ghost predicate TreeInv(cfg: Config, t0: Tree, tree: Tree, f: nat) {
    && (forall p :: !Under(cfg.root, p) && !IsTarget(cfg, p) ==> Get(tree, p) == Get(t0, p))
    && (forall i :: 0 <= i < f && i < |cfg.changes| ==> Get(tree, cfg.changes[i].target) == Final(cfg, t0, i))
    && (forall i :: f < i < |cfg.changes| ==> Get(tree, cfg.changes[i].target) == Get(t0, cfg.changes[i].target))
    && (forall p :: Under(cfg.root, p) && p in tree ==> StagedFor(cfg, f, p))
  }

  ghost predicate FilesInv(cfg: Config, t0: Tree, files: seq<FileState>) {
    && |files| == |cfg.changes|
    && (forall i :: Front(files) < i < |files| ==> files[i] == Pending)
    && (forall i :: 0 <= i < Front(files) ==> !Stops(cfg, t0, i))
  }

  function StagedBytes(cfg: Config, tree: Tree, f: nat): Option<Bytes>
    requires f < |cfg.changes|
  {
    if cfg.changes[f].action.Write? then Get(tree, cfg.changes[f].action.staging) else None
  }

  /** The file in progress. */
  predicate Untouched(cfg: Config, t0: Tree, tree: Tree, f: nat)
    requires f < |cfg.changes|
  {
    Get(tree, cfg.changes[f].target) == Get(t0, cfg.changes[f].target)
  }

  predicate Landed(cfg: Config, t0: Tree, tree: Tree, f: nat)
    requires f < |cfg.changes|
  {
    Get(tree, cfg.changes[f].target) == Final(cfg, t0, f) && StagedBytes(cfg, tree, f) == None
  }

  predicate MidInv(cfg: Config, t0: Tree, tree: Tree, s: FileState, f: nat)
    requires f < |cfg.changes|
  {
    var c := cfg.changes[f];
    if KindOf(cfg, t0, f) != Commits then s == Pending && Landed(cfg, t0, tree, f)
    else if s == Pending then
      Untouched(cfg, t0, tree, f) || (c.action.Remove? && Landed(cfg, t0, tree, f))
    else
      && c.action.Write?
      && ((Untouched(cfg, t0, tree, f) && StagedBytes(cfg, tree, f) == c.action.content) || Landed(cfg, t0, tree, f))
  }

  /** Ready for a step on file `f`: it commits and its target is still as approved. */
  predicate Ready(cfg: Config, t0: Tree, w: World, f: nat)
    requires f < |cfg.changes|
  {
    KindOf(cfg, t0, f) == Commits && Untouched(cfg, t0, w.tree, f)
  }

  predicate PcInv(cfg: Config, t0: Tree, w: World, pc: Pc, f: nat)
    requires Wf(cfg, w, pc) && f <= |cfg.changes|
  {
    match pc
    case Idle => true
    case MarkPublishing => true
    case MarkChangeSet => true
    case Inspect(i) => i <= f
    case WriteChunk(i, k) => i == f && w.files[i] == Pending && Ready(cfg, t0, w, f)
        && (k > 0 ==> StagedBytes(cfg, w.tree, f) == Some(cfg.changes[f].action.content.value[..k]))
    case VerifyStaged(i) => i == f && w.files[i] == Pending && Ready(cfg, t0, w, f)
        && StagedBytes(cfg, w.tree, f) == cfg.changes[f].action.content
    case MarkStaged(i) => i == f && w.files[i] == Pending && Ready(cfg, t0, w, f)
        && StagedBytes(cfg, w.tree, f) == cfg.changes[f].action.content
    case Swap(i) => i == f && w.files[i] == Staged && Ready(cfg, t0, w, f)
        && StagedBytes(cfg, w.tree, f) == cfg.changes[f].action.content
    case Unlink(i) => i == f && Ready(cfg, t0, w, f)
    case MarkDone(i) => i == f && !Stops(cfg, t0, f) && Landed(cfg, t0, w.tree, f)
    case Finish => f == |cfg.changes|
    case FinishChangeSet => w.state == Published
    case Cleanup => w.state == Published && w.changeSet == CsPublished
    case GiveUp(conflict) => conflict && f < |cfg.changes| && KindOf(cfg, t0, f) == Conflicts
    case GiveUpChangeSet(conflict) => conflict && w.state == Conflicted
  }

  /** The two store records never run ahead of the files, nor of each other. */
  predicate StoreInv(cfg: Config, t0: Tree, w: World, pc: Pc, f: nat)
    requires f <= |cfg.changes|
  {
    && w.state != Failed && w.changeSet != CsFailed
    && (w.state == Published ==>
          f == |cfg.changes| && (pc == Idle || pc == FinishChangeSet || pc == Cleanup))
    && (w.state == Conflicted ==>
          f < |cfg.changes| && KindOf(cfg, t0, f) == Conflicts && (pc == Idle || pc == GiveUpChangeSet(true)))
    && (w.state == Prepared ==> pc == Idle || pc == MarkPublishing)
    && (w.changeSet == CsApproved ==> pc == Idle || pc == MarkPublishing || pc == MarkChangeSet)
    && (w.changeSet == CsPublished ==> w.state == Published && (pc == Idle || pc == Cleanup))
    && (w.changeSet == CsConflicted ==> w.state == Conflicted && pc == Idle)
  }

  ghost predicate Inv(cfg: Config, t0: Tree, w: World, pc: Pc) {
    && Wf(cfg, w, pc) && FilesInv(cfg, t0, w.files)
    && TreeInv(cfg, t0, w.tree, Front(w.files))
    && (Front(w.files) < |cfg.changes| ==> MidInv(cfg, t0, w.tree, w.files[Front(w.files)], Front(w.files)))
    && PcInv(cfg, t0, w, pc, Front(w.files))
    && StoreInv(cfg, t0, w, pc, Front(w.files))
  }

  lemma PreparedInv(cfg: Config, w: World)
    requires ValidCfg(cfg) && AsPrepared(cfg, w)
    ensures Inv(cfg, w.tree, w, Idle)
  {
    var f := Front(w.files);
    assert f == 0;
    if f < |cfg.changes| && cfg.changes[f].action.Write? {
      assert Under(cfg.root, cfg.changes[f].action.staging);
    }
  }

  /* ---- every step keeps it ---- */

  lemma FrontIs(files: seq<FileState>, f: nat)
    requires f <= |files| && forall i :: 0 <= i < f ==> files[i] == Done
    requires f < |files| ==> files[f] != Done
    ensures Front(files) == f
  {
  }

  /** Writing the staged file of the change in progress disturbs nothing else. */
  lemma StageFrame(cfg: Config, t0: Tree, tree: Tree, f: nat, bytes: Bytes)
    requires ValidCfg(cfg) && f < |cfg.changes| && cfg.changes[f].action.Write? && TreeInv(cfg, t0, tree, f)
    ensures TreeInv(cfg, t0, tree[cfg.changes[f].action.staging := bytes], f)
    ensures Untouched(cfg, t0, tree, f) ==> Untouched(cfg, t0, tree[cfg.changes[f].action.staging := bytes], f)
    ensures StagedBytes(cfg, tree[cfg.changes[f].action.staging := bytes], f) == Some(bytes)
  {
  }

  lemma ChunkInv(cfg: Config, t0: Tree, w: World, i: nat, k: nat)
    requires ValidCfg(cfg) && Inv(cfg, t0, w, WriteChunk(i, k))
    ensures var (w', pc') := Step(cfg, w, WriteChunk(i, k)); Inv(cfg, t0, w', pc')
  {
    hide ValidCfg, TreeInv, Untouched, StagedBytes;
    var a := cfg.changes[i].action;
    var content := a.content.value;
    var next := if k + cfg.chunk < |content| then k + cfg.chunk else |content|;
    assert k == 0 ==> content[0..next] == content[..next];
    assert content[..k] + content[k..next] == content[..next];
    assert content[..|content|] == content;
    Appended(cfg, w.tree, i, content[..k], content[k..next], k);
    StageFrame(cfg, t0, w.tree, i, content[..next]);
  }

  lemma Appended(cfg: Config, tree: Tree, f: nat, held: Bytes, more: Bytes, k: nat)
    requires f < |cfg.changes| && cfg.changes[f].action.Write?
    requires k > 0 ==> StagedBytes(cfg, tree, f) == Some(held)
    requires k == 0 ==> held == []
    ensures AfterChunk(tree, cfg.changes[f].action.staging, more, if k == 0 then 0 else -1)
         == tree[cfg.changes[f].action.staging := held + more]
  {
    assert [] + more == more;
  }

  lemma SwapInv(cfg: Config, t0: Tree, w: World, i: nat)
    requires ValidCfg(cfg) && Inv(cfg, t0, w, Swap(i))
    ensures var (w', pc') := Step(cfg, w, Swap(i)); Inv(cfg, t0, w', pc')
  {
    var (w', pc') := Step(cfg, w, Swap(i));
    var c := cfg.changes[i];
    SwapPromise(cfg.hash, w.tree, c.action.staging, c.target, c.expected, c.action.desired);
    assert pc' == MarkDone(i);
  }

  lemma UnlinkInv(cfg: Config, t0: Tree, w: World, i: nat)
    requires ValidCfg(cfg) && Inv(cfg, t0, w, Unlink(i))
    ensures var (w', pc') := Step(cfg, w, Unlink(i)); Inv(cfg, t0, w', pc')
  {
    var (w', pc') := Step(cfg, w, Unlink(i));
    var c := cfg.changes[i];
    DeletePromise(cfg.hash, w.tree, c.target, c.expected.value);
  }

  lemma CleanupInv(cfg: Config, t0: Tree, w: World)
    requires ValidCfg(cfg) && Inv(cfg, t0, w, Cleanup)
    ensures var (w', pc') := Step(cfg, w, Cleanup); Inv(cfg, t0, w', pc') && w'.tree == w.tree
  {
    var (w', pc') := Step(cfg, w, Cleanup);
    assert w'.tree == w.tree;
  }

  lemma StagedInv(cfg: Config, t0: Tree, w: World, i: nat)
    requires ValidCfg(cfg) && Inv(cfg, t0, w, MarkStaged(i))
    ensures var (w', pc') := Step(cfg, w, MarkStaged(i)); Inv(cfg, t0, w', pc')
  {
    hide ValidCfg, TreeInv;
    FrontIs(w.files[i := Staged], i);
  }

  lemma FrontMoves(cfg: Config, t0: Tree, tree: Tree, f: nat)
    requires ValidCfg(cfg) && f < |cfg.changes| && TreeInv(cfg, t0, tree, f) && Landed(cfg, t0, tree, f)
    ensures TreeInv(cfg, t0, tree, f + 1)
    ensures f + 1 < |cfg.changes| ==> MidInv(cfg, t0, tree, Pending, f + 1)
  {
  }

  lemma DoneInv(cfg: Config, t0: Tree, w: World, i: nat)
    requires ValidCfg(cfg) && Inv(cfg, t0, w, MarkDone(i))
    ensures var (w', pc') := Step(cfg, w, MarkDone(i)); Inv(cfg, t0, w', pc')
  {
    hide ValidCfg, TreeInv, MidInv, Landed;
    FrontMoves(cfg, t0, w.tree, i);
    FrontIs(w.files[i := Done], i + 1);
  }

  lemma InspectInv(cfg: Config, t0: Tree, w: World, i: nat)
    requires ValidCfg(cfg) && Inv(cfg, t0, w, Inspect(i))
    ensures var (w', pc') := Step(cfg, w, Inspect(i)); Inv(cfg, t0, w', pc')
  {
    hide ValidCfg, TreeInv, Front;
  }

  lemma StoreStepInv(cfg: Config, t0: Tree, w: World, pc: Pc)
    requires ValidCfg(cfg) && Inv(cfg, t0, w, pc)
    requires pc.MarkPublishing? || pc.MarkChangeSet? || pc.VerifyStaged? || pc.Finish? || pc.FinishChangeSet? || pc.GiveUp? || pc.GiveUpChangeSet?
    ensures var (w', pc') := Step(cfg, w, pc); Inv(cfg, t0, w', pc')
  {
    hide ValidCfg, TreeInv, FilesInv, MidInv;
  }

  lemma StepInv(cfg: Config, t0: Tree, w: World, pc: Pc)
    requires ValidCfg(cfg) && Inv(cfg, t0, w, pc) && pc != Idle
    ensures var (w', pc') := Step(cfg, w, pc); Inv(cfg, t0, w', pc')
  {
    hide Inv, Wf, Step;
    match pc
    case WriteChunk(i, k) => ChunkInv(cfg, t0, w, i, k);
    case Swap(i) => SwapInv(cfg, t0, w, i);
    case Unlink(i) => UnlinkInv(cfg, t0, w, i);
    case Cleanup => CleanupInv(cfg, t0, w);
    case MarkStaged(i) => StagedInv(cfg, t0, w, i);
    case MarkDone(i) => DoneInv(cfg, t0, w, i);
    case Inspect(i) => InspectInv(cfg, t0, w, i);
    case _ => StoreStepInv(cfg, t0, w, pc);
  }

  /* ---- how a run ends ---- */

  predicate AllPass(cfg: Config, t0: Tree) {
    forall i :: 0 <= i < |cfg.changes| ==> !Stops(cfg, t0, i)
  }

  /** The first change that stops a run. */
  predicate StopsAt(cfg: Config, t0: Tree, f: nat) {
    f < |cfg.changes| && Stops(cfg, t0, f) && forall i :: 0 <= i < f ==> !Stops(cfg, t0, i)
  }

  /** Nothing is left to do: every change passed, or the first that stops a run did so. */
  predicate Settled(cfg: Config, t0: Tree, w: World) {
    if AllPass(cfg, t0) then w.state == Published && Front(w.files) == |cfg.changes|
    else
      && StopsAt(cfg, t0, Front(w.files))
      && w.state == if KindOf(cfg, t0, Front(w.files)) == Conflicts then Conflicted else Publishing
  }

  /** The change set's record says what the publication's does. */
  predicate RecordsAgree(w: World) {
    match w.state
    case Published => w.changeSet == CsPublished
    case Conflicted => w.changeSet == CsConflicted
    case Failed => w.changeSet == CsFailed
    case Publishing => w.changeSet == CsPublishing
    case Prepared => w.changeSet == CsApproved
  }

  lemma TerminalSettled(cfg: Config, t0: Tree, w: World)
    requires Inv(cfg, t0, w, Idle) && (w.state == Published || w.state == Conflicted)
    ensures Settled(cfg, t0, w)
  {
    var f := Front(w.files);
    assert f < |cfg.changes| ==> Stops(cfg, t0, f);
  }

  lemma StepEnds(cfg: Config, t0: Tree, w: World, pc: Pc)
    requires ValidCfg(cfg) && Inv(cfg, t0, w, pc) && pc != Idle && Step(cfg, w, pc).1 == Idle
    ensures Settled(cfg, t0, Step(cfg, w, pc).0) && RecordsAgree(Step(cfg, w, pc).0)
  {
    StepInv(cfg, t0, w, pc);
    if pc.Cleanup? || pc.GiveUpChangeSet? {
      TerminalSettled(cfg, t0, Step(cfg, w, pc).0);
    } else {
      BreakEnds(cfg, t0, w, pc);
    }
  }

  lemma BreakEnds(cfg: Config, t0: Tree, w: World, pc: Pc)
    requires ValidCfg(cfg) && Inv(cfg, t0, w, pc) && pc != Idle && Step(cfg, w, pc).1 == Idle
    requires !pc.Cleanup? && !pc.GiveUpChangeSet?
    ensures Settled(cfg, t0, w) && RecordsAgree(w) && Step(cfg, w, pc).0 == w
  {
    assert pc.Inspect? && pc.i == Front(w.files);
    assert KindOf(cfg, t0, pc.i) == Breaks && Stops(cfg, t0, pc.i);
  }

  lemma {:induction false} RunSettles(cfg: Config, t0: Tree, w: World, pc: Pc)
    requires ValidCfg(cfg) && Inv(cfg, t0, w, pc) && pc != Idle
    ensures Inv(cfg, t0, RunToEnd(cfg, w, pc), Idle)
    ensures Settled(cfg, t0, RunToEnd(cfg, w, pc)) && RecordsAgree(RunToEnd(cfg, w, pc))
    decreases Left(cfg, pc), Stage(pc), ToWrite(cfg, w, pc)
  {
    hide FilesInv, TreeInv, MidInv, PcInv, StoreInv, Settled, RecordsAgree, ValidCfg;
    var (w', pc') := Step(cfg, w, pc);
    StepInv(cfg, t0, w, pc);
    if pc' == Idle {
      StepEnds(cfg, t0, w, pc);
    } else {
      RunSettles(cfg, t0, w', pc');
    }
  }

  /** The crash point that no later call repairs. */
  predicate Stranded(w: World) {
    (w.state == Published || w.state == Conflicted) && !RecordsAgree(w)
  }

  lemma PublishSettles(cfg: Config, t0: Tree, w: World)
    requires ValidCfg(cfg) && Inv(cfg, t0, w, Idle)
    ensures Inv(cfg, t0, Publish(cfg, w), Idle) && Settled(cfg, t0, Publish(cfg, w))
    ensures RecordsAgree(Publish(cfg, w)) <==> !Stranded(w)
  {
    if Start(cfg, w) == Idle {
      TerminalSettled(cfg, t0, w);
    } else {
      RunSettles(cfg, t0, w, Start(cfg, w));
    }
  }

  /** The tree of a settled publication, path by path. */
  ghost predicate SettledTree(cfg: Config, t0: Tree, tree: Tree, f: nat) {
    && (forall p :: Under(cfg.root, p) ==> p !in tree)
    && (forall p :: !Under(cfg.root, p) && !IsTarget(cfg, p) ==> Get(tree, p) == Get(t0, p))
    && (forall i :: 0 <= i < |cfg.changes| ==>
          Get(tree, cfg.changes[i].target) == if i < f then Final(cfg, t0, i) else Get(t0, cfg.changes[i].target))
  }

  lemma SettledTreeHolds(cfg: Config, t0: Tree, w: World)
    requires ValidCfg(cfg) && Inv(cfg, t0, w, Idle) && Settled(cfg, t0, w)
    ensures SettledTree(cfg, t0, w.tree, Front(w.files))
    ensures Front(w.files) < |w.files| ==> w.files[Front(w.files)] == Pending
  {
  }

  lemma SettledTreeUnique(cfg: Config, t0: Tree, a: Tree, b: Tree, f: nat)
    requires SettledTree(cfg, t0, a, f) && SettledTree(cfg, t0, b, f)
    ensures a == b
  {
    forall p
      ensures Get(a, p) == Get(b, p)
    {
    }
    assert forall p :: (p in a <==> Get(a, p).Some?) && (p in b <==> Get(b, p).Some?);
  }

  lemma SettledFront(cfg: Config, t0: Tree, a: World, b: World)
    requires |a.files| == |cfg.changes| && |b.files| == |cfg.changes|
    requires Settled(cfg, t0, a) && Settled(cfg, t0, b)
    ensures Front(a.files) == Front(b.files) && a.state == b.state
  {
  }

  /** A settled publication has one possible tree, and one possible record of its files. */
  lemma SettledUnique(cfg: Config, t0: Tree, a: World, b: World)
    requires ValidCfg(cfg) && Inv(cfg, t0, a, Idle) && Inv(cfg, t0, b, Idle)
    requires Settled(cfg, t0, a) && Settled(cfg, t0, b)
    ensures a.tree == b.tree && a.files == b.files && a.state == b.state
  {
    hide SettledTree, TreeInv, MidInv, Settled;
    SettledFront(cfg, t0, a, b);
    SettledTreeHolds(cfg, t0, a);
    SettledTreeHolds(cfg, t0, b);
    SettledTreeUnique(cfg, t0, a.tree, b.tree, Front(a.files));
  }

  /* ---- recovery ---- */

  /** A run that starts from the prepared publication and meets no foreign writer. */
  ghost predicate UndisturbedRun(cfg: Config, ms: seq<Machine>, moves: seq<Move>) {
    && IsRun(cfg, ms, moves) && AsPrepared(cfg, ms[0].w) && ms[0].pc == Idle
    && forall j :: 0 <= j < |moves| ==> !moves[j].Foreign?
  }

  /** Any run without foreign writers, crashes and restarts included, keeps the invariant. */
  lemma {:induction false} RunInv(cfg: Config, ms: seq<Machine>, moves: seq<Move>, k: nat)
    requires ValidCfg(cfg) && UndisturbedRun(cfg, ms, moves) && k < |ms|
    ensures Inv(cfg, ms[0].w.tree, ms[k].w, ms[k].pc)
  {
    if k == 0 {
      PreparedInv(cfg, ms[0].w);
    } else {
      RunInv(cfg, ms, moves, k - 1);
      MoveInv(cfg, ms[0].w.tree, ms[k - 1], moves[k - 1]);
    }
  }

  lemma MoveInv(cfg: Config, t0: Tree, m: Machine, move: Move)
    requires ValidCfg(cfg) && Inv(cfg, t0, m.w, m.pc) && Allowed(m, move) && !move.Foreign?
    ensures Inv(cfg, t0, Next(cfg, m, move).w, Next(cfg, m, move).pc)
  {
    if move.Tick? {
      StepInv(cfg, t0, m.w, m.pc);
    }
  }

  /** Crashed after any step and restarted any number of times, a publication that is then left to
      finish ends with the tree, the file records and the verdict of one uninterrupted call. */
  lemma RecoveryMatches(cfg: Config, ms: seq<Machine>, moves: seq<Move>)
    requires ValidCfg(cfg) && UndisturbedRun(cfg, ms, moves)
    ensures var once, again := Publish(cfg, ms[0].w), Publish(cfg, ms[|moves|].w);
      again.tree == once.tree && again.files == once.files && again.state == once.state
  {
    var t0, w := ms[0].w.tree, ms[|moves|].w;
    PreparedInv(cfg, ms[0].w);
    RunInv(cfg, ms, moves, |moves|);
    PublishSettles(cfg, t0, ms[0].w);
    assert Inv(cfg, t0, w, Idle);
    PublishSettles(cfg, t0, w);
    SettledUnique(cfg, t0, Publish(cfg, ms[0].w), Publish(cfg, w));
  }

  /** The change set's own record recovers exactly when the crash did not fall between the two
      final store writes: a terminal publication returns at once and its change set stays as it is. */
  lemma ChangeSetRecovers(cfg: Config, ms: seq<Machine>, moves: seq<Move>)
    requires ValidCfg(cfg) && UndisturbedRun(cfg, ms, moves)
    ensures Publish(cfg, ms[|moves|].w) == Publish(cfg, ms[0].w) <==> !Stranded(ms[|moves|].w)
  {
    var t0, w := ms[0].w.tree, ms[|moves|].w;
    PreparedInv(cfg, ms[0].w);
    RunInv(cfg, ms, moves, |moves|);
    PublishSettles(cfg, t0, ms[0].w);
    assert Inv(cfg, t0, w, Idle);
    PublishSettles(cfg, t0, w);
    RecoveryMatches(cfg, ms, moves);
  }

  /** The change needs nothing, or its target is as approved and the workspace file too. */
  predicate Passes(cfg: Config, tree: Tree, c: Change) {
    match c.action
    case Remove => c.target in tree ==> c.expected == Some(cfg.hash(tree[c.target]))
    case Write(desired, _, content, size) =>
      || (c.target in tree && cfg.hash(tree[c.target]) == desired)
      || (!Clashes(cfg, tree, c) && content.Some? && |content.value| == size && cfg.hash(content.value) == desired)
  }

  /** The target is neither as approved nor as wanted. */
  predicate Clashes(cfg: Config, tree: Tree, c: Change) {
    match c.action
    case Remove => c.target in tree && c.expected != Some(cfg.hash(tree[c.target]))
    case Write(desired, _, _, _) =>
      if c.target in tree then cfg.hash(tree[c.target]) != desired && c.expected != Some(cfg.hash(tree[c.target]))
      else c.expected != None
  }

  /** Change `f` is the first that clashes, and all before it pass. */
  predicate ClashesFirst(cfg: Config, tree: Tree, f: nat) {
    && f < |cfg.changes| && Clashes(cfg, tree, cfg.changes[f])
    && forall i :: 0 <= i < f ==> Passes(cfg, tree, cfg.changes[i])
  }

  lemma KindMeaning(cfg: Config, tree: Tree, i: nat)
    requires i < |cfg.changes|
    ensures Stops(cfg, tree, i) <==> !Passes(cfg, tree, cfg.changes[i])
    ensures KindOf(cfg, tree, i) == Conflicts <==> Clashes(cfg, tree, cfg.changes[i])
  {
  }

  lemma VerdictMeaning(cfg: Config, tree: Tree)
    ensures AllPass(cfg, tree) <==> forall i :: 0 <= i < |cfg.changes| ==> Passes(cfg, tree, cfg.changes[i])
    ensures forall f: nat :: ClashesFirst(cfg, tree, f) <==> StopsAt(cfg, tree, f) && KindOf(cfg, tree, f) == Conflicts
  {
    hide Stops, KindOf, Passes, Clashes;
    forall i | 0 <= i < |cfg.changes|
      ensures Stops(cfg, tree, i) <==> !Passes(cfg, tree, cfg.changes[i])
      ensures KindOf(cfg, tree, i) == Conflicts <==> Clashes(cfg, tree, cfg.changes[i])
    {
      KindMeaning(cfg, tree, i);
    }
    assert forall i :: 0 <= i < |cfg.changes| && KindOf(cfg, tree, i) == Conflicts ==> Stops(cfg, tree, i) by {
      forall i | 0 <= i < |cfg.changes| && KindOf(cfg, tree, i) == Conflicts
        ensures Stops(cfg, tree, i)
      {
        ConflictStops(cfg, tree, i);
      }
    }
  }

  lemma ConflictStops(cfg: Config, tree: Tree, i: nat)
    requires i < |cfg.changes| && KindOf(cfg, tree, i) == Conflicts
    ensures Stops(cfg, tree, i)
  {
  }

  /** An uninterrupted call: it publishes exactly when no change clashes and every file it has to
      write is still the approved one, and then every target is as wanted. */
  lemma PublishVerdict(cfg: Config, w: World)
    requires ValidCfg(cfg) && AsPrepared(cfg, w)
    ensures Publish(cfg, w).state == Published <==> forall i :: 0 <= i < |cfg.changes| ==> Passes(cfg, w.tree, cfg.changes[i])
    ensures Publish(cfg, w).state == Published ==> forall i :: 0 <= i < |cfg.changes| ==> Achieved(cfg, Publish(cfg, w).tree, i)
    ensures Publish(cfg, w).state == Conflicted <==> exists f :: ClashesFirst(cfg, w.tree, f)
    ensures forall p :: !IsTarget(cfg, p) ==> Get(Publish(cfg, w).tree, p) == Get(w.tree, p)
  {
    hide Publish, Inv, KindOf, Passes, ClashesFirst, StopsAt;
    var r := Publish(cfg, w);
    PreparedInv(cfg, w);
    PublishSettles(cfg, w.tree, w);
    SettledTreeHolds(cfg, w.tree, r);
    VerdictOf(cfg, w.tree, r);
    VerdictMeaning(cfg, w.tree);
    forall i | r.state == Published && 0 <= i < |cfg.changes|
      ensures Achieved(cfg, r.tree, i)
    {
      FinalAchieves(cfg, w.tree, r.tree, i);
    }
  }

  lemma VerdictOf(cfg: Config, t0: Tree, r: World)
    requires Settled(cfg, t0, r)
    ensures r.state == Published <==> AllPass(cfg, t0)
    ensures r.state == Published ==> Front(r.files) == |cfg.changes|
    ensures r.state == Conflicted <==> exists f :: StopsAt(cfg, t0, f) && KindOf(cfg, t0, f) == Conflicts
  {
    if f :| StopsAt(cfg, t0, f) && KindOf(cfg, t0, f) == Conflicts {
      assert !AllPass(cfg, t0);
      assert f == Front(r.files);
    }
  }

  lemma FinalAchieves(cfg: Config, t0: Tree, tree: Tree, i: nat)
    requires i < |cfg.changes| && !Stops(cfg, t0, i)
    requires Get(tree, cfg.changes[i].target) == Final(cfg, t0, i)
    ensures Achieved(cfg, tree, i)
  {
  }

  /** The verdict is reached: no change stops the run by raising. */
  ghost predicate Decided(cfg: Config, t0: Tree) {
    forall f :: StopsAt(cfg, t0, f) ==> KindOf(cfg, t0, f) == Conflicts
  }

  /** The steps that lead up to the two final store writes, the first of them included. */
  predicate OnTheWay(pc: Pc) {
    !pc.Idle? && !Between(pc) && !pc.Cleanup?
  }

  /** Between the two final store writes. */
  predicate Between(pc: Pc) {
    pc.FinishChangeSet? || pc.GiveUpChangeSet?
  }

  lemma StepShape(cfg: Config, w: World, pc: Pc)
    requires Wf(cfg, w, pc) && OnTheWay(pc)
    ensures !Step(cfg, w, pc).1.Cleanup?
  {
  }

  lemma NoRaise(cfg: Config, t0: Tree, w: World, pc: Pc)
    requires ValidCfg(cfg) && Inv(cfg, t0, w, pc) && Decided(cfg, t0) && OnTheWay(pc)
    ensures Step(cfg, w, pc).1 != Idle
  {
    hide ValidCfg, TreeInv, MidInv, Step;
    var f := Front(w.files);
    assert StopsAt(cfg, t0, f) ==> KindOf(cfg, t0, f) == Conflicts;
    if Step(cfg, w, pc).1 == Idle {
      BreakEnds(cfg, t0, w, pc);
    }
  }

  /** The ticks up to the moment between the two final store writes. */
  lemma {:induction false} ReachesBetween(cfg: Config, t0: Tree, w: World, pc: Pc) returns (ms: seq<Machine>, moves: seq<Move>)
    requires ValidCfg(cfg) && Inv(cfg, t0, w, pc) && Decided(cfg, t0) && (OnTheWay(pc) || Between(pc))
    ensures IsRun(cfg, ms, moves) && (forall k :: 0 <= k < |moves| ==> moves[k] == Tick) && ms[0] == Machine(w, pc)
    ensures Between(ms[|moves|].pc) && Inv(cfg, t0, ms[|moves|].w, ms[|moves|].pc)
    decreases Left(cfg, pc), Stage(pc), ToWrite(cfg, w, pc)
  {
    hide FilesInv, TreeInv, MidInv, PcInv, StoreInv, ValidCfg, Decided;
    if Between(pc) {
      ms, moves := [Machine(w, pc)], [];
    } else {
      var (w', pc') := Step(cfg, w, pc);
      StepInv(cfg, t0, w, pc);
      StepShape(cfg, w, pc);
      NoRaise(cfg, t0, w, pc);
      var ms', moves' := ReachesBetween(cfg, t0, w', pc');
      MoveFirst(cfg, Machine(w, pc), Tick, ms', moves');
      ms, moves := [Machine(w, pc)] + ms', [Tick] + moves';
    }
  }

  lemma BetweenStrands(cfg: Config, t0: Tree, w: World, pc: Pc)
    requires Inv(cfg, t0, w, pc) && Between(pc)
    ensures Stranded(w) && w.changeSet == CsPublishing && Publish(cfg, w) == w
  {
  }

  lemma PreparedStarts(cfg: Config, w: World)
    requires ValidCfg(cfg) && AsPrepared(cfg, w)
    ensures Wf(cfg, w, Idle) && Start(cfg, w) == MarkPublishing && Inv(cfg, w.tree, w, MarkPublishing)
  {
    PreparedInv(cfg, w);
  }

  /** Any publication with a verdict can be stranded: a crash right after it was saved as published, or
      as conflicted, leaves the change set publishing, and no further call changes anything. */
  lemma StrandedRunExists(cfg: Config, w: World) returns (ms: seq<Machine>, moves: seq<Move>)
    requires ValidCfg(cfg) && AsPrepared(cfg, w) && Decided(cfg, w.tree)
    ensures UndisturbedRun(cfg, ms, moves) && ms[0].w == w && ms[|moves|].pc == Idle
    ensures Stranded(ms[|moves|].w) && ms[|moves|].w.changeSet == CsPublishing
    ensures Publish(cfg, ms[|moves|].w) == ms[|moves|].w
  {
    hide Inv, ValidCfg, Decided, Step, Stranded, Wf, RunToEnd, FilesInv;
    PreparedStarts(cfg, w);
    var ticked, ticks := ReachesBetween(cfg, w.tree, w, MarkPublishing);
    BetweenStrands(cfg, w.tree, ticked[|ticks|].w, ticked[|ticks|].pc);
    MoveFirst(cfg, Machine(w, Idle), Call, ticked, ticks);
    MoveLast(cfg, [Machine(w, Idle)] + ticked, [Call] + ticks, Crash);
    ms := [Machine(w, Idle)] + ticked + [Machine(ticked[|ticks|].w, Idle)];
    moves := [Call] + ticks + [Crash];
  }

  lemma VerdictDecides(cfg: Config, w: World)
    requires ValidCfg(cfg) && AsPrepared(cfg, w)
    ensures Decided(cfg, w.tree) <==> Publish(cfg, w).state == Published || Publish(cfg, w).state == Conflicted
  {
    PreparedInv(cfg, w);
    PublishSettles(cfg, w.tree, w);
    var f := Front(Publish(cfg, w).files);
    assert !AllPass(cfg, w.tree) ==> StopsAt(cfg, w.tree, f);
    assert forall g :: StopsAt(cfg, w.tree, g) ==> !AllPass(cfg, w.tree) && g == f;
  }

  lemma StrandedDecides(cfg: Config, ms: seq<Machine>, moves: seq<Move>)
    requires ValidCfg(cfg) && UndisturbedRun(cfg, ms, moves) && Stranded(ms[|moves|].w)
    ensures Decided(cfg, ms[0].w.tree) && ms[|moves|].w.state == Publish(cfg, ms[0].w).state
  {
    hide ValidCfg, Decided;
    RecoveryMatches(cfg, ms, moves);
    VerdictDecides(cfg, ms[0].w);
  }

  ghost predicate StrandingRun(cfg: Config, w: World, ms: seq<Machine>, moves: seq<Move>) {
    UndisturbedRun(cfg, ms, moves) && ms[0].w == w && Stranded(ms[|moves|].w)
  }

  /** A publication can be stranded if and only if an uninterrupted call would publish it or find a
      conflict; then the stranded record says just that. */
  lemma StrandedExactly(cfg: Config, w: World)
    requires ValidCfg(cfg) && AsPrepared(cfg, w)
    ensures (exists ms, moves :: StrandingRun(cfg, w, ms, moves)) <==>
      Publish(cfg, w).state == Published || Publish(cfg, w).state == Conflicted
    ensures forall ms: seq<Machine>, moves: seq<Move> :: StrandingRun(cfg, w, ms, moves) ==> ms[|moves|].w.state == Publish(cfg, w).state
  {
    hide ValidCfg, Decided, Stranded, Next, Publish;
    VerdictDecides(cfg, w);
    if Decided(cfg, w.tree) {
      var ms, moves := StrandedRunExists(cfg, w);
      assert StrandingRun(cfg, w, ms, moves);
    }
    forall ms: seq<Machine>, moves: seq<Move> | StrandingRun(cfg, w, ms, moves)
      ensures Decided(cfg, w.tree) && ms[|moves|].w.state == Publish(cfg, w).state
    {
      StrandedDecides(cfg, ms, moves);
    }
  }
}
