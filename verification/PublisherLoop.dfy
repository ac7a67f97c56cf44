/** `WorkspacePublisher.publish` as the code has it, a loop over the files with relay calls and store
    writes, against the step machine: left alone, it ends where the machine does. */
module PublisherLoop {
  import opened Text
  import opened Relay
  import opened Publisher

  /** Running on from a step is running on from the next one. */
  lemma Advance(cfg: Config, w: World, pc: Pc)
    requires Wf(cfg, w, pc) && pc != Idle
    ensures var (w', pc') := Step(cfg, w, pc); Wf(cfg, w', pc') && RunToEnd(cfg, w, pc) == RunToEnd(cfg, w', pc')
  {
  }

  lemma AtRest(cfg: Config, w: World)
    requires Wf(cfg, w, Idle)
    ensures RunToEnd(cfg, w, Idle) == w
  {
  }

  class WorkspacePublisher {
    const cfg: Config
    const relay: ComposePublicationRelay
    var state: PublicationState
    var files: seq<FileState>
    var changeSet: ChangeSetState

    constructor (cfg: Config, relay: ComposePublicationRelay)
      requires cfg.chunk > 0 && relay.hash == cfg.hash
      ensures this.cfg == cfg && this.relay == relay && Valid()
      ensures state == Prepared && changeSet == CsApproved && forall i :: 0 <= i < |files| ==> files[i] == Pending
    {
      this.cfg := cfg;
      this.relay := relay;
      state := Prepared;
      files := seq(|cfg.changes|, _ => Pending);
      changeSet := CsApproved;
    }

    ghost predicate Valid()
      reads this
    {
      cfg.chunk > 0 && relay.hash == cfg.hash && |files| == |cfg.changes|
    }

    /** What a crash at this point would leave. */
    ghost function Now(): World
      reads this, relay
    {
      World(relay.tree, state, files, changeSet)
    }

    /** Going on from `pc` ends in `goal`. */
    ghost predicate Bound(pc: Pc, goal: World)
      reads this, relay
    {
      Valid() && Wf(cfg, Now(), pc) && RunToEnd(cfg, Now(), pc) == goal
    }

    method Publish()
      requires Valid()
      modifies this, relay`tree
      ensures Valid() && Now() == Publisher.Publish(cfg, old(Now()))
    {
      hide RunToEnd;
      AtRest(cfg, Now());
      if state == Published || state == Conflicted {
        return;
      }
      if cfg.owner != cfg.actor || (changeSet != CsApproved && changeSet != CsPublishing) {
        return;
      }
      if cfg.approval == None || cfg.approval.value.actor != cfg.actor || cfg.approval.value.digest != cfg.digest {
        return;
      }
      ghost var goal := Publisher.Publish(cfg, Now());
      Advance(cfg, Now(), MarkPublishing);
      if state == Prepared {
        state := Publishing;
      }
      Advance(cfg, Now(), MarkChangeSet);
      if changeSet == CsApproved {
        changeSet := CsPublishing;
      }
      for index := 0 to |files|
        invariant Bound(Inspect(index), goal) && |files| == |cfg.changes|
      {
        var goesOn := PublishFile(index, goal);
        if !goesOn {
          return;
        }
      }
      Advance(cfg, Now(), Inspect(|files|));
      Close(goal);
    }

    /** After the last file: both records, then the staging area. */
    method Close(ghost goal: World)
      requires Bound(Finish, goal)
      modifies this, relay`tree
      ensures Valid() && Now() == goal
    {
      hide RunToEnd;
      Advance(cfg, Now(), Finish);
      state := Published;
      Advance(cfg, Now(), FinishChangeSet);
      changeSet := CsPublished;
      Advance(cfg, Now(), Cleanup);
      relay.RemovePath(cfg.root);
      AtRest(cfg, Now());
    }

    /** The body of the loop; `goesOn` is false when it returns or raises. */
    method PublishFile(index: nat, ghost goal: World) returns (goesOn: bool)
      requires index < |files| && Bound(Inspect(index), goal)
      modifies this, relay`tree
      ensures Valid()
      ensures if goesOn then Bound(Inspect(index + 1), goal) else Now() == goal
    {
      hide RunToEnd;
      Advance(cfg, Now(), Inspect(index));
      if files[index] == Done {
        return true;
      }
      var current := relay.PathSha256(cfg.changes[index].target);
      if cfg.changes[index].action.Remove? {
        goesOn := DeleteFile(index, current, goal);
      } else {
        goesOn := WriteFile(index, current, goal);
      }
    }

    method DeleteFile(index: nat, current: Option<Digest>, ghost goal: World) returns (goesOn: bool)
      requires Valid() && index < |files| && files[index] != Done && cfg.changes[index].action.Remove?
      requires current == DigestAt(cfg.hash, relay.tree, cfg.changes[index].target)
      requires Wf(cfg, Now(), Inspect(index)) && Bound(Inspected(cfg, Now(), index), goal)
      modifies this, relay`tree
      ensures Valid()
      ensures if goesOn then Bound(Inspect(index + 1), goal) else Now() == goal
    {
      hide RunToEnd;
      var change := cfg.changes[index];
      if current == None {
        ReplaceFile(index, goal);
        return true;
      }
      if current != change.expected {
        Conflict(goal);
        return false;
      }
      Advance(cfg, Now(), Unlink(index));
      var outcome := relay.CompareAndDeleteFile(change.target, change.expected.value);
      goesOn := Conclude(index, outcome, goal);
    }

    method WriteFile(index: nat, current: Option<Digest>, ghost goal: World) returns (goesOn: bool)
      requires Valid() && index < |files| && files[index] != Done && cfg.changes[index].action.Write?
      requires current == DigestAt(cfg.hash, relay.tree, cfg.changes[index].target)
      requires Wf(cfg, Now(), Inspect(index)) && Bound(Inspected(cfg, Now(), index), goal)
      modifies this, relay`tree
      ensures Valid()
      ensures if goesOn then Bound(Inspect(index + 1), goal) else Now() == goal
    {
      hide RunToEnd;
      var change := cfg.changes[index];
      if current == Some(change.action.desired) {
        ReplaceFile(index, goal);
        return true;
      }
      if current != change.expected {
        Conflict(goal);
        return false;
      }
      if files[index] == Pending {
        if !Intact(cfg, change.action) {
          AtRest(cfg, Now());
          return false;
        }
        WriteStaged(index, change.action.content.value, goal);
        Advance(cfg, Now(), VerifyStaged(index));
        var staged := relay.PathSha256(change.action.staging);
        if staged != Some(change.action.desired) {
          Fail(goal);
          return false;
        }
        Advance(cfg, Now(), MarkStaged(index));
        files := files[index := Staged];
      }
      goesOn := SwapFile(index, goal);
    }

    method SwapFile(index: nat, ghost goal: World) returns (goesOn: bool)
      requires index < |files| && Bound(Swap(index), goal)
      modifies this, relay`tree
      ensures Valid()
      ensures if goesOn then Bound(Inspect(index + 1), goal) else Now() == goal
    {
      hide RunToEnd;
      Advance(cfg, Now(), Swap(index));
      var change := cfg.changes[index];
      var outcome := relay.CompareAndSwapFile(change.action.staging, change.target, change.expected, change.action.desired);
      goesOn := Conclude(index, outcome, goal);
    }

    method Conclude(index: nat, outcome: Outcome, ghost goal: World) returns (goesOn: bool)
      requires index < |files| && Bound(AfterOutcome(index, outcome), goal)
      modifies this
      ensures Valid()
      ensures if goesOn then Bound(Inspect(index + 1), goal) else Now() == goal
    {
      hide RunToEnd;
      if outcome == Outcome.Conflict {
        Conflict(goal);
        return false;
      }
      if outcome == StagedMismatch {
        Fail(goal);
        return false;
      }
      ReplaceFile(index, goal);
      return true;
    }

    method ReplaceFile(index: nat, ghost goal: World)
      requires index < |files| && Bound(MarkDone(index), goal)
      modifies this
      ensures Bound(Inspect(index + 1), goal)
    {
      hide RunToEnd;
      Advance(cfg, Now(), MarkDone(index));
      files := files[index := Done];
    }

    method Conflict(ghost goal: World)
      requires Bound(GiveUp(true), goal)
      modifies this
      ensures Valid() && Now() == goal
    {
      hide RunToEnd;
      Advance(cfg, Now(), GiveUp(true));
      state := Conflicted;
      Advance(cfg, Now(), GiveUpChangeSet(true));
      if changeSet != CsConflicted {
        changeSet := CsConflicted;
      }
      AtRest(cfg, Now());
    }

    method Fail(ghost goal: World)
      requires Bound(GiveUp(false), goal)
      modifies this
      ensures Valid() && Now() == goal
    {
      hide RunToEnd;
      Advance(cfg, Now(), GiveUp(false));
      state := Failed;
      Advance(cfg, Now(), GiveUpChangeSet(false));
      if changeSet != CsFailed {
        changeSet := CsFailed;
      }
      AtRest(cfg, Now());
    }

    /** An empty file is one empty chunk; otherwise the first chunk truncates and the others append. */
    method WriteStaged(index: nat, content: Bytes, ghost goal: World)
      requires Valid() && index < |files| && cfg.changes[index].action.Write? && cfg.changes[index].action.content == Some(content)
      requires Bound(WriteChunk(index, 0), goal)
      modifies relay`tree
      ensures Bound(VerifyStaged(index), goal)
    {
      hide RunToEnd;
      var path := cfg.changes[index].action.staging;
      if content == [] {
        Advance(cfg, Now(), WriteChunk(index, 0));
        var _ := relay.WriteBytesChunk(path, [], 0);
        return;
      }
      var offset := 0;
      while offset < |content|
        invariant offset <= |content|
        invariant Bound(if offset < |content| then WriteChunk(index, offset) else VerifyStaged(index), goal)
      {
        Advance(cfg, Now(), WriteChunk(index, offset));
        var next := if offset + cfg.chunk < |content| then offset + cfg.chunk else |content|;
        var _ := relay.WriteBytesChunk(path, content[offset..next], if offset == 0 then 0 else -1);
        offset := next;
      }
    }
  }
}
