/** The checkpoint-and-resume transition of a Mission (src/finharness/agent_shell.py,
    src/finharness/capital_agent.py). */
module WorldRecovery {
  import opened Common

  datatype World = World(worldId: string, basisDigest: string)

  /** A stored artifact's path, one per kind and id. */
  datatype Ref = BeliefRef(id: string) | CheckpointRef(id: string)

  datatype MissionState = Active | Paused | Closed

  datatype Mission = Mission(
    objective: string,
    world: World,
    state: MissionState,
    checkpointRef: Option<Ref>,
    stopReason: Option<string>,
    updatedAt: int)

  datatype Checkpoint = Checkpoint(
    missionId: string, world: World, beliefRefs: seq<Ref>, note: string, createdAt: int)

  /** Durable artifacts by id; a belief is known by its Mission. */
  datatype Artifacts = Artifacts(
    missions: map<string, Mission>,
    beliefs: map<string, string>,
    checkpoints: map<string, Checkpoint>)

  /** One recovery, as its durable record fixes it. */
  datatype Recovery = Recovery(
    missionId: string,
    target: World,
    beliefId: string,
    previousState: MissionState,
    previousWorld: World,
    note: string,
    checkpointId: string,
    createdAt: int)

  datatype Refusal =
    | NotFound | PreviousStateInvalid | MissionClosed | WorldChangedOutside | StateChangedOutside
    | BeliefDiffers | BlankNote | CheckpointConflict

  datatype Ending =
    | Crashed
    | Refused(refusal: Refusal)
    | Recovered(mission: Mission, checkpoint: Checkpoint)

  function CheckpointFor(r: Recovery): Checkpoint {
    Checkpoint(r.missionId, r.target, [BeliefRef(r.beliefId)], Strip(r.note), r.createdAt)
  }

  function Moved(m: Mission, r: Recovery): Mission {
    m.(checkpointRef := Some(CheckpointRef(r.checkpointId)), world := r.target, updatedAt := r.createdAt)
  }

  function Resumed(m: Mission, target: World, now: int): Mission {
    m.(state := Active, stopReason := None, world := target, updatedAt := now)
  }

  /** The store as the transition changes it: up to three durable writes, in order. `writes` is how
      many are made before the process stops; three or more is an uninterrupted run. */
  class MissionStore {
    var artifacts: Artifacts

    constructor (artifacts: Artifacts)
      ensures this.artifacts == artifacts
    {
      this.artifacts := artifacts;
    }

    method CreateCheckpoint(id: string, c: Checkpoint) returns (ok: bool)
      modifies this
      ensures ok <==> id !in old(artifacts).checkpoints || old(artifacts).checkpoints[id] == c
      ensures artifacts == if ok then old(artifacts).(checkpoints := old(artifacts).checkpoints[id := c])
                           else old(artifacts)
    {
      if id in artifacts.checkpoints {
        assert artifacts.checkpoints[id] == c ==> artifacts.checkpoints[id := c] == artifacts.checkpoints;
        return artifacts.checkpoints[id] == c;
      }
      artifacts := artifacts.(checkpoints := artifacts.checkpoints[id := c]);
      return true;
    }

    method StoreMission(id: string, m: Mission)
      modifies this
      ensures artifacts == old(artifacts).(missions := old(artifacts).missions[id := m])
    {
      artifacts := artifacts.(missions := artifacts.missions[id := m]);
    }

    method ApplyWorldRecoveryCheckpoint(r: Recovery, now: int, writes: nat) returns (ending: Ending)
      modifies this
      ensures (ending, artifacts) == Transition(old(artifacts), r, now, writes)
    {
      if r.missionId !in artifacts.missions {
        return Refused(NotFound);
      }
      var mission := artifacts.missions[r.missionId];
      if r.previousState != Active && r.previousState != Paused {
        return Refused(PreviousStateInvalid);
      }
      if mission.state == Closed {
        return Refused(MissionClosed);
      }
      if mission.world != r.previousWorld && mission.world != r.target {
        return Refused(WorldChangedOutside);
      }
      if mission.world == r.previousWorld && mission.state != r.previousState {
        return Refused(StateChangedOutside);
      }
      if r.beliefId !in artifacts.beliefs {
        return Refused(NotFound);
      }
      if artifacts.beliefs[r.beliefId] != r.missionId {
        return Refused(BeliefDiffers);
      }
      if Strip(r.note) == "" {
        return Refused(BlankNote);
      }
      if writes == 0 {
        return Crashed;
      }
      var created := CreateCheckpoint(r.checkpointId, CheckpointFor(r));
      if !created {
        return Refused(CheckpointConflict);
      }
      if writes == 1 {
        return Crashed;
      }
      mission := Moved(mission, r);
      StoreMission(r.missionId, mission);
      if mission.state == Paused {
        if writes == 2 {
          return Crashed;
        }
        mission := Resumed(mission, r.target, now);
        StoreMission(r.missionId, mission);
      }
      return Recovered(mission, CheckpointFor(r));
    }
  }

  /** Why the transition refuses to start, in the order the code tests. */
  function Refuses(a: Artifacts, r: Recovery): Option<Refusal> {
    if r.missionId !in a.missions then Some(NotFound)
    else
      var m := a.missions[r.missionId];
      if r.previousState.Closed? then Some(PreviousStateInvalid)
      else if m.state.Closed? then Some(MissionClosed)
      else if m.world != r.previousWorld && m.world != r.target then Some(WorldChangedOutside)
      else if m.world == r.previousWorld && m.state != r.previousState then Some(StateChangedOutside)
      else if r.beliefId !in a.beliefs then Some(NotFound)
      else if a.beliefs[r.beliefId] != r.missionId then Some(BeliefDiffers)
      else if Strip(r.note) == "" then Some(BlankNote)
      else None
  }

  /** The durable writes, once nothing refuses. */
  function Proceed(a: Artifacts, r: Recovery, now: int, writes: nat): (Ending, Artifacts)
    requires r.missionId in a.missions
  {
    if writes == 0 then (Crashed, a)
    else if r.checkpointId in a.checkpoints && a.checkpoints[r.checkpointId] != CheckpointFor(r) then
      (Refused(CheckpointConflict), a)
    else
      var saved := a.(checkpoints := a.checkpoints[r.checkpointId := CheckpointFor(r)]);
      if writes == 1 then (Crashed, saved)
      else
        var moved := Moved(a.missions[r.missionId], r);
        var there := saved.(missions := saved.missions[r.missionId := moved]);
        if moved.state != Paused then (Recovered(moved, CheckpointFor(r)), there)
        else if writes == 2 then (Crashed, there)
        else
          var resumed := Resumed(moved, r.target, now);
          (Recovered(resumed, CheckpointFor(r)), there.(missions := there.missions[r.missionId := resumed]))
  }

  function Transition(a: Artifacts, r: Recovery, now: int, writes: nat): (Ending, Artifacts) {
    var refusal := Refuses(a, r);
    if refusal.Some? then (Refused(refusal.value), a) else Proceed(a, r, now, writes)
  }

  // ------------------------------------------------------------- theorems

  /** The Mission a recovery accepts: open, on the previous or the target World, and in its previous
      state while still on the previous World. */
  predicate Acceptable(m: Mission, r: Recovery) {
    && !r.previousState.Closed?
    && !m.state.Closed?
    && (m.world == r.previousWorld || m.world == r.target)
    && (m.world == r.previousWorld ==> m.state == r.previousState)
  }

  /** What an uninterrupted run needs, in terms of the stored artifacts. */
  predicate Ready(a: Artifacts, r: Recovery) {
    && r.missionId in a.missions
    && Acceptable(a.missions[r.missionId], r)
    && r.beliefId in a.beliefs && a.beliefs[r.beliefId] == r.missionId
    && Strip(r.note) != ""
    && (r.checkpointId in a.checkpoints ==> a.checkpoints[r.checkpointId] == CheckpointFor(r))
  }

  /** The Mission is active on the target World and points at the recorded checkpoint. */
  predicate Finished(a: Artifacts, r: Recovery) {
    && r.missionId in a.missions
    && a.missions[r.missionId].state.Active?
    && a.missions[r.missionId].world == r.target
    && a.missions[r.missionId].checkpointRef == Some(CheckpointRef(r.checkpointId))
    && r.checkpointId in a.checkpoints && a.checkpoints[r.checkpointId] == CheckpointFor(r)
  }

  predicate CheckpointFree(a: Artifacts, r: Recovery) {
    r.checkpointId in a.checkpoints ==> a.checkpoints[r.checkpointId] == CheckpointFor(r)
  }

  lemma ReadyIffNothingRefuses(a: Artifacts, r: Recovery)
    ensures Ready(a, r) <==> Refuses(a, r).None? && CheckpointFree(a, r)
  {
  }

  /** An uninterrupted run finishes exactly when `Ready`; otherwise it refuses and changes nothing.
      So a closed Mission, one on a third World, and one whose state changed while still on the
      previous World are always refused. */
  lemma RunFinishesIffReady(a: Artifacts, r: Recovery, now: int)
    ensures var (ending, after) := Transition(a, r, now, 3);
      && (ending.Recovered? <==> Ready(a, r))
      && (ending.Recovered? ==> Finished(after, r) && after.missions[r.missionId] == ending.mission)
      && (!Ready(a, r) ==> ending.Refused? && after == a)
  {
    ReadyIffNothingRefuses(a, r);
  }

  /** What a finished recovery leaves, field by field: one checkpoint with the target World, the recovery's
      Belief, the note without blanks at either end and the recorded time; and the Mission active on the
      target World, pointing at that checkpoint, with its objective unchanged. A Mission that was paused is
      resumed now, its stop reason gone; an active one keeps its own and bears the recorded time. */
  lemma RecoveredFields(a: Artifacts, r: Recovery, now: int)
    requires Ready(a, r)
    ensures var (ending, after) := Transition(a, r, now, 3); var before := a.missions[r.missionId];
      && ending.Recovered? && r.missionId in after.missions && r.checkpointId in after.checkpoints
      && (var c := after.checkpoints[r.checkpointId];
          && c.missionId == r.missionId && c.world == r.target && c.beliefRefs == [BeliefRef(r.beliefId)]
          && c.note == Strip(r.note) && c.createdAt == r.createdAt && ending.checkpoint == c)
      && (var m := after.missions[r.missionId];
          && m.objective == before.objective && m.world == r.target && m.state == Active
          && m.checkpointRef == Some(CheckpointRef(r.checkpointId)) && ending.mission == m
          && (before.state == Paused ==> m.stopReason == None && m.updatedAt == now)
          && (before.state == Active ==> m.stopReason == before.stopReason && m.updatedAt == r.createdAt))
  {
    ReadyIffNothingRefuses(a, r);
  }

  /** The durable writes come in order: first the checkpoint alone, then the Mission moved with its state as
      it was, and only then, if it was paused, resumed. */
  lemma WritesInOrder(a: Artifacts, r: Recovery, now: int)
    requires Ready(a, r)
    ensures var before := a.missions[r.missionId];
      && Transition(a, r, now, 0) == (Crashed, a)
      && (var (ending, one) := Transition(a, r, now, 1);
          ending == Crashed && one.missions == a.missions && r.checkpointId in one.checkpoints
          && one.checkpoints[r.checkpointId].world == r.target)
      && (var (ending, two) := Transition(a, r, now, 2);
          && (ending == Crashed <==> before.state == Paused)
          && r.missionId in two.missions && two.missions[r.missionId].world == r.target
          && two.missions[r.missionId].state == before.state)
  {
    ReadyIffNothingRefuses(a, r);
  }

  /** Why a recovery is refused, in the order of the tests. */
  lemma RefusalReasons(a: Artifacts, r: Recovery, now: int)
    ensures var ending := Transition(a, r, now, 3).0;
      && (r.missionId !in a.missions ==> ending == Refused(NotFound))
      && (r.missionId in a.missions ==>
            var m := a.missions[r.missionId];
            && (r.previousState == Closed ==> ending == Refused(PreviousStateInvalid))
            && (r.previousState != Closed && m.state == Closed ==> ending == Refused(MissionClosed))
            && (r.previousState != Closed && m.state != Closed && m.world !in {r.previousWorld, r.target} ==>
                  ending == Refused(WorldChangedOutside))
            && (r.previousState != Closed && m.state != Closed && m.world == r.previousWorld && m.state != r.previousState ==>
                  ending == Refused(StateChangedOutside))
            && (Acceptable(m, r) && r.beliefId !in a.beliefs ==> ending == Refused(NotFound))
            && (Acceptable(m, r) && r.beliefId in a.beliefs && a.beliefs[r.beliefId] != r.missionId ==>
                  ending == Refused(BeliefDiffers))
            && (Acceptable(m, r) && r.beliefId in a.beliefs && a.beliefs[r.beliefId] == r.missionId ==>
                  && (Strip(r.note) == "" ==> ending == Refused(BlankNote))
                  && (Strip(r.note) != "" && !CheckpointFree(a, r) ==> ending == Refused(CheckpointConflict))))
  {
  }

  /** Wherever it stops, the transition touches one Mission and one checkpoint: other Missions, the
      Beliefs, and every checkpoint already stored are unchanged. */
  lemma TransitionTouchesOnlyItsOwn(a: Artifacts, r: Recovery, now: int, writes: nat)
    ensures Untouched(a, Transition(a, r, now, writes).1, r)
  {
    if Refuses(a, r).None? {
      ProceedTouchesOnlyItsOwn(a, r, now, writes);
    }
  }

  predicate Untouched(a: Artifacts, b: Artifacts, r: Recovery) {
    && b.beliefs == a.beliefs
    && (forall id :: id in a.missions && id != r.missionId ==> id in b.missions && b.missions[id] == a.missions[id])
    && (forall id :: id in a.checkpoints ==> id in b.checkpoints && b.checkpoints[id] == a.checkpoints[id])
  }

  lemma MissionWriteUntouched(a: Artifacts, b: Artifacts, r: Recovery, m: Mission)
    requires Untouched(a, b, r)
    ensures Untouched(a, b.(missions := b.missions[r.missionId := m]), r)
  {
  }

  lemma CheckpointWriteUntouched(a: Artifacts, r: Recovery, c: Checkpoint)
    requires r.checkpointId in a.checkpoints ==> a.checkpoints[r.checkpointId] == c
    ensures Untouched(a, a.(checkpoints := a.checkpoints[r.checkpointId := c]), r)
  {
  }

  lemma ProceedTouchesOnlyItsOwn(a: Artifacts, r: Recovery, now: int, writes: nat)
    requires r.missionId in a.missions
    ensures Untouched(a, Proceed(a, r, now, writes).1, r)
  {
    if writes > 0 && CheckpointFree(a, r) {
      var saved := a.(checkpoints := a.checkpoints[r.checkpointId := CheckpointFor(r)]);
      CheckpointWriteUntouched(a, r, CheckpointFor(r));
      var moved := Moved(a.missions[r.missionId], r);
      MissionWriteUntouched(a, saved, r, moved);
      var there := saved.(missions := saved.missions[r.missionId := moved]);
      MissionWriteUntouched(a, there, r, Resumed(moved, r.target, now));
    }
  }

  /** Interrupted runs, each stopped after some number of writes. */
  function Interrupted(a: Artifacts, r: Recovery, stops: seq<(int, nat)>): Artifacts {
    if stops == [] then a
    else Transition(Interrupted(a, r, stops[..|stops| - 1]), r, stops[|stops| - 1].0, stops[|stops| - 1].1).1
  }

  /** A recovery that really changes World, or that starts from an active Mission. */
  predicate Rerunnable(r: Recovery) {
    r.previousWorld != r.target || r.previousState.Active?
  }

  /** No run was stopped as late as after its third write. */
  predicate StoppedEarly(stops: seq<(int, nat)>) {
    forall i :: 0 <= i < |stops| ==> stops[i].1 < 3
  }

  lemma InterruptedStaysReady(a: Artifacts, r: Recovery, now: int, writes: nat)
    requires Ready(a, r) && (Rerunnable(r) || writes < 3)
    ensures Ready(Transition(a, r, now, writes).1, r)
    ensures Progress(a, Transition(a, r, now, writes).1, r)
  {
    ReadyIffNothingRefuses(a, r);
    TransitionTouchesOnlyItsOwn(a, r, now, writes);
  }

  /** A recovery that cannot be run again is refused once it has finished, and nothing changes. */
  lemma FinishedIsRefused(a: Artifacts, r: Recovery, now: int, writes: nat)
    requires Finished(a, r) && !Rerunnable(r) && !r.previousState.Closed?
    ensures Transition(a, r, now, writes) == (Refused(StateChangedOutside), a)
  {
  }

  lemma ThirdWriteFinishes(a: Artifacts, r: Recovery, now: int, writes: nat)
    requires Ready(a, r) && writes >= 3
    ensures Finished(Transition(a, r, now, writes).1, r)
  {
    assert Proceed(a, r, now, writes) == Proceed(a, r, now, 3);
    RunFinishesIffReady(a, r, now);
  }

  /** Everything but the Mission's place in this recovery is kept. */
  predicate Progress(a: Artifacts, b: Artifacts, r: Recovery) {
    && r.missionId in a.missions && r.missionId in b.missions
    && var (m, n) := (a.missions[r.missionId], b.missions[r.missionId]);
       && n.objective == m.objective
       && (n.state == m.state ==> n.stopReason == m.stopReason)
       && (n.state != m.state ==> m.state.Paused? && n.state.Active? && n.stopReason == None)
  }

  lemma ProgressTwice(a: Artifacts, b: Artifacts, c: Artifacts, r: Recovery)
    requires Progress(a, b, r) && Progress(b, c, r)
    ensures Progress(a, c, r)
  {
  }

  lemma StoppedEarlySnoc(stops: seq<(int, nat)>)
    requires stops != []
    ensures StoppedEarly(stops) <==> StoppedEarly(stops[..|stops| - 1]) && stops[|stops| - 1].1 < 3
  {
    assert forall i :: 0 <= i < |stops| - 1 ==> stops[..|stops| - 1][i] == stops[i];
  }

  /** After any interruptions the recovery is still ready, or it has finished for good. */
  lemma {:induction false} AnyInterruptions(a: Artifacts, r: Recovery, stops: seq<(int, nat)>)
    requires Ready(a, r)
    ensures var b := Interrupted(a, r, stops);
      if Rerunnable(r) || StoppedEarly(stops) then Ready(b, r) && Progress(a, b, r) else Finished(b, r)
  {
    if stops != [] {
      var init, last := stops[..|stops| - 1], stops[|stops| - 1];
      AnyInterruptions(a, r, init);
      var b := Interrupted(a, r, init);
      StoppedEarlySnoc(stops);
      if Rerunnable(r) || StoppedEarly(stops) {
        InterruptedStaysReady(b, r, last.0, last.1);
        ProgressTwice(a, b, Transition(b, r, last.0, last.1).1, r);
      } else if StoppedEarly(init) {
        ThirdWriteFinishes(b, r, last.0, last.1);
      } else {
        FinishedIsRefused(b, r, last.0, last.1);
      }
    }
  }

  /** From any number of crashes at any points, re-running with the same record leaves the recovery
      finished. The rerun itself succeeds, with the same Mission an uninterrupted run gives up to its
      update time, exactly when the record can be rerun or no crash came after the third write;
      otherwise the work was already done and the rerun refuses without a change. */
  lemma RerunFinishes(a: Artifacts, r: Recovery, stops: seq<(int, nat)>, now: int)
    requires Ready(a, r)
    ensures var before := Interrupted(a, r, stops);
      var (ending, after) := Transition(before, r, now, 3);
      var (straight, _) := Transition(a, r, now, 3);
      && Finished(after, r) && straight.Recovered?
      && (ending.Recovered? <==> Rerunnable(r) || StoppedEarly(stops))
      && (ending.Recovered? ==>
            && ending.checkpoint == straight.checkpoint
            && ending.mission.(updatedAt := 0) == straight.mission.(updatedAt := 0))
      && (!ending.Recovered? ==> ending == Refused(StateChangedOutside) && after == before)
  {
    AnyInterruptions(a, r, stops);
    var before := Interrupted(a, r, stops);
    RunFinishesIffReady(a, r, now);
    if Rerunnable(r) || StoppedEarly(stops) {
      RunFinishesIffReady(before, r, now);
    } else {
      FinishedIsRefused(before, r, now, 3);
    }
  }

  /** The condition is exact: running a finished recovery again is accepted if and only if the record
      names a different target World or an active Mission. */
  lemma SecondRunAcceptedIffRerunnable(a: Artifacts, r: Recovery, now: int, later: int)
    requires Ready(a, r)
    ensures var (_, after) := Transition(a, r, now, 3);
      Transition(after, r, later, 3).0.Recovered? <==> Rerunnable(r)
  {
    RunFinishesIffReady(a, r, now);
    RunFinishesIffReady(Transition(a, r, now, 3).1, r, later);
  }
}

/** The same transition while other writers change the Mission between its steps. */
module WorldRecoveryRace {
  import opened Common
  import opened WorldRecovery

  /** Between two atomic operations: read and check, read again, create the checkpoint, swap, read,
      swap. */
  datatype Phase =
    | Begin
    | Checked(seen: Mission)
    | Reread(seen: Mission, read: Mission)
    | Saved(seen: Mission, read: Mission)
    | Moving(moved: Mission)
    | Resuming(read: Mission)
    | Done(final: Mission)
    | Stopped

  datatype State = State(mission: Mission, phase: Phase)

  datatype Action =
    | Advance(now: int, checkpointOk: bool)
    | Other(mission: Mission)

  function Advanced(s: State, r: Recovery, now: int, checkpointOk: bool): State {
    match s.phase
    case Begin => s.(phase := if Acceptable(s.mission, r) then Checked(s.mission) else Stopped)
    case Checked(seen) => s.(phase := if s.mission.state.Closed? then Stopped else Reread(seen, s.mission))
    case Reread(seen, read) => s.(phase := if checkpointOk then Saved(seen, read) else Stopped)
    case Saved(_, read) =>
      if s.mission != read then s.(phase := Stopped)
      else
        var moved := Moved(read, r);
        State(moved, if moved.state.Paused? then Moving(moved) else Done(moved))
    case Moving(_) => s.(phase := if s.mission.state.Paused? then Resuming(s.mission) else Stopped)
    case Resuming(read) =>
      if s.mission != read then s.(phase := Stopped)
      else
        var resumed := Resumed(read, r.target, now);
        State(resumed, Done(resumed))
    case _ => s
  }

  function Apply(s: State, r: Recovery, action: Action): State {
    match action
    case Advance(now, checkpointOk) => Advanced(s, r, now, checkpointOk)
    case Other(mission) => s.(mission := mission)
  }

  function Run(m: Mission, r: Recovery, actions: seq<Action>): State {
    if actions == [] then State(m, Begin)
    else Apply(Run(m, r, actions[..|actions| - 1]), r, actions[|actions| - 1])
  }

  predicate PhaseInv(phase: Phase, r: Recovery) {
    match phase
    case Checked(seen) => Acceptable(seen, r)
    case Reread(seen, read) => Acceptable(seen, r) && !read.state.Closed?
    case Saved(seen, read) => Acceptable(seen, r) && !read.state.Closed?
    case Resuming(read) => read.state.Paused?
    case Done(final) => final.state.Active? && final.world == r.target
    case _ => true
  }

  lemma {:induction false} RunKeepsInv(m: Mission, r: Recovery, actions: seq<Action>)
    ensures PhaseInv(Run(m, r, actions).phase, r)
  {
    if actions != [] {
      RunKeepsInv(m, r, actions[..|actions| - 1]);
    }
  }

  /** However others interleave: a write of the recovery replaces exactly the version it last read, so no
      other writer's update made in between is lost; a closed Mission is never written; and a run that
      succeeds leaves, at that step, the Mission it returns, active on the target World. */
  lemma RecoveryLosesNoUpdate(m: Mission, r: Recovery, actions: seq<Action>, now: int, checkpointOk: bool)
    ensures var s := Run(m, r, actions); var t := Advanced(s, r, now, checkpointOk);
      && (t.mission != s.mission ==>
            && !s.mission.state.Closed?
            && ((s.phase.Saved? && s.mission == s.phase.read && t.mission == Moved(s.mission, r))
                || (s.phase.Resuming? && s.mission == s.phase.read && t.mission == Resumed(s.mission, r.target, now))))
      && (t.phase.Done? && !s.phase.Done? ==>
            t.mission == t.phase.final && t.mission.state.Active? && t.mission.world == r.target)
      && (s.phase.Reread? && !checkpointOk ==> t == s.(phase := Stopped))
      && (s.phase.Begin? && !Acceptable(s.mission, r) ==> t == s.(phase := Stopped))
  {
    RunKeepsInv(m, r, actions);
    RunKeepsInv(m, r, actions + [Advance(now, checkpointOk)]);
    assert (actions + [Advance(now, checkpointOk)])[..|actions|] == actions;
  }

  // ------------------------------------------- which version is moved

  predicate OnlyOthers(actions: seq<Action>) {
    forall k :: 0 <= k < |actions| ==> actions[k].Other?
  }

  predicate OnlyAdvances(actions: seq<Action>) {
    forall k :: 0 <= k < |actions| ==> actions[k].Advance?
  }

  /** The Mission other writers last put in place. */
  function Standing(m: Mission, actions: seq<Action>): Mission {
    if actions == [] then m
    else if actions[|actions| - 1].Other? then actions[|actions| - 1].mission
    else Standing(m, actions[..|actions| - 1])
  }

  /** The recovery's first read is at `i` and the store's own read at `j`. */
  predicate FirstTwoReads(actions: seq<Action>, i: nat, j: nat) {
    && i < j < |actions|
    && actions[i].Advance? && actions[j].Advance?
    && OnlyOthers(actions[..i]) && OnlyOthers(actions[i + 1..j])
  }

  lemma {:induction false} BeforeFirstRead(m: Mission, r: Recovery, actions: seq<Action>)
    requires OnlyOthers(actions)
    ensures Run(m, r, actions) == State(Standing(m, actions), Begin)
  {
    if actions != [] {
      var init := actions[..|actions| - 1];
      assert forall k :: 0 <= k < |init| ==> init[k] == actions[k];
      BeforeFirstRead(m, r, init);
    }
  }

  lemma {:induction false} BetweenReads(m: Mission, r: Recovery, actions: seq<Action>, i: nat)
    requires i < |actions| && actions[i].Advance? && OnlyOthers(actions[..i]) && OnlyOthers(actions[i + 1..])
    ensures var tested := Standing(m, actions[..i]);
      Run(m, r, actions) ==
        State(Standing(m, actions), if Acceptable(tested, r) then Checked(tested) else Stopped)
    decreases |actions|
  {
    var n := |actions| - 1;
    var init := actions[..n];
    if i == n {
      BeforeFirstRead(m, r, init);
    } else {
      assert actions[n] == actions[i + 1..][n - i - 1];
      var tail := init[i + 1..];
      assert forall k :: 0 <= k < |tail| ==> tail[k] == actions[i + 1..][k];
      assert init[..i] == actions[..i];
      BetweenReads(m, r, init, i);
    }
  }

  /** Until the first swap the run remembers what stood at its two reads. */
  predicate Remembers(phase: Phase, tested: Mission, reread: Mission, r: Recovery) {
    match phase
    case Begin => false
    case Checked(_) => false
    case Reread(seen, read) => seen == tested && read == reread && Acceptable(tested, r)
    case Saved(seen, read) => seen == tested && read == reread && Acceptable(tested, r)
    case _ => true
  }

  lemma {:induction false} AfterReads(m: Mission, r: Recovery, actions: seq<Action>, i: nat, j: nat)
    requires FirstTwoReads(actions, i, j)
    ensures Remembers(Run(m, r, actions).phase, Standing(m, actions[..i]), Standing(m, actions[..j]), r)
    decreases |actions|
  {
    var n := |actions| - 1;
    var init := actions[..n];
    assert init[..i] == actions[..i];
    if j == n {
      assert init[i + 1..] == actions[i + 1..j];
      BetweenReads(m, r, init, i);
    } else {
      assert init[i + 1..j] == actions[i + 1..j] && init[..j] == actions[..j];
      AfterReads(m, r, init, i, j);
    }
  }

  /** However others interleave, the version that is moved is the one standing at the store's own read,
      and the World and state tests were passed by the one standing at the first read. So when nobody
      acts between the two reads, the version moved is one the tests accept. */
  lemma MovedVersionWasTested(
    m: Mission, r: Recovery, actions: seq<Action>, i: nat, j: nat, now: int, checkpointOk: bool)
    requires FirstTwoReads(actions, i, j)
    ensures var s := Run(m, r, actions); var t := Advanced(s, r, now, checkpointOk);
      s.phase.Saved? && !t.phase.Stopped? ==>
        && t.mission == Moved(Standing(m, actions[..j]), r)
        && Acceptable(Standing(m, actions[..i]), r)
        && (j == i + 1 ==> Acceptable(Standing(m, actions[..j]), r))
  {
    AfterReads(m, r, actions, i, j);
    if j == i + 1 {
      assert actions[..j][..i] == actions[..i];
    }
  }

  /** The Mission a recovery leaves when it takes `other` over. */
  function TakenOver(other: Mission, r: Recovery, now: int): Mission {
    if other.state.Paused? then Resumed(Moved(other, r), r.target, now) else Moved(other, r)
  }

  lemma RunSnoc(m: Mission, r: Recovery, actions: seq<Action>, action: Action)
    ensures Run(m, r, actions + [action]) == Apply(Run(m, r, actions), r, action)
  {
    assert (actions + [action])[..|actions|] == actions;
  }

  /** Another writer acts between the two reads, and the recovery is then left alone. */
  function Overtaken(other: Mission, now: int, rest: seq<Action>): seq<Action> {
    [Advance(now, true), Other(other)] + rest
  }

  lemma OvertakenStart(m: Mission, other: Mission, r: Recovery, now: int)
    requires Acceptable(m, r)
    ensures Run(m, r, Overtaken(other, now, [])) == State(other, Checked(m))
  {
    var none: seq<Action>, a, b := [], Advance(now, true), Other(other);
    assert Overtaken(other, now, none) == none + [a] + [b];
    assert Run(m, r, none) == State(m, Begin);
    RunSnoc(m, r, none, a);
    RunSnoc(m, r, none + [a], b);
  }

  lemma {:induction false} ClosedIsLeftAlone(m: Mission, other: Mission, r: Recovery, now: int, rest: seq<Action>)
    requires Acceptable(m, r) && other.state.Closed? && OnlyAdvances(rest)
    ensures var s := Run(m, r, Overtaken(other, now, rest)); s.mission == other && (s.phase.Checked? || s.phase.Stopped?)
  {
    if rest == [] {
      OvertakenStart(m, other, r, now);
    } else {
      var init, last := rest[..|rest| - 1], rest[|rest| - 1];
      assert forall k :: 0 <= k < |init| ==> init[k] == rest[k];
      ClosedIsLeftAlone(m, other, r, now, init);
      assert Overtaken(other, now, rest) == Overtaken(other, now, init) + [last];
      RunSnoc(m, r, Overtaken(other, now, init), last);
    }
  }

  function Advances(now: int, n: nat): (r: seq<Action>)
    ensures OnlyAdvances(r) && |r| == n
  {
    if n == 0 then [] else Advances(now, n - 1) + [Advance(now, true)]
  }

  lemma OvertakenStep(m: Mission, other: Mission, r: Recovery, now: int, n: nat)
    requires n > 0
    ensures Run(m, r, Overtaken(other, now, Advances(now, n)))
      == Advanced(Run(m, r, Overtaken(other, now, Advances(now, n - 1))), r, now, true)
  {
    var before := Overtaken(other, now, Advances(now, n - 1));
    assert Overtaken(other, now, Advances(now, n)) == before + [Advance(now, true)];
    RunSnoc(m, r, before, Advance(now, true));
  }

  lemma OvertakenSaved(m: Mission, other: Mission, r: Recovery, now: int)
    requires Acceptable(m, r) && !other.state.Closed?
    ensures Run(m, r, Overtaken(other, now, Advances(now, 2))) == State(other, Saved(m, other))
  {
    OvertakenStart(m, other, r, now);
    OvertakenStep(m, other, r, now, 1);
    OvertakenStep(m, other, r, now, 2);
  }

  lemma OpenIsTakenOver(m: Mission, other: Mission, r: Recovery, now: int)
    requires Acceptable(m, r) && !other.state.Closed?
    ensures Run(m, r, Overtaken(other, now, Advances(now, 5)))
      == State(TakenOver(other, r, now), Done(TakenOver(other, r, now)))
  {
    OvertakenSaved(m, other, r, now);
    OvertakenStep(m, other, r, now, 3);
    OvertakenStep(m, other, r, now, 4);
    OvertakenStep(m, other, r, now, 5);
  }

  /** The tests bind nothing else: whatever Mission another writer puts in place between the two reads,
      on any World, the recovery can take it to the target if and only if it is not closed. */
  lemma OvertakenMovesIffOpen(m: Mission, other: Mission, r: Recovery, now: int)
    requires Acceptable(m, r)
    ensures (exists rest :: OnlyAdvances(rest) && Run(m, r, Overtaken(other, now, rest)).phase.Done?)
      <==> !other.state.Closed?
    ensures !other.state.Closed? ==>
      Run(m, r, Overtaken(other, now, Advances(now, 5))).mission == TakenOver(other, r, now)
    ensures other.state.Closed? ==>
      forall rest :: OnlyAdvances(rest) ==> Run(m, r, Overtaken(other, now, rest)).mission == other
  {
    if other.state.Closed? {
      forall rest | OnlyAdvances(rest)
        ensures var s := Run(m, r, Overtaken(other, now, rest)); s.mission == other && !s.phase.Done?
      {
        ClosedIsLeftAlone(m, other, r, now, rest);
      }
    } else {
      OpenIsTakenOver(m, other, r, now);
      var rest := Advances(now, 5);
      assert OnlyAdvances(rest) && Run(m, r, Overtaken(other, now, rest)).phase.Done?;
    }
  }
}
