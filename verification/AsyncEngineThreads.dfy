/** The coordinator and the loops of the three threads that use it. Whatever a thread does, between
    any two of its operations the other threads take any number of steps of `AsyncProtocol`. */
module AsyncEngineThreads {
  import opened AsyncProtocol

  datatype Thread = TrainThread | UpdateThread | SyncThread

  /** The thread that takes a step, if it is one of the three. */
  predicate TakenBy(action: Action, thread: Thread) {
    match thread
    case TrainThread => action.TrainerStep? || action.TrainerFails?
    case UpdateThread => action.UpdaterStep?
    case SyncThread => action.SyncerStep?
  }

  lemma {:induction false} RunsSnoc(s: State, schedule: seq<Action>, action: Action, maxEpochs: nat)
    requires Runs(s, schedule, maxEpochs) && Enabled(After(s, schedule, maxEpochs), action)
    ensures Runs(s, schedule + [action], maxEpochs)
    ensures After(s, schedule + [action], maxEpochs) == Next(After(s, schedule, maxEpochs), action, maxEpochs)
    decreases |schedule|
  {
    hide Next, Enabled;
    if schedule == [] {
      assert [action][1..] == [];
    } else {
      var t := Next(s, schedule[0], maxEpochs);
      RunsSnoc(t, schedule[1..], action, maxEpochs);
      assert (schedule + [action])[1..] == schedule[1..] + [action];
    }
  }

  class AsyncCoordinator {
    const maxEpochs: nat

    var doneEvent: bool
    var readyForUpdateDataset: bool
    var readyForSyncWeights: bool
    var weightsUpdated: bool
    var datasetReady: bool

    // where each thread is, and what the bodies have done
    var trainer: Trainer
    var updater: Worker
    var syncer: Worker
    var rollout: Rollout
    var trained: nat
    var updates: nat
    var syncs: nat
    var failed: bool

    // the state right after `start` and every step since
    ghost var first: State
    ghost var trace: seq<Action>

    function Value(): State
      reads this
    {
      State(Events(doneEvent, readyForUpdateDataset, readyForSyncWeights, weightsUpdated, datasetReady),
            trainer, updater, syncer, rollout, trained, updates, syncs, failed)
    }

    /** Everything since `start` was a run of the protocol. */
    ghost predicate Good()
      reads this
    {
      && Init(first, maxEpochs) && Runs(first, trace, maxEpochs) && Value() == After(first, trace, maxEpochs)
      && Inv(Value(), maxEpochs) && trained <= maxEpochs
    }

    /** The threads are started; the workers may be waiting already when the trainer calls `start`. */
    constructor (maxEpochs: nat, updaterWaits: bool, syncerWaits: bool)
      ensures this.maxEpochs == maxEpochs && Unstarted()
    {
      this.maxEpochs := maxEpochs;
      doneEvent, readyForUpdateDataset, readyForSyncWeights := false, false, false;
      weightsUpdated, datasetReady := false, false;
      trainer := NextEpoch(0, maxEpochs);
      updater := if updaterWaits then Wait else Check;
      syncer := if syncerWaits then Wait else Check;
      rollout := RolloutCheck;
      trained, updates, syncs, failed := 0, 0, 0, false;
      first := State(Events(false, false, false, false, false), StopDone, Check, Check, RolloutCheck, 0, 0, 0, false);
      trace := [];
    }

    /** No event is set and nothing has been done. */
    ghost predicate Unstarted()
      reads this
    {
      && Value().events == Events(false, false, false, false, false) && trainer == NextEpoch(0, maxEpochs)
      && (updater == Check || updater == Wait) && (syncer == Check || syncer == Wait) && rollout != RolloutExited
      && trained == updates == syncs == 0 && !failed
    }

    method Start()
      requires Unstarted()
      modifies this
      ensures Good() && trainer == NextEpoch(0, maxEpochs) && trained == 0 && !failed
    {
      hide Inv, Next, Enabled;
      doneEvent := false;
      readyForUpdateDataset := true;
      readyForSyncWeights := false;
      weightsUpdated := true;
      datasetReady := false;
      first, trace := Value(), [];
      InitInv(Value(), maxEpochs);
    }

    /** The step just taken extends the run. */
    ghost method Record(before: State, action: Action)
      requires Init(first, maxEpochs) && Runs(first, trace, maxEpochs) && before == After(first, trace, maxEpochs)
      requires Inv(before, maxEpochs) && before.trained <= maxEpochs
      requires Enabled(before, action) && Value() == Next(before, action, maxEpochs)
      modifies this`trace
      ensures Good() && trace == old(trace) + [action]
      ensures action != RolloutStep ==> Left(Value(), maxEpochs) < Left(before, maxEpochs)
      ensures action == RolloutStep ==> Left(Value(), maxEpochs) == Left(before, maxEpochs)
    {
      hide Inv, Init, Runs, After, Enabled, Next, Left;
      RunsSnoc(first, trace, action, maxEpochs);
      StepInv(before, action, maxEpochs);
      StepUsesWork(before, action, maxEpochs);
      trace := trace + [action];
    }

    method Become(s: State)
      modifies this`doneEvent, this`readyForUpdateDataset, this`readyForSyncWeights, this`weightsUpdated,
               this`datasetReady
      modifies this`trainer, this`updater, this`syncer, this`rollout, this`trained, this`updates, this`syncs,
               this`failed
      ensures Value() == s
    {
      doneEvent, readyForUpdateDataset, readyForSyncWeights := s.events.done, s.events.readyUpdate, s.events.readySync;
      weightsUpdated, datasetReady := s.events.weightsUpdated, s.events.datasetReady;
      trainer, updater, syncer, rollout := s.trainer, s.updater, s.syncer, s.rollout;
      trained, updates, syncs, failed := s.trained, s.updates, s.syncs, s.failed;
    }

    /** One step of some thread as the protocol has it. */
    method Perform(action: Action)
      requires Good() && Enabled(Value(), action)
      modifies this
      ensures Good() && Value() == Next(old(Value()), action, maxEpochs)
      ensures action != RolloutStep ==> Left(Value(), maxEpochs) < Left(old(Value()), maxEpochs)
      ensures action == RolloutStep ==> Left(Value(), maxEpochs) == Left(old(Value()), maxEpochs)
    {
      hide Inv, Init, Runs, After, Enabled, Next, Left;
      ghost var before := Value();
      Become(Next(Value(), action, maxEpochs));
      Record(before, action);
    }

    /** A thread is where it was. */
    twostate predicate Stays(thread: Thread)
      reads this
    {
      match thread
      case TrainThread => trainer == old(trainer) && trained == old(trained) && failed == old(failed)
      case UpdateThread => updater == old(updater) && updates == old(updates)
      case SyncThread => syncer == old(syncer) && syncs == old(syncs)
    }

    lemma OthersStay(s: State, action: Action, thread: Thread)
      requires !TakenBy(action, thread)
      ensures var t := Next(s, action, maxEpochs);
        match thread
        case TrainThread => t.trainer == s.trainer && t.trained == s.trained && t.failed == s.failed
        case UpdateThread => t.updater == s.updater && t.updates == s.updates
        case SyncThread => t.syncer == s.syncer && t.syncs == s.syncs
    {
    }

    /** The scheduler lets the other threads take any steps they can. */
    method Others(me: Thread)
      requires Good()
      modifies this
      ensures Good() && Stays(me) && old(trained) <= maxEpochs
      ensures Left(Value(), maxEpochs) <= Left(old(Value()), maxEpochs)
    {
      hide Inv, Init, Runs, After, Enabled, Next, Left;
      var steps: nat := *;
      while steps > 0
        invariant Good() && Stays(me)
        invariant Left(Value(), maxEpochs) <= Left(old(Value()), maxEpochs)
      {
        var action: Action := *;
        if Enabled(Value(), action) && !TakenBy(action, me) {
          OthersStay(Value(), action, me);
          Perform(action);
        }
        steps := steps - 1;
      }
    }

    /** After a step of its own a thread goes on, others having stepped in between. */
    method Continue(ghost before: State, ghost action: Action, me: Thread)
      requires Init(first, maxEpochs) && Runs(first, trace, maxEpochs) && before == After(first, trace, maxEpochs)
      requires Inv(before, maxEpochs) && before.trained <= maxEpochs && TakenBy(action, me)
      requires Enabled(before, action) && Value() == Next(before, action, maxEpochs)
      modifies this
      ensures Good() && Stays(me) && Left(Value(), maxEpochs) < Left(before, maxEpochs)
    {
      hide Inv, Init, Runs, After, Enabled, Next, Left;
      Record(before, action);
      Others(me);
    }

    /** A thread that has to wait: it has not ended and cannot step. */
    ghost predicate Blocked(me: Thread)
      reads this
    {
      match me
      case TrainThread => trainer != Stopped && !Enabled(Value(), TrainerStep) && !Enabled(Value(), TrainerFails)
      case UpdateThread => updater != Exited && !Enabled(Value(), UpdaterStep)
      case SyncThread => syncer != Exited && !Enabled(Value(), SyncerStep)
    }

    /** While one thread waits another can step, so no wait is for ever. */
    method LetOthers(me: Thread)
      requires Good() && Blocked(me)
      modifies this
      ensures Good() && Stays(me) && old(trained) <= maxEpochs
      ensures Left(Value(), maxEpochs) < Left(old(Value()), maxEpochs)
    {
      hide Inv, Init, Runs, After, Next, Left;
      NoDeadlock(Value(), maxEpochs);
      var action :| Enabled(Value(), action) && !TakenBy(action, me) && !action.RolloutStep?;
      OthersStay(Value(), action, me);
      Perform(action);
    }

    /** `is_running` as the updater calls it: the loop goes on exactly while `done` is not set. */
    method UpdaterIsRunning() returns (running: bool)
      requires Good() && (updater == Check || updater == Recheck)
      modifies this
      ensures Good() && old(trained) <= maxEpochs && Left(Value(), maxEpochs) < Left(old(Value()), maxEpochs)
      ensures updater == if !running then Exited else if old(updater) == Check then Wait else Body
      ensures updates == old(updates) && (old(doneEvent) ==> !running)
    {
      hide Inv, Init, Runs, After, Left;
      ghost var before := Value();
      running := !doneEvent;
      updater := WorkerNext(updater, !running);
      Continue(before, UpdaterStep, UpdateThread);
    }

    method SyncerIsRunning() returns (running: bool)
      requires Good() && (syncer == Check || syncer == Recheck)
      modifies this
      ensures Good() && old(trained) <= maxEpochs && Left(Value(), maxEpochs) < Left(old(Value()), maxEpochs)
      ensures syncer == if !running then Exited else if old(syncer) == Check then Wait else Body
      ensures syncs == old(syncs) && (old(doneEvent) ==> !running)
    {
      hide Inv, Init, Runs, After, Left;
      ghost var before := Value();
      running := !doneEvent;
      syncer := WorkerNext(syncer, !running);
      Continue(before, SyncerStep, SyncThread);
    }

    /** Wait for the event, then clear it; others may step in between. */
    method WaitForDatasetReady()
      requires Good() && trainer == WaitData
      modifies this
      ensures Good() && trainer == WaitWeights && trained == old(trained) && failed == old(failed)
    {
      hide Inv, Init, Runs, After, Left;
      while !datasetReady
        invariant Good() && trainer == WaitData && trained == old(trained) && failed == old(failed)
        decreases Left(Value(), maxEpochs)
      {
        LetOthers(TrainThread);
      }
      ghost var before := Value();
      trainer := ClearData;
      Continue(before, TrainerStep, TrainThread);
      before := Value();
      datasetReady, trainer := false, WaitWeights;
      Continue(before, TrainerStep, TrainThread);
    }

    /** After this wait the trainer has the dataset and the weights for itself. */
    method WaitForWeightsUpdated()
      requires Good() && trainer == WaitWeights
      modifies this
      ensures Good() && trainer == Training && trained == old(trained) && failed == old(failed)
      ensures updates == trained + 1 && syncs == trained && updater != Body && syncer != Body
    {
      hide Inv, Init, Runs, After, Left;
      while !weightsUpdated
        invariant Good() && trainer == WaitWeights && trained == old(trained) && failed == old(failed)
        decreases Left(Value(), maxEpochs)
      {
        LetOthers(TrainThread);
      }
      ghost var before := Value();
      trainer := ClearWeights;
      Continue(before, TrainerStep, TrainThread);
      before := Value();
      weightsUpdated, trainer := false, Training;
      Continue(before, TrainerStep, TrainThread);
      InvSafe(Value(), maxEpochs);
    }

    method WaitForUpdateDataset()
      requires Good() && updater == Wait
      modifies this
      ensures Good() && old(trained) <= maxEpochs && Left(Value(), maxEpochs) < Left(old(Value()), maxEpochs)
      ensures updater == Recheck && updates == old(updates)
    {
      hide Inv, Init, Runs, After, Left;
      while !readyForUpdateDataset
        invariant Good() && updater == Wait && updates == old(updates)
        invariant Left(Value(), maxEpochs) <= Left(old(Value()), maxEpochs)
        decreases Left(Value(), maxEpochs)
      {
        LetOthers(UpdateThread);
      }
      ghost var before := Value();
      updater := Clear;
      Continue(before, UpdaterStep, UpdateThread);
      before := Value();
      readyForUpdateDataset, updater := false, Recheck;
      Continue(before, UpdaterStep, UpdateThread);
    }

    method WaitForSyncWeights()
      requires Good() && syncer == Wait
      modifies this
      ensures Good() && old(trained) <= maxEpochs && Left(Value(), maxEpochs) < Left(old(Value()), maxEpochs)
      ensures syncer == Recheck && syncs == old(syncs)
    {
      hide Inv, Init, Runs, After, Left;
      while !readyForSyncWeights
        invariant Good() && syncer == Wait && syncs == old(syncs)
        invariant Left(Value(), maxEpochs) <= Left(old(Value()), maxEpochs)
        decreases Left(Value(), maxEpochs)
      {
        LetOthers(SyncThread);
      }
      ghost var before := Value();
      syncer := Clear;
      Continue(before, SyncerStep, SyncThread);
      before := Value();
      readyForSyncWeights, syncer := false, Recheck;
      Continue(before, SyncerStep, SyncThread);
    }

    /** Two events, one after the other. */
    method NotifyTrainStepDone()
      requires Good() && trainer == NotifyUpdate
      modifies this
      ensures Good() && trainer == NextEpoch(trained, maxEpochs) && trained == old(trained) && failed == old(failed)
    {
      hide Inv, Init, Runs, After, Left;
      ghost var before := Value();
      readyForUpdateDataset, trainer := true, NotifySync;
      Continue(before, TrainerStep, TrainThread);
      before := Value();
      readyForSyncWeights, trainer := true, NextEpoch(trained, maxEpochs);
      Continue(before, TrainerStep, TrainThread);
    }

    method NotifyDatasetReady()
      requires Good() && updater == Notify
      modifies this
      ensures Good() && old(trained) <= maxEpochs && Left(Value(), maxEpochs) < Left(old(Value()), maxEpochs)
      ensures updater == Check && updates == old(updates)
    {
      hide Inv, Init, Runs, After, Left;
      ghost var before := Value();
      datasetReady, updater := true, Check;
      Continue(before, UpdaterStep, UpdateThread);
    }

    method NotifyWeightUpdateStepDone()
      requires Good() && syncer == Notify
      modifies this
      ensures Good() && old(trained) <= maxEpochs && Left(Value(), maxEpochs) < Left(old(Value()), maxEpochs)
      ensures syncer == Check && syncs == old(syncs)
    {
      hide Inv, Init, Runs, After, Left;
      ghost var before := Value();
      weightsUpdated, syncer := true, Check;
      Continue(before, SyncerStep, SyncThread);
    }

    /** Five events, one after the other. */
    method Stop()
      requires Good() && trainer == StopDone
      modifies this
      ensures Good() && trainer == Stopped && trained == old(trained) && failed == old(failed)
      ensures doneEvent && weightsUpdated && datasetReady
    {
      hide Good, Stays;
      SetDone();
      ReleaseWorkers();
      ReleaseTrainer();
    }

    method SetDone()
      requires Good() && trainer == StopDone
      modifies this
      ensures Good() && trainer == StopUpdate && trained == old(trained) && failed == old(failed)
    {
      hide Init, Runs, After, Left, Inv;
      ghost var before := Value();
      doneEvent, trainer := true, StopUpdate;
      Continue(before, TrainerStep, TrainThread);
    }

    /** The events the workers wait for. */
    method ReleaseWorkers()
      requires Good() && trainer == StopUpdate
      modifies this
      ensures Good() && trainer == StopWeights && trained == old(trained) && failed == old(failed)
    {
      hide Init, Runs, After, Left, Inv;
      ghost var before := Value();
      readyForUpdateDataset, trainer := true, StopSync;
      Continue(before, TrainerStep, TrainThread);
      before := Value();
      readyForSyncWeights, trainer := true, StopWeights;
      Continue(before, TrainerStep, TrainThread);
    }

    /** The events the trainer waits for. */
    method ReleaseTrainer()
      requires Good() && trainer == StopWeights
      modifies this
      ensures Good() && trainer == Stopped && trained == old(trained) && failed == old(failed)
      ensures doneEvent && weightsUpdated && datasetReady
    {
      hide Init, Runs, After, Left, Inv;
      ghost var before := Value();
      weightsUpdated, trainer := true, StopData;
      Continue(before, TrainerStep, TrainThread);
      before := Value();
      datasetReady, trainer := true, Stopped;
      Continue(before, TrainerStep, TrainThread);
      StoppedDone();
    }

    lemma StoppedDone()
      requires Inv(Value(), maxEpochs) && trainer == Stopped
      ensures doneEvent && weightsUpdated && datasetReady && (failed || trained == maxEpochs)
    {
    }

    /** One training, which may raise. */
    method Train() returns (raised: bool)
      requires Good() && trainer == Training && !failed
      modifies this
      ensures Good() && failed == raised && trained == old(trained) + (if raised then 0 else 1)
      ensures trainer == if raised then StopDone else NotifyUpdate
    {
      hide Inv, Init, Runs, After, Left;
      Others(TrainThread);
      raised := *;
      ghost var before := Value();
      if raised {
        trainer, failed := StopDone, true;
        Record(before, TrainerFails);
      } else {
        trainer, trained := NotifyUpdate, trained + 1;
        Record(before, TrainerStep);
      }
      Others(TrainThread);
    }

    /** Saving the checkpoint of an epoch may raise as well. */
    method SaveCheckpoint(epoch: nat, saved: seq<nat>) returns (raised: bool, after: seq<nat>)
      requires Good() && trainer == NotifyUpdate && !failed
      modifies this
      ensures Good() && failed == raised && trained == old(trained)
      ensures trainer == if raised then StopDone else NotifyUpdate
      ensures after == if raised then saved else saved + [epoch]
    {
      hide Inv, Init, Runs, After, Left;
      raised := *;
      after := saved;
      if raised {
        ghost var before := Value();
        trainer, failed := StopDone, true;
        Continue(before, TrainerFails, TrainThread);
      } else {
        after := saved + [epoch];
      }
    }

    /** Whether a checkpoint is saved after this epoch. */
    static predicate Due(epoch: nat, saveInterval: nat) {
      saveInterval > 0 && epoch % saveInterval == 0
    }

    /** The checkpoints saved in the epochs before `epoch`, in order. */
    static ghost predicate Saved(saved: seq<nat>, epoch: nat, saveInterval: nat) {
      && (forall i, j | 0 <= i < j < |saved| :: saved[i] < saved[j])
      && forall e: nat :: e in saved <==> e < epoch && Due(e, saveInterval)
    }

    static lemma SavedNone(saveInterval: nat)
      ensures Saved([], 0, saveInterval)
    {
    }

    static lemma SavedMore(saved: seq<nat>, epoch: nat, saveInterval: nat)
      requires Saved(saved, epoch, saveInterval)
      ensures Saved(if Due(epoch, saveInterval) then saved + [epoch] else saved, epoch + 1, saveInterval)
    {
      forall e: nat ensures e in saved + [epoch] <==> e in saved || e == epoch {
      }
      assert forall i | 0 <= i < |saved| :: saved[i] in saved;
    }

    static lemma SavedAll(saved: seq<nat>, epoch: nat, saveInterval: nat)
      requires Saved(saved, epoch, saveInterval)
      ensures forall i, j | 0 <= i < j < |saved| :: saved[i] < saved[j]
      ensures forall e: nat :: e in saved <==> e < epoch && saveInterval > 0 && e % saveInterval == 0
    {
    }

    /** The training loop ends, whatever the other threads do; it has trained every epoch unless a
        training or a checkpoint raised, and has stopped the coordinator either way. A checkpoint was
        saved after each trained epoch that is a multiple of the interval, but for one that raised. */
    method TrainLoop(saveInterval: nat) returns (saved: seq<nat>)
      requires Unstarted()
      modifies this
      ensures Good() && Safe(Value()) && trainer == Stopped && doneEvent && (failed || trained == maxEpochs)
      ensures forall i, j | 0 <= i < j < |saved| :: saved[i] < saved[j]
      ensures forall e | e in saved :: e < trained && saveInterval > 0 && e % saveInterval == 0
      ensures forall e: nat | e < trained && saveInterval > 0 && e % saveInterval == 0 ::
                e in saved || (failed && e + 1 == trained)
    {
      hide Inv, Init, Runs, After, Left, Safe;
      hide Saved;
      Start();
      var epoch, raised := 0, false;
      saved := [];
      SavedNone(saveInterval);
      while epoch < maxEpochs && !raised
        invariant Good() && failed == raised && epoch <= maxEpochs
        invariant trainer == if raised then StopDone else NextEpoch(epoch, maxEpochs)
        invariant if raised then epoch <= trained <= epoch + 1 else trained == epoch
        invariant Saved(saved, epoch, saveInterval)
        decreases maxEpochs - epoch, !raised
      {
        WaitForDatasetReady();
        WaitForWeightsUpdated();
        raised := Train();
        ghost var before := saved;
        if !raised && Due(epoch, saveInterval) {
          raised, saved := SaveCheckpoint(epoch, saved);
        }
        if !raised {
          NotifyTrainStepDone();
          SavedMore(before, epoch, saveInterval);
          epoch := epoch + 1;
        }
      }
      Stop();
      StoppedDone();
      InvSafe(Value(), maxEpochs);
      SavedAll(saved, epoch, saveInterval);
    }

    /** The body of the updater. */
    method UpdateDataset()
      requires Good() && updater == Body
      modifies this
      ensures Good() && old(trained) <= maxEpochs && Left(Value(), maxEpochs) < Left(old(Value()), maxEpochs)
      ensures updater == Notify && updates == old(updates) + 1
    {
      hide Inv, Init, Runs, After, Left;
      Others(UpdateThread);
      ghost var before := Value();
      updater, updates := Notify, updates + 1;
      Continue(before, UpdaterStep, UpdateThread);
    }

    /** The body of the syncer. */
    method SyncWeights()
      requires Good() && syncer == Body
      modifies this
      ensures Good() && old(trained) <= maxEpochs && Left(Value(), maxEpochs) < Left(old(Value()), maxEpochs)
      ensures syncer == Notify && syncs == old(syncs) + 1
    {
      hide Inv, Init, Runs, After, Left;
      Others(SyncThread);
      ghost var before := Value();
      syncer, syncs := Notify, syncs + 1;
      Continue(before, SyncerStep, SyncThread);
    }

    /** The loop of the updater ends, whatever the other threads do, and only when `done` is set. Its
        first test may have come before `start`. */
    method UpdateDatasetLoop()
      requires Good() && (updater == Check || updater == Wait)
      modifies this
      ensures Good() && Safe(Value()) && updater == Exited && doneEvent
    {
      hide Inv, Init, Runs, After, Left, Safe;
      var running := true;
      if updater == Check {
        running := UpdaterIsRunning();
      }
      while running
        invariant Good() && updater == if running then Wait else Exited
        decreases Left(Value(), maxEpochs)
      {
        WaitForUpdateDataset();
        running := UpdaterIsRunning();
        if !running {
          break;
        }
        UpdateDataset();
        NotifyDatasetReady();
        running := UpdaterIsRunning();
      }
      ExitedDone();
      InvSafe(Value(), maxEpochs);
    }

    /** The loop of the syncer likewise. */
    method SyncWeightsLoop()
      requires Good() && (syncer == Check || syncer == Wait)
      modifies this
      ensures Good() && Safe(Value()) && syncer == Exited && doneEvent
    {
      hide Inv, Init, Runs, After, Left, Safe;
      var running := true;
      if syncer == Check {
        running := SyncerIsRunning();
      }
      while running
        invariant Good() && syncer == if running then Wait else Exited
        decreases Left(Value(), maxEpochs)
      {
        WaitForSyncWeights();
        running := SyncerIsRunning();
        if !running {
          break;
        }
        SyncWeights();
        NotifyWeightUpdateStepDone();
        running := SyncerIsRunning();
      }
      ExitedDone();
      InvSafe(Value(), maxEpochs);
    }

    lemma ExitedDone()
      requires Inv(Value(), maxEpochs) && (updater == Exited || syncer == Exited)
      ensures doneEvent
    {
    }
  }
}
