/** The asynchronous training protocol as a state machine: four threads and five events, one
    step per event operation or loop test. `start` is one atomic step, the initial state; `stop`
    sets its five events one at a time. */
module AsyncProtocol {
  datatype Events = Events(done: bool, readyUpdate: bool, readySync: bool, weightsUpdated: bool, datasetReady: bool)

  /** The loop of the dataset updater; the syncer loop has the same shape. */
  datatype Worker = Check | Wait | Clear | Recheck | Body | Notify | Exited

  datatype Trainer =
    | WaitData | ClearData | WaitWeights | ClearWeights | Training | NotifyUpdate | NotifySync
    | StopDone | StopUpdate | StopSync | StopWeights | StopData | Stopped

  datatype Rollout = RolloutCheck | RolloutBody | RolloutExited

  datatype State = State(
    events: Events,
    trainer: Trainer,
    updater: Worker,
    syncer: Worker,
    rollout: Rollout,
    trained: nat,    // trainings completed
    updates: nat,    // dataset updates completed
    syncs: nat,      // weight syncs completed
    failed: bool)    // a training or its checkpoint raised

  datatype Action = TrainerStep | TrainerFails | UpdaterStep | SyncerStep | RolloutStep

  /** Right after `start`. The other threads may have reached their first wait before it. */
  ghost predicate Init(s: State, maxEpochs: nat) {
    && s.events == Events(false, true, false, true, false)
    && s.trainer == NextEpoch(0, maxEpochs)
    && (s.updater == Check || s.updater == Wait)
    && (s.syncer == Check || s.syncer == Wait)
    && s.rollout != RolloutExited
    && s.trained == s.updates == s.syncs == 0 && !s.failed
  }

  function NextEpoch(trained: nat, maxEpochs: nat): Trainer {
    if trained < maxEpochs then WaitData else StopDone
  }

  predicate WorkerEnabled(w: Worker, ready: bool) {
    w != Exited && (w == Wait ==> ready)
  }

  predicate Enabled(s: State, a: Action) {
    match a
    case TrainerStep =>
      && s.trainer != Stopped
      && (s.trainer == WaitData ==> s.events.datasetReady)
      && (s.trainer == WaitWeights ==> s.events.weightsUpdated)
    case TrainerFails => s.trainer == Training || s.trainer == NotifyUpdate
    case UpdaterStep => WorkerEnabled(s.updater, s.events.readyUpdate)
    case SyncerStep => WorkerEnabled(s.syncer, s.events.readySync)
    case RolloutStep => s.rollout != RolloutExited
  }

  /** Where a worker goes next; both tests of the running flag leave the loop once `done` is set. */
  function WorkerNext(w: Worker, done: bool): Worker {
    match w
    case Check => if done then Exited else Wait
    case Wait => Clear
    case Clear => Recheck
    case Recheck => if done then Exited else Body
    case Body => Notify
    case Notify => Check
    case Exited => Exited
  }

  function TrainerNext(s: State, maxEpochs: nat): State {
    var e := s.events;
    match s.trainer
    case WaitData => s.(trainer := ClearData)
    case ClearData => s.(trainer := WaitWeights, events := e.(datasetReady := false))
    case WaitWeights => s.(trainer := ClearWeights)
    case ClearWeights => s.(trainer := Training, events := e.(weightsUpdated := false))
    case Training => s.(trainer := NotifyUpdate, trained := s.trained + 1)
    case NotifyUpdate => s.(trainer := NotifySync, events := e.(readyUpdate := true))
    case NotifySync => s.(trainer := NextEpoch(s.trained, maxEpochs), events := e.(readySync := true))
    case StopDone => s.(trainer := StopUpdate, events := e.(done := true))
    case StopUpdate => s.(trainer := StopSync, events := e.(readyUpdate := true))
    case StopSync => s.(trainer := StopWeights, events := e.(readySync := true))
    case StopWeights => s.(trainer := StopData, events := e.(weightsUpdated := true))
    case StopData => s.(trainer := Stopped, events := e.(datasetReady := true))
    case Stopped => s
  }

  function UpdaterNext(s: State): State {
    var e := s.events;
    s.(updater := WorkerNext(s.updater, e.done),
       events := if s.updater == Clear then e.(readyUpdate := false)
                 else if s.updater == Notify then e.(datasetReady := true) else e,
       updates := if s.updater == Body then s.updates + 1 else s.updates)
  }

  function SyncerNext(s: State): State {
    var e := s.events;
    s.(syncer := WorkerNext(s.syncer, e.done),
       events := if s.syncer == Clear then e.(readySync := false)
                 else if s.syncer == Notify then e.(weightsUpdated := true) else e,
       syncs := if s.syncer == Body then s.syncs + 1 else s.syncs)
  }

  function RolloutNext(s: State): State {
    s.(rollout := if s.rollout == RolloutBody then RolloutCheck
                  else if s.events.done then RolloutExited else RolloutBody)
  }

  function Next(s: State, a: Action, maxEpochs: nat): State {
    match a
    case TrainerStep => TrainerNext(s, maxEpochs)
    case TrainerFails => s.(trainer := StopDone, failed := true)
    case UpdaterStep => UpdaterNext(s)
    case SyncerStep => SyncerNext(s)
    case RolloutStep => RolloutNext(s)
  }

  /** A schedule runs from `s` when each of its actions is enabled in turn. */
  ghost predicate Runs(s: State, schedule: seq<Action>, maxEpochs: nat)
    decreases |schedule|
  {
    schedule == [] || (Enabled(s, schedule[0]) && Runs(Next(s, schedule[0], maxEpochs), schedule[1..], maxEpochs))
  }

  function After(s: State, schedule: seq<Action>, maxEpochs: nat): State
    decreases |schedule|
  {
    if schedule == [] then s else After(Next(s, schedule[0], maxEpochs), schedule[1..], maxEpochs)
  }

  function Bit(b: bool): nat { if b then 1 else 0 }

  predicate Stopping(t: Trainer) {
    t.StopUpdate? || t.StopSync? || t.StopWeights? || t.StopData? || t.Stopped?
  }

  predicate Busy(w: Worker) { w.Recheck? || w.Body? || w.Notify? }

  /** The trainer owns the permission to update the dataset. */
  predicate OwnsData(t: Trainer) { t.WaitWeights? || t.ClearWeights? || t.Training? || t.NotifyUpdate? }

  /** The trainer owns the permission to sync weights. */
  predicate OwnsWeights(t: Trainer) { t.Training? || t.NotifyUpdate? || t.NotifySync? }

  /** The one token that travels trainer -> updater -> trainer. */
  function DataTokens(s: State): nat {
    Bit(s.events.readyUpdate) + Bit(Busy(s.updater)) + Bit(s.events.datasetReady) + Bit(OwnsData(s.trainer))
  }

  /** The one token that travels trainer -> syncer -> trainer. */
  function WeightTokens(s: State): nat {
    Bit(s.events.readySync) + Bit(Busy(s.syncer)) + Bit(s.events.weightsUpdated) + Bit(OwnsWeights(s.trainer))
  }

  /** Updates finished but not yet trained on. */
  function FreshData(s: State): nat {
    Bit(s.updater == Notify) + Bit(s.events.datasetReady) + Bit(OwnsData(s.trainer) && s.trainer != NotifyUpdate)
  }

  /** Trainings whose weights were not yet synced. */
  function StaleWeights(s: State): nat {
    Bit(s.events.readySync) + Bit(s.syncer == Recheck || s.syncer == Body)
    + Bit(s.trainer == NotifyUpdate || s.trainer == NotifySync)
  }

  /** While the trainer is in its loop both tokens are conserved. */
  ghost predicate LoopInv(s: State) {
    && DataTokens(s) == 1 && WeightTokens(s) == 1
    && s.updates == s.trained + FreshData(s)
    && s.syncs + StaleWeights(s) == s.trained
  }

  /** From the end of the loop on no body can start once `done` is set. */
  ghost predicate EndInv(s: State) {
    var pending := !s.events.done;
    && s.trained <= s.updates
    && s.updates + Bit(s.updater == Body || (pending && (s.updater == Recheck || s.events.readyUpdate)))
       <= s.trained + 1
    && s.syncs + Bit(s.syncer == Body || (pending && (s.syncer == Recheck || s.events.readySync))) <= s.trained
    && !(pending && s.events.readyUpdate && Busy(s.updater))
    && !(pending && s.events.readySync && Busy(s.syncer))
  }

  ghost predicate Inv(s: State, maxEpochs: nat) {
    && (s.events.done <==> Stopping(s.trainer))
    && s.trained <= maxEpochs
    && (if s.trainer == StopDone || Stopping(s.trainer)
        then EndInv(s) && (s.failed || s.trained == maxEpochs)
        else LoopInv(s) && !s.failed && (!OwnsWeights(s.trainer) || s.trainer == Training ==> s.trained < maxEpochs))
    && (s.trainer == ClearData ==> s.events.datasetReady)
    && (s.trainer == ClearWeights ==> s.events.weightsUpdated)
    && (s.updater == Clear ==> s.events.readyUpdate)
    && (s.syncer == Clear ==> s.events.readySync)
    && (!s.events.done ==> s.updater != Exited && s.syncer != Exited && s.rollout != RolloutExited)
    && (Stopping(s.trainer) && s.trainer != StopUpdate && s.updater == Wait ==> s.events.readyUpdate)
    && (Stopping(s.trainer) && s.trainer != StopUpdate && s.trainer != StopSync && s.syncer == Wait ==>
          s.events.readySync)
    && (s.trainer == StopData || s.trainer == Stopped ==> s.events.weightsUpdated)
    && (s.trainer == Stopped ==> s.events.datasetReady)
  }

  lemma InitInv(s: State, maxEpochs: nat)
    requires Init(s, maxEpochs)
    ensures Inv(s, maxEpochs)
  {
  }

  lemma TrainerLoopInv(s: State, maxEpochs: nat)
    requires Inv(s, maxEpochs) && Enabled(s, TrainerStep)
    requires !s.trainer.NotifySync? && !s.trainer.StopDone? && !Stopping(s.trainer)
    ensures Inv(TrainerNext(s, maxEpochs), maxEpochs)
  {
  }

  lemma TrainerRoundInv(s: State, maxEpochs: nat)
    requires Inv(s, maxEpochs) && s.trainer.NotifySync?
    ensures Inv(TrainerNext(s, maxEpochs), maxEpochs)
  {
  }

  lemma TrainerStopDoneInv(s: State, maxEpochs: nat)
    requires Inv(s, maxEpochs) && s.trainer.StopDone?
    ensures Inv(TrainerNext(s, maxEpochs), maxEpochs)
  {
  }

  lemma TrainerStopInv(s: State, maxEpochs: nat)
    requires Inv(s, maxEpochs) && Stopping(s.trainer) && s.trainer != Stopped
    ensures Inv(TrainerNext(s, maxEpochs), maxEpochs)
  {
  }

  lemma UpdaterInv(s: State, maxEpochs: nat)
    requires Inv(s, maxEpochs) && Enabled(s, UpdaterStep)
    ensures Inv(UpdaterNext(s), maxEpochs)
  {
  }

  lemma SyncerInv(s: State, maxEpochs: nat)
    requires Inv(s, maxEpochs) && Enabled(s, SyncerStep)
    ensures Inv(SyncerNext(s), maxEpochs)
  {
  }

  lemma FailureInv(s: State, maxEpochs: nat)
    requires Inv(s, maxEpochs) && (s.trainer.Training? || s.trainer.NotifyUpdate?)
    ensures Inv(s.(trainer := StopDone, failed := true), maxEpochs)
  {
  }

  lemma RolloutInv(s: State, maxEpochs: nat)
    requires Inv(s, maxEpochs)
    ensures Inv(RolloutNext(s), maxEpochs)
  {
  }

  lemma StepInv(s: State, a: Action, maxEpochs: nat)
    requires Inv(s, maxEpochs) && Enabled(s, a)
    ensures Inv(Next(s, a, maxEpochs), maxEpochs)
  {
    hide Inv, TrainerNext, UpdaterNext, SyncerNext;
    match a
    case TrainerStep =>
      if s.trainer.NotifySync? {
        TrainerRoundInv(s, maxEpochs);
      } else if s.trainer.StopDone? {
        TrainerStopDoneInv(s, maxEpochs);
      } else if Stopping(s.trainer) {
        TrainerStopInv(s, maxEpochs);
      } else {
        TrainerLoopInv(s, maxEpochs);
      }
    case TrainerFails => FailureInv(s, maxEpochs);
    case UpdaterStep => UpdaterInv(s, maxEpochs);
    case SyncerStep => SyncerInv(s, maxEpochs);
    case RolloutStep => RolloutInv(s, maxEpochs);
  }

  lemma {:induction false} RunInv(s: State, schedule: seq<Action>, maxEpochs: nat)
    requires Inv(s, maxEpochs) && Runs(s, schedule, maxEpochs)
    ensures Inv(After(s, schedule, maxEpochs), maxEpochs)
    decreases |schedule|
  {
    if schedule != [] {
      StepInv(s, schedule[0], maxEpochs);
      RunInv(Next(s, schedule[0], maxEpochs), schedule[1..], maxEpochs);
    }
  }

  /** Training overlaps neither a dataset update nor a weight sync; when the k-th training runs
      exactly k updates and k - 1 syncs are complete; updates are at most one ahead of trainings
      and never behind, syncs are never ahead. */
  ghost predicate Safe(s: State) {
    && (s.trainer == Training ==>
          s.updater != Body && s.syncer != Body && s.updates == s.trained + 1 && s.syncs == s.trained)
    && s.trained <= s.updates <= s.trained + 1 && s.syncs <= s.trained
  }

  lemma InvSafe(s: State, maxEpochs: nat)
    requires Inv(s, maxEpochs)
    ensures Safe(s)
  {
  }

  /** Every state of every run is safe, before, during and after `stop`. */
  lemma Safety(s: State, schedule: seq<Action>, maxEpochs: nat)
    requires Init(s, maxEpochs) && Runs(s, schedule, maxEpochs)
    ensures Safe(After(s, schedule, maxEpochs))
  {
    InitInv(s, maxEpochs);
    RunInv(s, schedule, maxEpochs);
    InvSafe(After(s, schedule, maxEpochs), maxEpochs);
  }

  /** Some unfinished trainer, updater or syncer thread can step. */
  predicate CanStep(s: State) {
    Enabled(s, TrainerStep) || Enabled(s, UpdaterStep) || Enabled(s, SyncerStep)
  }

  predicate AllStopped(s: State) {
    s.trainer == Stopped && s.updater == Exited && s.syncer == Exited
  }

  lemma NoDeadlock(s: State, maxEpochs: nat)
    requires Inv(s, maxEpochs)
    ensures CanStep(s) <==> !AllStopped(s)
  {
  }

  /** Upper bound on the steps left to the trainer. */
  function TrainerLeft(s: State, maxEpochs: nat): nat
    requires s.trained <= maxEpochs
  {
    var rounds := 7 * (maxEpochs - s.trained);
    match s.trainer
    case WaitData => rounds + 5
    case ClearData => rounds + 4
    case WaitWeights => rounds + 3
    case ClearWeights => rounds + 2
    case Training => rounds + 1
    case NotifyUpdate => rounds + 7
    case NotifySync => rounds + 6
    case StopDone => 5
    case StopUpdate => 4
    case StopSync => 3
    case StopWeights => 2
    case StopData => 1
    case Stopped => 0
  }

  /** Steps a worker can make before it needs another event; a set event is worth one more lap. */
  function WorkerLeft(w: Worker, ready: bool): nat {
    6 * Bit(ready) + match w
      case Recheck => 9
      case Body => 8
      case Notify => 7
      case Check => 6
      case Wait => 5
      case Clear => 4
      case Exited => 0
  }

  function RolloutLeft(w: Rollout): nat {
    match w
    case RolloutBody => 2
    case RolloutCheck => 1
    case RolloutExited => 0
  }

  function Left(s: State, maxEpochs: nat): nat
    requires s.trained <= maxEpochs
  {
    7 * TrainerLeft(s, maxEpochs)
    + WorkerLeft(s.updater, s.events.readyUpdate) + WorkerLeft(s.syncer, s.events.readySync)
  }

  lemma TrainerLeftDrops(s: State, maxEpochs: nat)
    requires Inv(s, maxEpochs) && Enabled(s, TrainerStep)
    ensures var t := TrainerNext(s, maxEpochs);
      t.trained <= maxEpochs && TrainerLeft(t, maxEpochs) < TrainerLeft(s, maxEpochs)
  {
  }

  /** A trainer step hands at most one lap of work to the workers. */
  lemma TrainerGrantsOneLap(s: State, maxEpochs: nat)
    ensures var e, e' := s.events, TrainerNext(s, maxEpochs).events;
      Bit(e'.readyUpdate) + Bit(e'.readySync) <= Bit(e.readyUpdate) + Bit(e.readySync) + 1
  {
  }

  lemma WorkerLeftDrops(w: Worker, ready: bool, done: bool)
    requires WorkerEnabled(w, ready) && (w == Clear ==> ready)
    ensures WorkerLeft(WorkerNext(w, done), ready && w != Clear) < WorkerLeft(w, ready)
  {
  }

  lemma ReadyIsOneLap(w: Worker, before: bool, after: bool)
    ensures WorkerLeft(w, after) - WorkerLeft(w, before) == 6 * (Bit(after) - Bit(before))
  {
  }

  lemma TrainerLeavesAlone(s: State, maxEpochs: nat)
    ensures var t := TrainerNext(s, maxEpochs);
      t.updater == s.updater && t.syncer == s.syncer && t.rollout == s.rollout
  {
  }

  lemma TrainerUsesWork(s: State, maxEpochs: nat)
    requires Inv(s, maxEpochs) && Enabled(s, TrainerStep)
    ensures var t := TrainerNext(s, maxEpochs);
      t.trained <= maxEpochs && Left(t, maxEpochs) < Left(s, maxEpochs) && t.rollout == s.rollout
  {
    hide Inv, TrainerLeft, TrainerNext, WorkerLeft, Bit;
    var t := TrainerNext(s, maxEpochs);
    InvParts(s, maxEpochs);
    TrainerLeftDrops(s, maxEpochs);
    TrainerGrantsOneLap(s, maxEpochs);
    TrainerLeavesAlone(s, maxEpochs);
    ReadyIsOneLap(s.updater, s.events.readyUpdate, t.events.readyUpdate);
    ReadyIsOneLap(s.syncer, s.events.readySync, t.events.readySync);
  }

  lemma FailureUsesWork(s: State, maxEpochs: nat)
    requires Inv(s, maxEpochs) && Enabled(s, TrainerFails)
    ensures Left(Next(s, TrainerFails, maxEpochs), maxEpochs) < Left(s, maxEpochs)
  {
  }

  lemma UpdaterUsesWork(s: State, maxEpochs: nat)
    requires s.trained <= maxEpochs && (s.updater == Clear ==> s.events.readyUpdate)
    requires Enabled(s, UpdaterStep)
    ensures Left(UpdaterNext(s), maxEpochs) < Left(s, maxEpochs)
  {
    WorkerLeftDrops(s.updater, s.events.readyUpdate, s.events.done);
  }

  lemma SyncerUsesWork(s: State, maxEpochs: nat)
    requires s.trained <= maxEpochs && (s.syncer == Clear ==> s.events.readySync)
    requires Enabled(s, SyncerStep)
    ensures Left(SyncerNext(s), maxEpochs) < Left(s, maxEpochs)
  {
    WorkerLeftDrops(s.syncer, s.events.readySync, s.events.done);
  }

  lemma InvParts(s: State, maxEpochs: nat)
    requires Inv(s, maxEpochs)
    ensures s.trained <= maxEpochs
    ensures (s.updater == Clear ==> s.events.readyUpdate) && (s.syncer == Clear ==> s.events.readySync)
  {
  }

  /** What a worker step leaves alone. */
  lemma WorkersLeaveAlone(s: State)
    ensures UpdaterNext(s).trained == SyncerNext(s).trained == s.trained
    ensures UpdaterNext(s).rollout == SyncerNext(s).rollout == s.rollout
  {
  }

  lemma RolloutUsesNone(s: State, maxEpochs: nat)
    requires s.trained <= maxEpochs
    ensures Left(RolloutNext(s), maxEpochs) == Left(s, maxEpochs)
  {
  }

  /** Every step of the trainer, the updater or the syncer uses up some of the work left; a
      rollout step uses up none, and once `done` is set brings the rollout closer to its exit. */
  lemma StepUsesWork(s: State, a: Action, maxEpochs: nat)
    requires Inv(s, maxEpochs) && Enabled(s, a)
    ensures var t := Next(s, a, maxEpochs);
      t.trained <= maxEpochs &&
      if a == RolloutStep
      then Left(t, maxEpochs) == Left(s, maxEpochs)
           && (s.events.done ==> RolloutLeft(t.rollout) < RolloutLeft(s.rollout))
      else Left(t, maxEpochs) < Left(s, maxEpochs) && t.rollout == s.rollout
  {
    hide Inv, Left, TrainerNext, UpdaterNext, SyncerNext;
    InvParts(s, maxEpochs);
    WorkersLeaveAlone(s);
    RolloutUsesNone(s, maxEpochs);
    match a
    case TrainerStep => TrainerUsesWork(s, maxEpochs);
    case TrainerFails => FailureUsesWork(s, maxEpochs);
    case UpdaterStep => UpdaterUsesWork(s, maxEpochs);
    case SyncerStep => SyncerUsesWork(s, maxEpochs);
    case RolloutStep =>
  }

  function CoordinatorSteps(schedule: seq<Action>): nat {
    if schedule == [] then 0 else Bit(schedule[0] != RolloutStep) + CoordinatorSteps(schedule[1..])
  }

  lemma {:induction false} RunUsesWork(s: State, schedule: seq<Action>, maxEpochs: nat)
    requires Inv(s, maxEpochs) && Runs(s, schedule, maxEpochs)
    ensures After(s, schedule, maxEpochs).trained <= maxEpochs
    ensures CoordinatorSteps(schedule) + Left(After(s, schedule, maxEpochs), maxEpochs) <= Left(s, maxEpochs)
    decreases |schedule|
  {
    if schedule != [] {
      StepInv(s, schedule[0], maxEpochs);
      StepUsesWork(s, schedule[0], maxEpochs);
      RunUsesWork(Next(s, schedule[0], maxEpochs), schedule[1..], maxEpochs);
    }
  }

  /** Liveness. No run has more than a fixed number of trainer, updater and syncer steps; it
      cannot get stuck before all three threads have ended; and when they have, either something
      raised or every epoch was trained, with an update for each. */
  lemma Liveness(s: State, schedule: seq<Action>, maxEpochs: nat)
    requires Init(s, maxEpochs) && Runs(s, schedule, maxEpochs)
    ensures CoordinatorSteps(schedule) <= 49 * maxEpochs + 53
    ensures var t := After(s, schedule, maxEpochs);
      && (CanStep(t) || AllStopped(t))
      && (AllStopped(t) ==> t.events.done && (t.failed || t.trained == maxEpochs))
  {
    InitInv(s, maxEpochs);
    RunInv(s, schedule, maxEpochs);
    RunUsesWork(s, schedule, maxEpochs);
    NoDeadlock(After(s, schedule, maxEpochs), maxEpochs);
  }

  /** Once `done` is set the rollout ends within two of its own steps. */
  lemma {:induction false} RolloutEnds(s: State, schedule: seq<Action>, maxEpochs: nat)
    requires Inv(s, maxEpochs) && Runs(s, schedule, maxEpochs) && s.events.done
    ensures |schedule| - CoordinatorSteps(schedule) <= RolloutLeft(s.rollout) <= 2
    decreases |schedule|
  {
    if schedule != [] {
      StepInv(s, schedule[0], maxEpochs);
      StepUsesWork(s, schedule[0], maxEpochs);
      RolloutEnds(Next(s, schedule[0], maxEpochs), schedule[1..], maxEpochs);
    }
  }
}
