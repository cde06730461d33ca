/** `ServiceThread`: one worker that loops on `isStoped` and `waitForRunning`, and any number of
    threads that call `wakeup` and `stop`. A step is one access to the monitor or to a field, and
    the steps of all threads interleave freely. */
module ServiceThread {
  /** Where the worker is in `while (!isStoped()) { waitForRunning(..); }`. */
  datatype WorkerAt =
    | Checking     // about to read `stoped`
    | Entering     // waits for the lock, at the head of `waitForRunning`
    | Testing      // about to read `hasNotified`
    | AboutToWait  // about to call `wait`
    | Waiting      // in the wait set
    | Reentering   // notified, timed out, interrupted or woken without cause: waits for the lock
    | Resetting    // about to clear `hasNotified`
    | Leaving      // about to release the lock and return
    | Ended

  /** Where a thread is in `wakeup` or `stop`. */
  datatype CallerAt = Stopping | Locking | Asking | Setting | Notifying | Unlocking

  datatype Caller = Caller(at: CallerAt, stops: bool)

  datatype Owner = Free | Worker | Thread(t: nat)

  datatype State = State(hasNotified: bool, stoped: bool, owner: Owner, worker: WorkerAt, callers: map<nat, Caller>)

  datatype Event =
    | Check | Enter | Test | Block | Unblock | Reenter | Reset | Return
    | Call(t: nat, stops: bool) | SetStop(t: nat)
    | Lock(t: nat) | Ask(t: nat) | SetFlag(t: nat) | Notify(t: nat) | Unlock(t: nat)
    | MakeStop

  predicate At(s: State, t: nat, at: CallerAt) {
    t in s.callers && s.callers[t].at == at
  }

  predicate Enabled(s: State, e: Event) {
    match e
    case Check => s.worker.Checking?
    case Enter => s.worker.Entering? && s.owner.Free?
    case Test => s.worker.Testing?
    case Block => s.worker.AboutToWait?
    case Unblock => s.worker.Waiting?
    case Reenter => s.worker.Reentering? && s.owner.Free?
    case Reset => s.worker.Resetting?
    case Return => s.worker.Leaving?
    case Call(t, _) => t !in s.callers
    case SetStop(t) => At(s, t, Stopping)
    case Lock(t) => At(s, t, Locking) && s.owner.Free?
    case Ask(t) => At(s, t, Asking)
    case SetFlag(t) => At(s, t, Setting)
    case Notify(t) => At(s, t, Notifying)
    case Unlock(t) => At(s, t, Unlocking)
    case MakeStop => true
  }

  function Move(s: State, t: nat, at: CallerAt): State
    requires t in s.callers
  {
    s.(callers := s.callers[t := s.callers[t].(at := at)])
  }

  function Next(s: State, e: Event): State
    requires Enabled(s, e)
  {
    match e
    case Check => s.(worker := if s.stoped then Ended else Entering)
    case Enter => s.(worker := Testing, owner := Worker)
    case Test => s.(worker := if s.hasNotified then Resetting else AboutToWait)
    case Block => s.(worker := Waiting, owner := Free)
    case Unblock => s.(worker := Reentering)
    case Reenter => s.(worker := Resetting, owner := Worker)
    case Reset => s.(worker := Leaving, hasNotified := false)
    case Return => s.(worker := Checking, owner := Free)
    case Call(t, stops) => s.(callers := s.callers[t := Caller(if stops then Stopping else Locking, stops)])
    case SetStop(t) => Move(s.(stoped := true), t, Locking)
    case Lock(t) => Move(s.(owner := Thread(t)), t, Asking)
    case Ask(t) => Move(s, t, if s.hasNotified then Unlocking else Setting)
    case SetFlag(t) => Move(s.(hasNotified := true), t, Notifying)
    case Notify(t) => Move(s.(worker := if s.worker.Waiting? then Reentering else s.worker), t, Unlocking)
    case Unlock(t) => s.(owner := Free, callers := s.callers - {t})
    case MakeStop => s.(stoped := true)
  }

  /* ---- What every step keeps ---- */

  predicate Holds(at: CallerAt) {
    at.Asking? || at.Setting? || at.Notifying? || at.Unlocking?
  }

  predicate WorkerHolds(at: WorkerAt) {
    at.Testing? || at.AboutToWait? || at.Resetting? || at.Leaving?
  }

  /** The lock keeps everyone else out. */
  ghost predicate Exclusive(s: State) {
    && (s.owner.Worker? <==> WorkerHolds(s.worker))
    && (forall t :: t in s.callers ==> (s.owner == Thread(t) <==> Holds(s.callers[t].at)))
    && (s.owner.Thread? ==> s.owner.t in s.callers)
  }

  /** What the flag says to whoever holds the lock. */
  ghost predicate FlagAgrees(s: State) {
    && (s.worker.AboutToWait? || s.worker.Leaving? ==> !s.hasNotified)
    && (s.owner.Thread? && At(s, s.owner.t, Setting) ==> !s.hasNotified)
    && (s.owner.Thread? && At(s, s.owner.t, Notifying) ==> s.hasNotified)
    && (s.owner.Thread? && At(s, s.owner.t, Unlocking) ==> s.hasNotified && !s.worker.Waiting?)
  }

  /** The worker is never left in the wait set with the flag up, but for the moment before the
      thread that put it up calls `notify`. */
  ghost predicate NotLeftWaiting(s: State) {
    s.worker.Waiting? && s.hasNotified ==> s.owner.Thread? && At(s, s.owner.t, Notifying)
  }

  ghost predicate StopsAreSet(s: State) {
    forall t :: t in s.callers && s.callers[t].stops && !s.callers[t].at.Stopping? ==> s.stoped
  }

  /** The worker ends only because it has been told to. */
  ghost predicate EndsWhenStopped(s: State) {
    s.worker.Ended? ==> s.stoped
  }

  ghost predicate Inv(s: State) {
    EndsWhenStopped(s) && Exclusive(s) && FlagAgrees(s) && NotLeftWaiting(s) && StopsAreSet(s)
  }

  lemma {:induction false} StepKeeps(s: State, e: Event)
    requires Inv(s) && Enabled(s, e)
    ensures Inv(Next(s, e))
  {
  }

  /* ---- Runs ---- */

  /** The state, and what has happened: whether a call of `wakeup` or `stop` has finished since
      `waitForRunning` last returned, whether a `stop` has ever finished, and how often
      `waitForRunning` returned with `stoped` set. */
  datatype History = History(s: State, owed: bool, stopDone: bool, late: nat)

  function Record(h: History, e: Event): History
    requires Enabled(h.s, e)
  {
    var next := Next(h.s, e);
    match e
    case Unlock(t) => History(next, true, h.stopDone || h.s.callers[t].stops, h.late)
    case Return => History(next, false, h.stopDone, if h.s.stoped then h.late + 1 else h.late)
    case _ => h.(s := next)
  }

  function Start(): History {
    History(State(false, false, Free, Checking, map[]), false, false, 0)
  }

  ghost predicate Valid(events: seq<Event>)
    decreases |events|, 0
  {
    events == [] || (Valid(events[..|events| - 1]) && Enabled(After(events[..|events| - 1]).s, events[|events| - 1]))
  }

  ghost function After(events: seq<Event>): History
    requires Valid(events)
    decreases |events|, 1
  {
    if events == [] then Start() else Record(After(events[..|events| - 1]), events[|events| - 1])
  }

  ghost predicate HistoryInv(h: History) {
    && Inv(h.s)
    && (h.owed ==> (h.s.hasNotified || h.s.worker.Leaving?) && !h.s.worker.Waiting?)
    && (h.stopDone ==> h.s.stoped && (h.owed || h.s.worker.Checking? || h.s.worker.Ended?))
    && (h.late <= if h.s.stoped && (h.s.worker.Checking? || h.s.worker.Ended?) then 1 else 0)
  }

  lemma {:induction false} RecordKeeps(h: History, e: Event)
    requires HistoryInv(h) && Enabled(h.s, e)
    ensures HistoryInv(Record(h, e))
  {
    StepKeeps(h.s, e);
  }

  lemma {:induction false} EveryRun(events: seq<Event>)
    requires Valid(events)
    ensures HistoryInv(After(events))
    decreases |events|
  {
    if events != [] {
      EveryRun(events[..|events| - 1]);
      RecordKeeps(After(events[..|events| - 1]), events[|events| - 1]);
    }
  }

  lemma {:induction false} PrefixIsValid(events: seq<Event>, n: nat)
    requires Valid(events) && n <= |events|
    ensures Valid(events[..n])
    decreases |events|
  {
    if n == |events| {
      assert events[..n] == events;
    } else {
      PrefixIsValid(events[..|events| - 1], n);
      assert events[..|events| - 1][..n] == events[..n];
    }
  }

  lemma {:induction false} OneMore(events: seq<Event>, n: nat)
    requires Valid(events) && n < |events|
    ensures Valid(events[..n]) && Valid(events[..n + 1]) && Enabled(After(events[..n]).s, events[n])
    ensures After(events[..n + 1]) == Record(After(events[..n]), events[n])
  {
    PrefixIsValid(events, n);
    PrefixIsValid(events, n + 1);
    assert events[..n + 1][..n] == events[..n];
  }

  /** Once a call has finished, it stays owed until `waitForRunning` returns. */
  lemma {:induction false} StaysOwed(events: seq<Event>, i: nat, j: nat)
    requires Valid(events) && i < j <= |events| && events[i].Unlock?
    requires forall k :: i < k < j ==> !events[k].Return?
    ensures Valid(events[..j]) && After(events[..j]).owed
    decreases j
  {
    OneMore(events, j - 1);
    if j > i + 1 {
      StaysOwed(events, i, j - 1);
    }
  }

  /** No lost wakeup: between the end of a call of `wakeup` or `stop` and the next time that the
      worker blocks, `waitForRunning` returns. */
  lemma {:induction false} NoLostWakeup(events: seq<Event>, i: nat, j: nat)
    requires Valid(events) && i < j < |events| && events[i].Unlock? && events[j].Block?
    ensures exists k :: i < k < j && events[k].Return?
  {
    if forall k :: i < k < j ==> !events[k].Return? {
      StaysOwed(events, i, j);
      OneMore(events, j);
      EveryRun(events[..j]);
      assert false;
    }
  }

  /* ---- Stopping ---- */

  function Returns(events: seq<Event>, from: nat): nat
    requires from <= |events|
    decreases |events|
  {
    if |events| == from then 0
    else Returns(events[..|events| - 1], from) + if events[|events| - 1].Return? then 1 else 0
  }

  lemma {:induction false} LateReturn(h: History, e: Event)
    requires Enabled(h.s, e) && h.s.stoped
    ensures Record(h, e).s.stoped && Record(h, e).late == h.late + if e.Return? then 1 else 0
  {
  }

  lemma {:induction false} CountsLateReturns(events: seq<Event>, from: nat)
    requires from <= |events| && Valid(events) && Valid(events[..from]) && After(events[..from]).s.stoped
    ensures After(events).s.stoped && After(events).late == After(events[..from]).late + Returns(events, from)
    decreases |events|
  {
    if |events| == from {
      assert events[..from] == events;
    } else {
      var n := |events| - 1;
      assert events[..n][..from] == events[..from];
      CountsLateReturns(events[..n], from);
      LateReturn(After(events[..n]), events[n]);
    }
  }

  /** After `stoped` is set, by whatever thread, the worker returns from `waitForRunning` at most
      once more. */
  lemma {:induction false} AtMostOneMore(events: seq<Event>, from: nat)
    requires from <= |events| && Valid(events) && Valid(events[..from]) && After(events[..from]).s.stoped
    ensures Returns(events, from) <= 1
  {
    CountsLateReturns(events, from);
    EveryRun(events);
  }

  /** `stop` has run through its synchronized block at event `i`. */
  ghost predicate StopsAt(events: seq<Event>, i: nat) {
    i < |events| && events[i].Unlock? && Valid(events[..i]) &&
    events[i].t in After(events[..i]).s.callers && After(events[..i]).s.callers[events[i].t].stops
  }

  /** In every run, the worker has ended only if `stoped` is set. */
  lemma EndedIsStopped(events: seq<Event>)
    requires Valid(events) && After(events).s.worker.Ended?
    ensures After(events).s.stoped
  {
    EveryRun(events);
  }

  /** And `stoped` is set only by a call that stops. */
  lemma {:induction false} StoppedByACall(events: seq<Event>)
    requires Valid(events) && After(events).s.stoped
    ensures exists i :: 0 <= i < |events| && (events[i].SetStop? || events[i].MakeStop?)
    decreases |events|
  {
    var before, e := events[..|events| - 1], events[|events| - 1];
    if After(before).s.stoped {
      StoppedByACall(before);
      var i :| 0 <= i < |before| && (before[i].SetStop? || before[i].MakeStop?);
      assert events[i] == before[i];
    } else {
      assert e.SetStop? || e.MakeStop?;
    }
  }

  lemma {:induction false} StopIsForGood(events: seq<Event>, i: nat, j: nat)
    requires Valid(events) && StopsAt(events, i) && i < j <= |events|
    ensures Valid(events[..j]) && After(events[..j]).stopDone
  {
    OneMore(events, i);
    StopDone(After(events[..i]), events[i]);
    var k := i + 1;
    while k < j
      invariant i < k <= j && Valid(events[..k]) && After(events[..k]).stopDone
    {
      OneMore(events, k);
      StopStaysDone(After(events[..k]), events[k]);
      k := k + 1;
    }
  }

  lemma {:induction false} StopDone(h: History, e: Event)
    requires e.Unlock? && Enabled(h.s, e) && h.s.callers[e.t].stops
    ensures Record(h, e).stopDone
  {
  }

  lemma {:induction false} StopStaysDone(h: History, e: Event)
    requires Enabled(h.s, e) && h.stopDone
    ensures Record(h, e).stopDone
  {
  }

  /** After `stop` has returned from its synchronized block, the worker never blocks again. */
  lemma {:induction false} NeverBlocksAfterStop(events: seq<Event>, i: nat, j: nat)
    requires Valid(events) && StopsAt(events, i) && i < j < |events|
    ensures !events[j].Block?
  {
    StopIsForGood(events, i, j);
    OneMore(events, j);
    EveryRun(events[..j]);
  }

  /* ---- Progress ---- */

  /** How many steps the worker needs until `waitForRunning` returns, when it does not block. */
  function ToReturn(at: WorkerAt): nat {
    match at
    case Checking => 5
    case Entering => 4
    case Testing => 3
    case Reentering => 3
    case Resetting => 2
    case Leaving => 1
    case _ => 0
  }

  function ToUnlock(at: CallerAt): nat {
    match at
    case Asking => 4
    case Setting => 3
    case Notifying => 2
    case _ => 1
  }

  predicate OfWorker(e: Event) {
    e.Check? || e.Enter? || e.Test? || e.Block? || e.Unblock? || e.Reenter? || e.Reset? || e.Return?
  }

  /** A call that is owed is not forgotten: whoever has the lock can go on and gives it back in at
      most four steps, the worker can go on when nobody else has it, and each of its steps brings
      the return nearer. */
  lemma {:induction false} Progress(h: History, e: Event)
    requires HistoryInv(h) && h.owed && Enabled(h.s, e) && !h.s.worker.Ended?
    ensures OfWorker(e) && !e.Return? ==> ToReturn(Record(h, e).s.worker) < ToReturn(h.s.worker)
    ensures !OfWorker(e) ==> ToReturn(Record(h, e).s.worker) == ToReturn(h.s.worker)
  {
  }

  /** How many steps the worker has made. */
  function WorkerSteps(events: seq<Event>, from: nat): nat
    requires from <= |events|
    decreases |events|
  {
    if |events| == from then 0
    else WorkerSteps(events[..|events| - 1], from) + if OfWorker(events[|events| - 1]) then 1 else 0
  }

  lemma StepOwed(h: History, e: Event)
    requires HistoryInv(h) && h.owed && Enabled(h.s, e) && !e.Return?
    ensures Record(h, e).owed
    ensures ToReturn(Record(h, e).s.worker) + (if OfWorker(e) then 1 else 0) <= ToReturn(h.s.worker)
  {
    if !h.s.worker.Ended? {
      Progress(h, e);
    }
  }

  /** Over every run: while a call is owed and `waitForRunning` has not returned, the steps that the
      worker has made and those that it still needs are together no more than it needed at first,
      whatever the other threads do. So it makes at most five; its next step is the return, unless
      its loop has ended. */
  lemma {:induction false} WorkerStepsAreFew(events: seq<Event>, from: nat)
    requires Valid(events) && from <= |events|
    requires Valid(events[..from]) && After(events[..from]).owed
    requires forall k :: from <= k < |events| ==> !events[k].Return?
    ensures After(events).owed
    ensures ToReturn(After(events).s.worker) + WorkerSteps(events, from) <= ToReturn(After(events[..from]).s.worker)
    ensures WorkerSteps(events, from) <= 5
    decreases |events|
  {
    if |events| == from {
      assert events[..from] == events;
    } else {
      var before := events[..|events| - 1];
      assert before[..from] == events[..from];
      WorkerStepsAreFew(before, from);
      EveryRun(before);
      StepOwed(After(before), events[|events| - 1]);
    }
  }

  /** The next step of whoever has the lock, or else of the worker. */
  function Turn(s: State): Event {
    match s.owner
    case Thread(t) =>
      if At(s, t, Asking) then Ask(t) else if At(s, t, Setting) then SetFlag(t)
      else if At(s, t, Notifying) then Notify(t) else Unlock(t)
    case _ =>
      match s.worker
      case Checking => Check
      case Entering => Enter
      case Testing => Test
      case AboutToWait => Block
      case Reentering => Reenter
      case Resetting => Reset
      case Leaving => Return
      case _ => Unblock
  }

  lemma {:induction false} SomeoneCanMove(h: History)
    requires HistoryInv(h) && h.owed && !h.s.worker.Ended?
    ensures var e := Turn(h.s);
      Enabled(h.s, e) && (h.s.owner.Thread? && !e.Unlock? ==>
        Next(h.s, e).owner == h.s.owner && ToUnlock(Next(h.s, e).callers[e.t].at) < ToUnlock(h.s.callers[e.t].at))
  {
  }

  lemma {:induction false} Extended(events: seq<Event>, e: Event)
    requires Valid(events) && Enabled(After(events).s, e)
    ensures Valid(events + [e]) && After(events + [e]) == Record(After(events), e)
  {
    assert (events + [e])[..|events|] == events;
  }

  /** How many turns it takes until `waitForRunning` returns. */
  function Need(s: State): (n: nat)
    ensures n <= 9
  {
    ToReturn(s.worker) + if s.owner.Thread? && s.owner.t in s.callers then ToUnlock(s.callers[s.owner.t].at) else 0
  }

  lemma {:induction false} TurnBringsNearer(h: History)
    requires HistoryInv(h) && h.owed && !h.s.worker.Ended?
    ensures Enabled(h.s, Turn(h.s))
    ensures Turn(h.s).Return? || (Record(h, Turn(h.s)).owed && Need(Record(h, Turn(h.s)).s) < Need(h.s))
    ensures Need(h.s) > 0
  {
    SomeoneCanMove(h);
    Progress(h, Turn(h.s));
  }

  /** From every reachable state in which a call is owed, at most nine steps of whoever holds the
      lock and of the worker lead to the return, or to the end of the worker's loop. */
  lemma {:induction false} ReturnIsNear(events: seq<Event>) returns (longer: seq<Event>)
    requires Valid(events) && After(events).owed && !After(events).s.worker.Ended?
    ensures events < longer && |longer| <= |events| + Need(After(events).s)
    ensures Valid(longer) && (longer[|longer| - 1].Return? || After(longer).s.worker.Ended?)
    decreases Need(After(events).s)
  {
    var h := After(events);
    EveryRun(events);
    TurnBringsNearer(h);
    Extended(events, Turn(h.s));
    longer := events + [Turn(h.s)];
    if !Turn(h.s).Return? && !After(longer).s.worker.Ended? {
      longer := ReturnIsNear(longer);
    }
  }

  /* ---- The class ---- */

  /** The steps of the synchronized block of `wakeup` and `stop`. */
  function NotifyingSteps(t: nat, notified: bool): seq<Event> {
    [Lock(t), Ask(t)] + (if notified then [] else [SetFlag(t), Notify(t)]) + [Unlock(t)]
  }

  /** The object. The synchronized blocks run here without interruption, and what they do is
      recorded as a run of the machine; `model` says where all the threads are. */
  class ServiceThread {
    var hasNotified: bool
    var stoped: bool
    ghost var model: State
    ghost var trace: seq<Event>

    ghost predicate Recorded()
      reads this
    {
      Valid(trace) && After(trace).s == model
    }

    /** The fields are what the run says. */
    ghost predicate InStep()
      reads this
    {
      Recorded() && model.hasNotified == hasNotified && model.stoped == stoped
    }

    constructor ()
      ensures InStep() && trace == [] && model == Start().s
    {
      hasNotified, stoped := false, false;
      model, trace := Start().s, [];
    }

    ghost method Step(e: Event)
      requires Recorded() && Enabled(model, e)
      modifies `model, `trace
      ensures Recorded() && trace == old(trace) + [e] && model == Next(old(model), e)
    {
      Extended(trace, e);
      trace, model := trace + [e], Next(model, e);
    }

    /** The synchronized block of `wakeup` and of `stop`, run by thread `t`. */
    method NotifyWorker(ghost t: nat)
      requires InStep() && At(model, t, Locking) && model.owner.Free?
      modifies this
      ensures InStep() && hasNotified && stoped == old(stoped)
      ensures model.owner.Free? && model.callers == old(model.callers) - {t}
      ensures trace == old(trace) + NotifyingSteps(t, old(hasNotified))
    {
      Acquire(t);
      if !hasNotified {
        RaiseFlag(t);
      }
      Step(Unlock(t));
    }

    ghost method Acquire(t: nat)
      requires InStep() && At(model, t, Locking) && model.owner.Free?
      modifies `model, `trace
      ensures InStep() && At(model, t, if hasNotified then Unlocking else Setting)
      ensures model.callers - {t} == old(model.callers) - {t}
      ensures trace == old(trace) + [Lock(t), Ask(t)]
    {
      Step(Lock(t));
      Step(Ask(t));
    }

    method RaiseFlag(ghost t: nat)
      requires InStep() && At(model, t, Setting)
      modifies this
      ensures InStep() && hasNotified && stoped == old(stoped) && At(model, t, Unlocking)
      ensures model.callers - {t} == old(model.callers) - {t}
      ensures trace == old(trace) + [SetFlag(t), Notify(t)]
    {
      hasNotified := true;
      Step(SetFlag(t));
      Step(Notify(t));
    }

    method Wakeup(ghost t: nat)
      requires InStep() && t !in model.callers && model.owner.Free?
      modifies this
      ensures InStep() && hasNotified && stoped == old(stoped)
      ensures model.owner.Free? && model.callers == old(model.callers)
      ensures trace == old(trace) + [Call(t, false)] + NotifyingSteps(t, old(hasNotified))
    {
      Step(Call(t, false));
      NotifyWorker(t);
    }

    method Stop(ghost t: nat)
      requires InStep() && t !in model.callers && model.owner.Free?
      modifies this
      ensures InStep() && hasNotified && stoped
      ensures model.owner.Free? && model.callers == old(model.callers)
      ensures trace == old(trace) + [Call(t, true), SetStop(t)] + NotifyingSteps(t, old(hasNotified))
    {
      Step(Call(t, true));
      stoped := true;
      Step(SetStop(t));
      NotifyWorker(t);
    }

    /** `waitForRunning` until it returns or gives up the lock in `wait`. */
    method BeginWait() returns (done: bool)
      requires InStep() && model.worker.Entering? && model.owner.Free?
      modifies this
      ensures InStep() && !hasNotified && stoped == old(stoped) && done == old(hasNotified)
      ensures model.owner.Free? && model.callers == old(model.callers)
      ensures trace == old(trace) + if done then [Enter, Test, Reset, Return] else [Enter, Test, Block]
    {
      Step(Enter);
      Step(Test);
      done := hasNotified;
      if hasNotified {
        hasNotified := false;
        Step(Reset);
        Step(Return);
      } else {
        Step(Block);
      }
    }

    /** The rest of `waitForRunning`, once the worker has the lock again. */
    method EndWait()
      requires InStep() && model.worker.Reentering? && model.owner.Free?
      modifies this
      ensures model.owner.Free? && model.callers == old(model.callers)
      ensures InStep() && !hasNotified && stoped == old(stoped) && trace == old(trace) + [Reenter, Reset, Return]
    {
      Step(Reenter);
      hasNotified := false;
      Step(Reset);
      Step(Return);
    }
  }
}
