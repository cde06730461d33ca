/** What the options of a callback list mean over whole runs: which arguments are remembered, which
    calls are accepted, and what becomes of a list that is locked or disabled. */
module CallbackMemory {
  import opened Callbacks
  import opened CallbackLaws
  import opened Wrappers

  /* ---- The memory ---- */

  /** When `fire` is over, the memory is what the last accepted call was made with, if the list remembers
      and is still there. */
  ghost predicate Remembers(s: State) {
    var accepted := s.history.accepted;
    s.memory == if s.list.Some? && s.options.memory && accepted != [] then Some(accepted[|accepted| - 1]) else None
  }

  /** At the end of the last pass, every accepted call has had its own. */
  lemma LastCall(s: State)
    requires Inv(s) && s.firing && s.queue == [] && s.list.Some?
    ensures var accepted := s.history.accepted; accepted != [] && s.memory == Some(accepted[|accepted| - 1])
  {
    var passes := Passes(s.history);
    assert AllArgs(passes) + [] + [] == AllArgs(passes);
    AllArgsAt(passes, |passes| - 1);
  }

  lemma {:induction false} ProceedRemembers(s: State)
    requires Inv(s) && s.firing
    ensures var t := Proceed(s); t.options == s.options && t.locked == s.locked && (!t.firing ==> Remembers(t))
    decreases |s.queue|
  {
    if !(s.firingIndex + 1 < |Listed(s)|) {
      if s.queue == [] {
        if s.list.Some? {
          LastCall(s);
        }
      } else {
        EndPassKeeps(s);
        StartPassKeeps(EndPass(s));
        ProceedRemembers(StartPass(EndPass(s)));
      }
    }
  }

  lemma FireRemembers(s: State)
    requires Ordered(Listed(s), s.history.next) && Queued(s) && AllComplete(s.history.finished)
    requires s.queue != [] && s.history.current.None? && s.list.Some? && -1 <= s.firingIndex < |Listed(s)|
    ensures var t := Fire(s);
      t.options == s.options && t.locked == s.options.once && (!t.firing ==> Remembers(t))
  {
    StartPassKeeps(Lit(s));
    ProceedRemembers(StartPass(Lit(s)));
  }

  lemma {:induction false} PushChanges(s: State, callbacks: seq<Callback>)
    requires s.list.Some?
    ensures var t := PushAll(s, callbacks);
      && t.options == s.options && t.locked == s.locked && t.firing == s.firing && t.memory == s.memory
      && t.history.accepted == s.history.accepted
    decreases |callbacks|
  {
    if callbacks != [] {
      PushChanges(s, callbacks[..|callbacks| - 1]);
    }
  }

  /** `add` makes a pass just when there is a memory and no pass is running. */
  predicate Replays(s: State) {
    s.memory.Some? && !s.firing
  }

  lemma AddRemembers(s: State, callbacks: seq<Callback>)
    requires Inv(s) && (!s.firing ==> Remembers(s))
    ensures var t := AddAll(s, callbacks);
      t.options == s.options && t.locked == (if Replays(s) then s.options.once else s.locked) &&
      (!t.firing ==> Remembers(t))
  {
    if s.list.Some? {
      if Replays(s) {
        var t := Accept(FromEnd(s), s.memory.value);
        AcceptKeeps(FromEnd(s), s.memory.value);
        PushAllKeeps(t, callbacks);
        PushChanges(t, callbacks);
        FireRemembers(PushAll(t, callbacks));
      } else {
        PushChanges(s, callbacks);
      }
    }
  }

  lemma FireNowRemembers(s: State, args: Args)
    requires Inv(s) && (!s.firing ==> Remembers(s))
    ensures var t := FireNow(s, args);
      t.options == s.options && (!t.firing ==> Remembers(t)) &&
      t.locked == (s.locked || (!s.firing && s.options.once))
  {
    if !s.locked {
      AcceptKeeps(s, args);
      if !s.firing {
        FireRemembers(Accept(s, args));
      }
    }
  }

  lemma StepRemembers(s: State, e: Event)
    requires Inv(s) && (!s.firing ==> Remembers(s))
    ensures var t := Step(s, e); t.options == s.options && (!t.firing ==> Remembers(t))
  {
    match e
    case Add(callbacks) => AddRemembers(s, callbacks);
    case FireWith(args) => FireNowRemembers(s, args);
    case Return =>
      if s.firing {
        ProceedRemembers(s);
      }
    case _ =>
  }

  /** Over every run, once no callback is running: a list that is still there remembers the arguments of
      the last accepted call if it has the option, and otherwise nothing is remembered. */
  lemma {:induction false} MemoryIsLastCall(options: Options, events: seq<Event>)
    ensures var s := Run(options, events); s.options == options && (!s.firing ==> Remembers(s))
    decreases |events|
  {
    if events != [] {
      var before := events[..|events| - 1];
      MemoryIsLastCall(options, before);
      StepRemembers(Run(options, before), events[|events| - 1]);
    }
  }

  /** So `add` to a list at rest begins one pass with the arguments of the last accepted call, when there
      has been one and the list remembers; otherwise it begins none. */
  lemma AddReplaysLastCall(options: Options, events: seq<Event>, callbacks: seq<Callback>)
    requires !Run(options, events).firing
    ensures var s, h := Run(options, events), Run(options, events).history;
      var passes := Passes(AddAll(s, callbacks).history);
      if s.list.Some? && options.memory && h.accepted != [] then
        |passes| == |Passes(h)| + 1 && passes[|Passes(h)|].args == h.accepted[|h.accepted| - 1]
      else passes == Passes(h)
  {
    var s := Run(options, events);
    MemoryIsLastCall(options, events);
    if Replays(s) {
      ReplayArgs(s, callbacks);
    } else if s.list.Some? {
      PushNoPass(s, callbacks);
    }
  }

  lemma {:induction false} PushNoPass(s: State, callbacks: seq<Callback>)
    requires s.list.Some? && s.history.current.None?
    ensures Passes(PushAll(s, callbacks).history) == Passes(s.history) && PushAll(s, callbacks).history.current.None?
    decreases |callbacks|
  {
    if callbacks != [] {
      PushNoPass(s, callbacks[..|callbacks| - 1]);
    }
  }

  lemma ReplayArgs(s: State, callbacks: seq<Callback>)
    requires Inv(s) && s.list.Some? && Replays(s)
    ensures var passes := Passes(AddAll(s, callbacks).history);
      |passes| == |Passes(s.history)| + 1 && passes[|Passes(s.history)|].args == s.memory.value
  {
    var p := Ready(s, s.memory.value, callbacks);
    ReplayMeetsTheAdded(s, callbacks);
    AddProceeds(s, s.memory.value, callbacks);
    ReadyIs(s, s.memory.value, callbacks);
    ReplayBegins(p);
    ProceedBecomes(StartPass(p), |Passes(s.history)|);
  }

  /* ---- When a list is gone ---- */

  /** `once` locks the list at its first call; without memory the list is gone when that is over. */
  ghost predicate Stays(s: State) {
    && (s.locked <==> s.options.once && s.history.accepted != [])
    && (s.list.None? <==> s.options.once && !s.options.memory && s.history.accepted != [] && !s.firing)
  }

  /** So it is with a list that was never disabled or locked. */
  lemma {:induction false} ListStays(options: Options, events: seq<Event>)
    requires forall i :: 0 <= i < |events| ==> !events[i].Disable? && !events[i].Lock?
    ensures Stays(Run(options, events))
    decreases |events|
  {
    if events != [] {
      var before := events[..|events| - 1];
      ListStays(options, before);
      MemoryIsLastCall(options, before);
      ListStep(Run(options, before), events[|events| - 1]);
    }
  }

  lemma ListStep(s: State, e: Event)
    requires Inv(s) && Stays(s) && (!s.firing ==> Remembers(s)) && !e.Disable? && !e.Lock?
    ensures Stays(Step(s, e))
  {
    match e
    case Add(callbacks) =>
      if s.list.Some? {
        if Replays(s) {
          var t := Accept(FromEnd(s), s.memory.value);
          AcceptKeeps(FromEnd(s), s.memory.value);
          PushAllKeeps(t, callbacks);
          PushChanges(t, callbacks);
          FireStays(PushAll(t, callbacks));
        } else {
          PushChanges(s, callbacks);
        }
      }
    case FireWith(args) =>
      if !s.locked {
        AcceptKeeps(s, args);
        if !s.firing {
          FireStays(Accept(s, args));
        }
      }
    case Return =>
      if s.firing {
        ProceedStays(s);
      }
    case _ =>
  }

  lemma FireStays(s: State)
    requires Ordered(Listed(s), s.history.next) && Queued(s) && AllComplete(s.history.finished)
    requires s.queue != [] && s.history.current.None? && s.list.Some? && -1 <= s.firingIndex < |Listed(s)|
    ensures Stays(Fire(s))
  {
    var t := StartPass(Lit(s));
    StartPassKeeps(Lit(s));
    assert Queued(s) ==> s.history.accepted != [];
    ProceedStays(t);
  }

  lemma {:induction false} ProceedStays(s: State)
    requires Inv(s) && s.firing && s.list.Some? && s.history.accepted != [] && s.locked == s.options.once
    ensures Stays(Proceed(s))
    decreases |s.queue|
  {
    if !(s.firingIndex + 1 < |Listed(s)|) && s.queue != [] {
      EndPassKeeps(s);
      StartPassKeeps(EndPass(s));
      ProceedStays(StartPass(EndPass(s)));
    }
  }

  /* ---- Which calls are accepted ---- */

  /** A `once` list accepts no second call of `fireWith`, whatever is done in between. */
  lemma {:induction false} OnceAcceptsOne(options: Options, events: seq<Event>, args: Args)
    requires options.once && Run(options, events).history.accepted != []
    ensures Step(Run(options, events), FireWith(args)) == Run(options, events)
    decreases |events|
  {
    OnceLocks(options, events);
  }

  lemma {:induction false} OnceLocks(options: Options, events: seq<Event>)
    requires options.once
    ensures var s := Run(options, events); s.history.accepted != [] ==> s.locked
    decreases |events|
  {
    if events != [] {
      var before, e := events[..|events| - 1], events[|events| - 1];
      OnceLocks(options, before);
      MemoryIsLastCall(options, before);
      OnceStep(Run(options, before), e);
    }
  }

  lemma OnceStep(s: State, e: Event)
    requires Inv(s) && (!s.firing ==> Remembers(s)) && s.options.once && (s.history.accepted != [] ==> s.locked)
    ensures var t := Step(s, e); t.history.accepted != [] ==> t.locked
  {
    match e
    case Add(callbacks) =>
      AddRemembers(s, callbacks);
      if s.list.Some? && !Replays(s) {
        PushChanges(s, callbacks);
      }
    case FireWith(args) =>
      FireNowRemembers(s, args);
      if s.firing {
        RunningWasAccepted(s);
      }
    case Return =>
      if s.firing {
        ProceedRemembers(s);
        ProceedAccepts(s);
      }
    case _ =>
  }

  lemma RunningWasAccepted(s: State)
    requires Inv(s) && s.firing
    ensures s.history.accepted != []
  {
    assert |AllArgs(Passes(s.history))| > 0;
  }

  /** `fired()` tells whether any call has been accepted. */
  lemma {:induction false} FiredIsAccepted(options: Options, events: seq<Event>)
    ensures var s := Run(options, events); s.fired <==> s.history.accepted != []
    decreases |events|
  {
    if events != [] {
      FiredIsAccepted(options, events[..|events| - 1]);
      FiredStep(Run(options, events[..|events| - 1]), events[|events| - 1]);
    }
  }

  lemma FiredStep(s: State, e: Event)
    requires Inv(s) && (s.fired <==> s.history.accepted != [])
    ensures var t := Step(s, e); t.fired <==> t.history.accepted != []
  {
    match e
    case Add(callbacks) =>
      if s.list.Some? {
        FiredPush(if Replays(s) then Accept(FromEnd(s), s.memory.value) else s, callbacks);
        if Replays(s) {
          FiredFire(PushAll(Accept(FromEnd(s), s.memory.value), callbacks));
        }
      }
    case FireWith(args) =>
      if s.firing {
        RunningWasAccepted(s);
      } else if !s.locked {
        FiredFire(Accept(s, args));
      }
    case Return =>
      if s.firing {
        RunningWasAccepted(s);
        FiredProceed(s);
      }
    case _ =>
  }

  lemma {:induction false} FiredPush(s: State, callbacks: seq<Callback>)
    requires s.list.Some?
    ensures var t := PushAll(s, callbacks); t.fired == s.fired && t.history.accepted == s.history.accepted
    decreases |callbacks|
  {
    if callbacks != [] {
      FiredPush(s, callbacks[..|callbacks| - 1]);
    }
  }

  lemma FiredFire(s: State)
    requires s.queue != [] && s.history.accepted != []
    ensures Fire(s).fired && Fire(s).history.accepted != []
  {
    FiredProceed(StartPass(Lit(s)));
  }

  lemma {:induction false} FiredProceed(s: State)
    ensures Proceed(s).fired == s.fired && Proceed(s).history.accepted == s.history.accepted
    decreases |s.queue|
  {
    if !(0 <= s.firingIndex + 1 < |Listed(s)|) && s.queue != [] {
      FiredProceed(StartPass(EndPass(s)));
    }
  }

  /** A locked list accepts nothing, and it is unlocked in one way only: `fire` sets the lock anew, so
      `add` that replays the memory of a list without `once` unlocks it. */
  lemma LockedRefuses(s: State, e: Event)
    requires Inv(s) && (!s.firing ==> Remembers(s)) && s.locked
    ensures e.FireWith? ==> Step(s, e) == s
    ensures !Step(s, e).locked <==> e.Add? && Replays(s) && !s.options.once
  {
    match e
    case Add(callbacks) => AddRemembers(s, callbacks);
    case Return =>
      if s.firing {
        ProceedRemembers(s);
      }
    case _ =>
  }

  /** So after `lock` or `disable` a list stays locked as long as nothing of this kind is done. */
  lemma {:induction false} LockHolds(options: Options, events: seq<Event>, i: nat)
    requires i <= |events| && Run(options, events[..i]).locked
    requires forall k :: i <= k < |events| && events[k].Add? ==> options.once || !Replays(Run(options, events[..k]))
    ensures Run(options, events).locked
    decreases |events|
  {
    if i < |events| {
      var before := events[..|events| - 1];
      assert before[..i] == events[..i];
      forall k | i <= k < |before| && before[k].Add? ensures options.once || !Replays(Run(options, before[..k])) {
        assert before[..k] == events[..k];
      }
      LockHolds(options, before, i);
      MemoryIsLastCall(options, before);
      LockedRefuses(Run(options, before), events[|events| - 1]);
    } else {
      assert events[..i] == events;
    }
  }

  lemma LockLocks(s: State, e: Event)
    requires Inv(s) && (e.Lock? || e.Disable?)
    ensures Step(s, e).locked
  {
  }

  /** A call on an empty list, with nothing to run. */
  lemma EmptyPass(s: State, args: Args)
    requires s.queue == [args] && s.list == Some([]) && s.firingIndex == -1 && s.history.current.None?
    ensures var t, options := Fire(s), s.options;
      && t.options == options && t.queue == [] && t.firingIndex == -1 && !t.firing && t.history.current.None?
      && t.history.accepted == s.history.accepted && t.locked == options.once
      && t.memory == (if options.memory then Some(args) else None)
      && t.list == (if options.once && !options.memory then None else Some([]))
  {
    var t := EndPass(StartPass(Lit(s)));
    assert t.queue == [] && t.list == s.list;
    assert Fire(s) == Finish(t);
  }

  /** `lock` is undone by adding, even if nothing is added: a list with a memory that has been fired and
      locked accepts a call again. */
  lemma LockIsUndone(args: Args, more: Args)
    ensures var s := Step(Step(Initial(Options(false, true, false)), FireWith(args)), Lock);
      s.locked && Step(s, FireWith(more)) == s && !Step(s, Add([])).locked &&
      Step(Step(s, Add([])), FireWith(more)).history.accepted == [args, args, more]
  {
    var start := Initial(Options(false, true, false));
    EmptyPass(Accept(start, args), args);
    var fired := Step(start, FireWith(args));
    assert fired == Fire(Accept(start, args)) && fired.history.accepted == [args];
    var s := Step(fired, Lock);
    EmptyPass(Accept(FromEnd(s), args), args);
    var t := Step(s, Add([]));
    assert PushAll(Accept(FromEnd(s), args), []) == Accept(FromEnd(s), args);
    assert t == Fire(Accept(FromEnd(s), args)) && t.history.accepted == [args, args];
    EmptyPass(Accept(t, more), more);
    assert Step(t, FireWith(more)) == Fire(Accept(t, more));
  }

  /** Nothing more has run. */
  ghost predicate SameRuns(s: State, t: State) {
    && |Passes(t.history)| == |Passes(s.history)| && t.history.accepted == s.history.accepted
    && forall i :: 0 <= i < |Passes(s.history)| ==> Passes(t.history)[i].ran == Passes(s.history)[i].ran
  }

  lemma GoneProceeds(s: State)
    requires Inv(s) && s.list.None? && s.firing
    ensures Proceed(s).list.None? && SameRuns(s, Proceed(s))
  {
    assert Proceed(s) == Finish(EndPass(s));
    EndKeepsPasses(s);
  }

  lemma GoneDisabled(s: State)
    requires Inv(s) && s.list.None?
    ensures DisableNow(s).list.None? && SameRuns(s, DisableNow(s))
  {
    assert Rest(s) == [];
  }

  /** Nothing runs on a list that is gone, and it does not come back. */
  lemma GoneForGood(s: State, e: Event)
    requires Inv(s) && s.list.None?
    ensures Step(s, e).list.None? && SameRuns(s, Step(s, e))
  {
    match e
    case Return =>
      if s.firing {
        GoneProceeds(s);
      }
    case Disable => GoneDisabled(s);
    case Lock => GoneDisabled(s);
    case _ =>
  }
}
