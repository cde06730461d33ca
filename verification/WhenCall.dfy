/** The call of `jQuery.when` on deferred objects: the registration loop, the check after it, and the
    handlers that run when a subordinate has settled. */
module WhenCall {
  import opened Callbacks
  import opened DeferredAccount
  import opened DeferredObject
  import opened Deferreds
  import opened When
  import opened WhenSteps

  /** The object is where these calls lead. */
  ghost predicate Follows(d: DeferredObject, calls: seq<Call>)
    reads d, d.doneList, d.failList
  {
    d.Valid() && d.Model() == Deferreds.Run(calls)
  }

  /** No two deferreds share a list. */
  ghost predicate Apart(c: DeferredObject, d: DeferredObject) {
    c != d && {c.doneList, c.failList} !! {d.doneList, d.failList}
  }

  ghost function ObjectsOf(subs: seq<DeferredObject>): set<object> {
    (set k | 0 <= k < |subs| :: subs[k] as object) + (set k | 0 <= k < |subs| :: subs[k].doneList) +
    (set k | 0 <= k < |subs| :: subs[k].failList)
  }

  /** No callback runs in this list. */
  ghost predicate Idle(d: DeferredObject, side: Side)
    reads d, d.doneList, d.failList
  {
    d.Valid() && Running(d.Model().List(side)).None?
  }

  ghost predicate IsQuiet(d: DeferredObject)
    reads d.doneList, d.failList
  {
    !d.doneList.firing && !d.failList.firing
  }

  /** A call on a deferred. */
  method Do(d: DeferredObject, call: Call, ghost calls: seq<Call>)
    requires Follows(d, calls)
    modifies d, d.doneList, d.failList
    ensures Follows(d, calls + [call])
  {
    FollowsOn(calls, call);
    match call {
      case Settle(side, args) => d.Settle(side, args);
      case Listen(side, callbacks) => d.Listen(side, callbacks);
      case Returned => d.Returned();
    }
  }

  class WhenCall {
    const args: seq<Argument>
    const subs: seq<DeferredObject>
    const deferred: DeferredObject
    var remaining: int
    var resolveValues: seq<Value>
    ghost var model: WhenState

    ghost predicate Separate() {
      && (forall k :: 0 <= k < |subs| ==> Apart(subs[k], deferred))
      && (forall j, k :: 0 <= j < |subs| && 0 <= k < |subs| && j != k ==> Apart(subs[j], subs[k]))
    }

    ghost predicate Counts()
      reads this
    {
      remaining == model.remaining && resolveValues == model.values && |model.subs| == |subs| && When.Inv(args, model)
    }

    ghost predicate MasterFollows()
      reads this, deferred, deferred.doneList, deferred.failList
    {
      Follows(deferred, model.master)
    }

    ghost predicate SubFollows(k: nat)
      requires k < |subs|
      reads this, subs[k], subs[k].doneList, subs[k].failList
    {
      k < |model.subs| && Follows(subs[k], model.subs[k])
    }

    ghost function Objects(): set<object> {
      ObjectsOf(subs)
    }

    ghost predicate Valid()
      reads this, deferred, deferred.doneList, deferred.failList, Objects()
    {
      && Separate() && Counts() && MasterFollows()
      && forall k :: 0 <= k < |subs| ==> SubFollows(k)
    }

    /** All but subordinate `k` are where the model says. */
    ghost predicate ValidBut(k: nat)
      requires k < |subs|
      reads this, deferred, deferred.doneList, deferred.failList, Objects()
    {
      && Separate() && Counts() && MasterFollows()
      && forall j :: 0 <= j < |subs| && j != k ==> SubFollows(j)
    }

    ghost method Advance(e: When.Event)
      requires When.Inv(args, model)
      modifies `model
      ensures When.Inv(args, model) && model == When.Step(args, old(model), e)
    {
      When.StepKeeps(args, model, e);
      model := When.Step(args, model, e);
    }

    /** `before` is what has been done with the deferreds so far; nothing of it concerns this call. */
    constructor (args: seq<Argument>, subs: seq<DeferredObject>, ghost before: seq<When.Event>)
      requires |args| != 1 && Fit(args, |subs|)
      requires forall j, k :: 0 <= j < |subs| && 0 <= k < |subs| && j != k ==> Apart(subs[j], subs[k])
      requires var s := When.Run(args, |subs|, before);
        s.visited == 0 && !s.ended && s.master == [] && |s.subs| == |subs| &&
        forall k :: 0 <= k < |subs| ==> Follows(subs[k], s.subs[k])
      ensures Valid() && this.args == args && this.subs == subs && model == When.Run(args, |subs|, before)
      ensures NoneEntered(model) && fresh(deferred) && fresh(deferred.doneList) && fresh(deferred.failList)
    {
      this.args, this.subs := args, subs;
      deferred := new DeferredObject();
      model := When.Run(args, |subs|, before);
      remaining := |args|;
      resolveValues := seq(|args|, i requires 0 <= i < |args| => if args[i].Plain? then args[i].value else Undefined);
      new;
      RunKeeps(args, |subs|, before);
      NothingYet(args, |subs|, before);
      NoCalls();
    }

    /** Is a handler of this call running in this list of subordinate `k`? */
    method HandlerWaits(k: nat, side: Side) returns (waits: bool)
      requires k < |subs| && subs[k].Valid()
      ensures waits <==> var c := Running(subs[k].Model().List(side)); c.Some? && IsHandler(args, c.value)
    {
      var running := subs[k].RunningCallback(side);
      waits := running.Some? && 3 <= running.value < 3 + |args|;
    }

    /** Is a handler of this call running on subordinate `k`? */
    method AnyHandlerWaits(k: nat) returns (waits: bool)
      requires Valid() && k < |subs|
      ensures k < |model.accounts| && (waits <==> HandlerRuns(args, model.accounts[k]))
    {
      assert SubFollows(k);
      RunningShows(args, model, k, DoneSide, subs[k].Model());
      RunningShows(args, model, k, FailSide, subs[k].Model());
      waits := HandlerWaits(k, DoneSide);
      if !waits {
        waits := HandlerWaits(k, FailSide);
      }
    }

    /** Is any callback running there? */
    method IsRunning(k: nat) returns (running: bool)
      requires Valid() && k < |subs|
      ensures k < |model.accounts| && (running <==> model.accounts[k].turn)
    {
      assert SubFollows(k);
      AccountIsTrue(model.subs[k]);
      running := subs[k].doneList.firing || subs[k].failList.firing;
    }

    /** The loop over the arguments and the check after it. A subordinate that is settled already runs
        its handler at once. */
    method Start() returns (ghost events: seq<When.Event>)
      requires Valid() && model.visited == 0 && !model.ended && NoneEntered(model)
      modifies this, deferred, deferred.doneList, deferred.failList, Objects()
      ensures Valid() && model.ended && model == RunFrom(args, old(model), events) && LeavesAlone(old(model), model)
    {
      var i := 0;
      events := [];
      while i < |args|
        invariant 0 <= i <= |args| && Valid() && model.visited == i && !model.ended && NoneEntered(model)
        invariant model == RunFrom(args, old(model), events) && LeavesAlone(old(model), model)
      {
        ghost var more := Register(i);
        RunOn(args, old(model), events, more);
        events := events + more;
        i := i + 1;
      }
      Finish();
      NextRun(args, old(model), events, End);
      events := events + [End];
    }

    method Register(i: nat) returns (ghost events: seq<When.Event>)
      requires Valid() && i == model.visited < |args| && !model.ended && NoneEntered(model)
      modifies this, deferred, deferred.doneList, deferred.failList, Objects()
      ensures Valid() && model.visited == i + 1 && !model.ended && model == RunFrom(args, old(model), events) &&
        NoneEntered(model)
      ensures LeavesAlone(old(model), model)
    {
      if args[i].Plain? {
        PlainMeans(args, model);
        SkipValue(i);
        events := [Visit];
        OneEvent(args, old(model), Visit);
      } else {
        events := RegisterSubordinate(i, args[i].k);
      }
    }

    ghost predicate Registers(i: nat, k: nat)
      reads this
    {
      i == model.visited < |args| && args[i] == Subordinate(k) && !model.ended && k < |subs|
    }

    /** Adds both handlers; the done handler has its turn, if it is due, before the fail handler is added. */
    method RegisterSubordinate(i: nat, k: nat) returns (ghost events: seq<When.Event>)
      requires Valid() && Registers(i, k) && NoneEntered(model)
      modifies `model, `remaining, `resolveValues, deferred, deferred.doneList, deferred.failList,
        subs[k], subs[k].doneList, subs[k].failList
      ensures Valid() && model.visited == i + 1 && !model.ended && NoneEntered(model)
      ensures model == RunFrom(args, old(model), events) && LeavesAlone(old(model), model)
    {
      ghost var s, resolved := model, subs[k].state == Resolved;
      StateIsFirst(k);
      events := AddDone(i, k);
      ghost var t := model;
      ghost var more := AddFail(i, k, resolved);
      Registration(args, s, t, model, k, resolved);
      RunOn(args, s, events, more);
      events := events + more;
    }

    /** A handler has been added to the done list of subordinate `k`, which is not resolved. */
    ghost predicate HalfWay(i: nat, k: nat)
      requires k < |subs|
      reads this, deferred, deferred.doneList, deferred.failList, Objects()
    {
      ValidBut(k) && subs[k].state != Resolved && Idle(subs[k], DoneSide) &&
      Follows(subs[k], model.subs[k] + [Call.Listen(DoneSide, [Handler(i)])])
    }

    method AddDone(i: nat, k: nat) returns (ghost events: seq<When.Event>)
      requires Valid() && Registers(i, k) && NoneEntered(model)
      modifies `model, `remaining, `resolveValues, deferred, deferred.doneList, deferred.failList,
        subs[k], subs[k].doneList, subs[k].failList
      ensures model == RunFrom(args, old(model), events)
      ensures old(subs[k].state) != Resolved ==> HalfWay(i, k) && model == old(model)
      ensures old(subs[k].state) == Resolved ==> Valid() && subs[k].state == Resolved && NoneEntered(model)
      ensures old(subs[k].state) == Resolved ==>
        model == AfterTurn(args, When.Step(args, old(model), Visit), k, DoneSide)
    {
      ghost var s, resolved := model, subs[k].state == Resolved;
      assert When.Inv(args, s);
      StateIsFirst(k);
      AddDoneHandler(i, k);
      ghost var t := model;
      assert resolved ==> When.Inv(args, t);
      events := RunIfDue(i, k, DoneSide, resolved);
      if resolved {
        RunOnAfter(args, s, Visit, events);
        events := [Visit] + events;
        StillResolved(k, s, t);
      }
    }

    method AddDoneHandler(i: nat, k: nat)
      requires Valid() && Registers(i, k) && NoneEntered(model)
      modifies `model, subs[k], subs[k].doneList, subs[k].failList
      ensures if old(subs[k].state) == Resolved
        then Valid() && model == When.Step(args, old(model), Visit) && subs[k].state == Resolved && NoneEntered(model)
        else HalfWay(i, k) && model == old(model)
    {
      assert SubFollows(k);
      ghost var calls, resolved := model.subs[k], subs[k].state == Resolved;
      ghost var listened := calls + [Call.Listen(DoneSide, [Handler(i)])];
      AddTo(k, DoneSide, Handler(i), calls);
      ListenKeepsState(calls, DoneSide, [Handler(i)]);
      if resolved {
        FailIsDeaf(listened, [Handler(i)]);
        VisitMeans(args, model, i, k);
        RecordVisit(i, k);
      } else {
        DoneRuns(listened);
      }
    }

    method AddFail(i: nat, k: nat, ghost resolved: bool) returns (ghost events: seq<When.Event>)
      requires k < |subs| && NoneEntered(model)
      requires if resolved then Valid() && subs[k].state == Resolved else HalfWay(i, k) && Registers(i, k)
      modifies `model, `remaining, `resolveValues, deferred, deferred.doneList, deferred.failList,
        subs[k], subs[k].doneList, subs[k].failList
      ensures Valid() && NoneEntered(model) && model == RunFrom(args, old(model), events)
      ensures model == AfterTurn(args, if resolved then old(model) else When.Step(args, old(model), Visit), k, FailSide)
    {
      ghost var s := model;
      AddFailHandler(i, k, resolved);
      if !resolved {
        VisitMeans(args, s, i, k);
      }
      events := RunIfDue(i, k, FailSide, true);
      if !resolved {
        RunOnAfter(args, s, Visit, events);
        events := [Visit] + events;
      }
    }

    method AddFailHandler(i: nat, k: nat, ghost resolved: bool)
      requires k < |subs|
      requires if resolved then Valid() && subs[k].state == Resolved else HalfWay(i, k) && Registers(i, k)
      modifies `model, subs[k], subs[k].doneList, subs[k].failList
      ensures Valid() && model == if resolved then old(model) else When.Step(args, old(model), Visit)
    {
      ghost var calls := model.subs[k];
      if resolved {
        assert SubFollows(k);
        FailIsDeaf(calls, [Handler(i)]);
      } else {
        calls := calls + [Call.Listen(DoneSide, [Handler(i)])];
      }
      AddTo(k, FailSide, Handler(i), calls);
      if resolved {
        assert SubFollows(k);
      } else {
        RecordVisit(i, k);
      }
    }

    method AddTo(k: nat, side: Side, c: UserCallback, ghost calls: seq<Call>)
      requires k < |subs| && ValidBut(k) && Follows(subs[k], calls)
      modifies subs[k], subs[k].doneList, subs[k].failList
      ensures ValidBut(k) && Follows(subs[k], calls + [Call.Listen(side, [c])])
    {
      Do(subs[k], Call.Listen(side, [c]), calls);
      OthersFollow(k);
    }

    method IsDue(i: nat, k: nat, side: Side, ghost live: bool) returns (due: bool)
      requires k < |subs|
      requires live ==> Valid()
      requires !live ==> HalfWay(i, k) && side == DoneSide
      ensures due ==> live
      ensures live ==> k < |model.accounts|
      ensures live ==> (due <==> HandlerRuns(args, model.accounts[k]) && model.accounts[k].first.side == side)
    {
      if live {
        assert SubFollows(k);
        RunningShows(args, model, k, side, subs[k].Model());
      }
      due := HandlerWaits(k, side);
    }

    /** A handler that has its turn does its work and comes back. None has it while subordinate `k` has
        got but one of the handlers of argument `i`. */
    method RunIfDue(i: nat, k: nat, side: Side, ghost live: bool) returns (ghost events: seq<When.Event>)
      requires k < |subs|
      requires live ==> Valid() && NoneEntered(model)
      requires !live ==> HalfWay(i, k) && side == DoneSide
      modifies `model, `remaining, `resolveValues, deferred, deferred.doneList, deferred.failList,
        subs[k], subs[k].doneList, subs[k].failList
      ensures model == RunFrom(args, old(model), events)
      ensures live ==> Valid() && NoneEntered(model) && model == AfterTurn(args, old(model), k, side)
      ensures !live ==> HalfWay(i, k) && model == old(model)
    {
      events := [];
      var due := IsDue(i, k, side, live);
      if due {
        events := RunTurn(k, side);
      }
    }

    method RunTurn(k: nat, side: Side) returns (ghost events: seq<When.Event>)
      requires k < |subs| && Valid() && NoneEntered(model) && k < |model.accounts|
      requires HandlerRuns(args, model.accounts[k]) && model.accounts[k].first.side == side
      modifies `model, `remaining, `resolveValues, deferred, deferred.doneList, deferred.failList,
        subs[k], subs[k].doneList, subs[k].failList
      ensures model == RunFrom(args, old(model), events)
      ensures Valid() && NoneEntered(model) && model == AfterTurn(args, old(model), k, side)
    {
      TwoEvents(args, model, Work(k), On(k, Call.Returned));
      RunAtOnce(k);
      events := [Work(k), On(k, Call.Returned)];
    }

    method SkipValue(i: nat)
      requires Valid() && i == model.visited < |args| && args[i].Plain?
      modifies `remaining, `model
      ensures Valid() && model == When.Step(args, old(model), Visit)
      ensures model.visited == i + 1 && model.ended == old(model.ended) && model.entered == old(model.entered)
    {
      PlainMeans(args, model);
      remaining := remaining - 1;
      Advance(Visit);
      SubsFollow();
    }

    method RunAtOnce(k: nat)
      requires Valid() && k < |subs| && Enabled(args, model, Work(k))
      modifies `model, `remaining, `resolveValues, deferred, deferred.doneList, deferred.failList, subs[k],
        subs[k].doneList, subs[k].failList
      ensures Valid() && model == When.Step(args, When.Step(args, old(model), Work(k)), On(k, Call.Returned))
      ensures model.visited == old(model.visited) && model.ended == old(model.ended) &&
        model.entered == old(model.entered)[k := false]
    {
      WorkedMayReturn(args, model, k);
      RunHandler(k);
      CallMeans(args, model, k, Call.Returned);
      CallOn(k, Call.Returned);
    }

    /** What is done with one subordinate leaves the master and the others alone. */
    twostate lemma OthersFollow(k: nat)
      requires k < |subs| && Separate() && old(ValidBut(k)) && Counts()
      requires model.master == old(model.master) && |old(model.subs)| == |subs|
      requires model.subs == old(model.subs)[k := model.subs[k]]
      requires forall j :: 0 <= j < |subs| && j != k ==> unchanged(subs[j], subs[j].doneList, subs[j].failList)
      requires unchanged(deferred, deferred.doneList, deferred.failList)
      ensures ValidBut(k)
    {
      forall j | 0 <= j < |subs| && j != k ensures SubFollows(j) {
        assert old(SubFollows(j));
      }
    }

    /** The state of a subordinate is as its first settling call has it. */
    lemma StateIsFirst(k: nat)
      requires Valid() && k < |subs|
      ensures k < |model.accounts|
      ensures subs[k].state == StateOf(model.accounts[k].first)
    {
      assert SubFollows(k);
      AccountIsTrue(model.subs[k]);
    }

    lemma StillResolved(k: nat, s: WhenState, t: WhenState)
      requires Valid() && k < |subs| && When.Inv(args, s) && When.Inv(args, t) && NoneEntered(t)
      requires s.visited < |args| && args[s.visited] == Subordinate(k) && t == When.Step(args, s, Visit)
      requires k < |s.accounts| && model == AfterTurn(args, t, k, DoneSide) && s.accounts[k].first.By? &&
        s.accounts[k].first.side == DoneSide
      ensures subs[k].state == Resolved
    {
      StateIsFirst(k);
      VisitAccounts(args, s, k);
      TurnLeaves(args, t, k, DoneSide);
    }

    /** And what is done with the master leaves the subordinates alone. */
    twostate lemma SubsFollow()
      requires Separate() && old(Valid()) && model.subs == old(model.subs)
      requires forall j :: 0 <= j < |subs| ==> unchanged(subs[j], subs[j].doneList, subs[j].failList)
      ensures forall j :: 0 <= j < |subs| ==> SubFollows(j)
    {
      forall j | 0 <= j < |subs| ensures SubFollows(j) {
        assert old(SubFollows(j));
      }
    }

    ghost method RecordVisit(i: nat, k: nat)
      requires Registers(i, k) && ValidBut(k)
      requires Follows(subs[k],
        model.subs[k] + [Call.Listen(DoneSide, [Handler(i)])] + [Call.Listen(FailSide, [Handler(i)])])
      modifies `model
      ensures Valid() && model == When.Step(args, old(model), Visit)
    {
      VisitMeans(args, model, i, k);
      ghost var s := model;
      Advance(Visit);
      forall j | 0 <= j < |subs| ensures SubFollows(j) {
        assert j != k ==> old(SubFollows(j));
      }
    }

    /** The program makes a call on subordinate `k`, or a listener there comes back. */
    method CallOn(k: nat, call: Call)
      requires Valid() && k < |subs| && Enabled(args, model, On(k, call))
      modifies `model, subs[k], subs[k].doneList, subs[k].failList
      ensures Valid() && model == When.Step(args, old(model), On(k, call))
    {
      assert SubFollows(k);
      CallMeans(args, model, k, call);
      Do(subs[k], call, model.subs[k]);
      Advance(On(k, call));
      OthersFollow(k);
    }

    /** What the objects show once the call has returned and no callback of a subordinate is running:
        the master is resolved just when all subordinates are, and rejected just when one is. */
    lemma ObjectsShow()
      requires Valid() && model.ended
      requires forall i :: 0 <= i < |args| && args[i].Subordinate? ==> IsQuiet(subs[args[i].k])
      ensures deferred.state == Resolved <==>
        forall i :: 0 <= i < |args| && args[i].Subordinate? ==> subs[args[i].k].state == Resolved
      ensures deferred.state == Rejected <==>
        exists i :: 0 <= i < |args| && args[i].Subordinate? && subs[args[i].k].state == Rejected
    {
      InvMeans(args, model);
      forall i | 0 <= i < |args| && args[i].Subordinate?
        ensures subs[args[i].k].state == Sub(args, model, i).state
        ensures !Sub(args, model, i).done.firing && !Sub(args, model, i).fail.firing
      {
        assert SubFollows(args[i].k);
      }
      assert When.Quiet(args, model);
      assert AllResolved(args, model) <==>
        forall i :: 0 <= i < |args| && args[i].Subordinate? ==> subs[args[i].k].state == Resolved;
      assert AnyRejected(args, model) <==>
        exists i :: 0 <= i < |args| && args[i].Subordinate? && subs[args[i].k].state == Rejected;
    }

    method Finish()
      requires Valid() && model.visited == |args| && !model.ended
      modifies `model, deferred, deferred.doneList, deferred.failList
      ensures Valid() && model == When.Step(args, old(model), End) && model.accounts == old(model.accounts)
    {
      EndMeans(args, model);
      if remaining == 0 {
        Do(deferred, Call.Settle(DoneSide, resolveValues), model.master);
      }
      Advance(End);
      SubsFollow();
    }

    /** The update function of argument `i`. */
    method Update(i: nat, told: Args, ghost calls: seq<Call>)
      requires i < |resolveValues| && Follows(deferred, calls)
      modifies `remaining, `resolveValues, deferred, deferred.doneList, deferred.failList
      ensures resolveValues == old(resolveValues)[i := ValueOf(told)] && remaining == old(remaining) - 1
      ensures Follows(deferred, if remaining == 0 then calls + [Call.Settle(DoneSide, resolveValues)] else calls)
    {
      resolveValues := resolveValues[i := ValueOf(told)];
      remaining := remaining - 1;
      if remaining == 0 {
        Do(deferred, Call.Settle(DoneSide, resolveValues), calls);
      }
    }

    /** The bodies of the two handlers of argument `i`. */
    method DoWork(i: nat, side: Side, told: Args, ghost calls: seq<Call>)
      requires i < |resolveValues| && Follows(deferred, calls)
      modifies `remaining, `resolveValues, deferred, deferred.doneList, deferred.failList
      ensures side == DoneSide ==>
        resolveValues == old(resolveValues)[i := ValueOf(told)] && remaining == old(remaining) - 1
      ensures side == FailSide ==> resolveValues == old(resolveValues) && remaining == old(remaining)
      ensures Follows(deferred,
        if side == FailSide then calls + [Call.Settle(FailSide, told)]
        else if remaining == 0 then calls + [Call.Settle(DoneSide, resolveValues)] else calls)
    {
      if side == DoneSide {
        Update(i, told, calls);
      } else {
        Do(deferred, Call.Settle(FailSide, told), calls);
      }
    }

    /** Which handler has its turn on subordinate `k`, on which side, and what it is called with. */
    method ReadTurn(k: nat) returns (i: nat, side: Side, told: Args)
      requires Valid() && k < |subs| && HandlerRuns(args, model.accounts[k])
      ensures i == RunningHandler(args, model.accounts[k]) && model.accounts[k].first == By(side, told)
    {
      assert SubFollows(k);
      HandlerShows(args, model, k, RunningHandler(args, model.accounts[k]), subs[k].Model());
      side := if subs[k].state == Resolved then DoneSide else FailSide;
      var running := subs[k].RunningCallback(side);
      i, told := running.value - 3, subs[k].List(side).memory.value;
    }

    /** The handler that has its turn on subordinate `k` does its work. */
    method RunHandler(k: nat)
      requires Valid() && k < |subs| && Enabled(args, model, Work(k))
      modifies `model, `remaining, `resolveValues, deferred, deferred.doneList, deferred.failList
      ensures Valid() && model == When.Step(args, old(model), Work(k))
    {
      var i, side, told := ReadTurn(k);
      WorkMeans(args, model, k, i);
      DoWork(i, side, told, model.master);
      Advance(Work(k));
      SubsFollow();
    }
  }
}
