/** What single events do to the run of `when`, and what a turn of the registration loop does to the
    deferreds. */
module WhenSteps {
  import opened Callbacks
  import opened DeferredAccount
  import opened Deferreds
  import opened When

  /* ---- A deferred ---- */

  /** The state that the first settling call leads to. */
  function StateOf(first: First): Settled {
    match first
    case Nobody => Pending
    case By(side, _) => Final(side)
  }

  lemma FollowsOn(calls: seq<Call>, call: Call)
    ensures Deferreds.Run(calls + [call]) == Perform(Deferreds.Run(calls), call)
  {
    assert (calls + [call])[..|calls|] == calls;
  }

  lemma NoCalls()
    ensures Deferreds.Run([]) == Fresh()
  {
  }

  lemma ThenState(calls: seq<Call>, call: Call)
    requires Deferreds.Run(calls).state != Pending
    ensures Deferreds.Run(calls + [call]).state == Deferreds.Run(calls).state
  {
    SettlesOnce(calls, [call]);
  }

  /** Nothing is heard on the fail list of a resolved deferred, so it makes no difference when a
      handler is added to it. */
  lemma FailIsDeaf(calls: seq<Call>, callbacks: seq<UserCallback>)
    requires Deferreds.Run(calls).state == Resolved
    ensures Deferreds.Run(calls + [Call.Listen(FailSide, callbacks)]) == Deferreds.Run(calls)
  {
    FollowsOn(calls, Call.Listen(FailSide, callbacks));
    Deferreds.EveryRun(calls);
  }

  /** The done list runs only in a resolved deferred. */
  lemma DoneRuns(calls: seq<Call>)
    ensures Running(Deferreds.Run(calls).done).Some? ==> Deferreds.Run(calls).state == Resolved
  {
    AccountIsTrue(calls);
  }

  /* ---- Before the call ---- */

  /** No handler stands in the middle of its work. */
  ghost predicate NoneEntered(s: WhenState) {
    forall k :: 0 <= k < |s.entered| ==> !s.entered[k]
  }

  /** Before the first turn of the loop no handler has run, and the counter and the values are as `when` sets them. */
  lemma {:induction false} NothingYet(args: seq<Argument>, n: nat, events: seq<When.Event>)
    requires Fit(args, n) && When.Run(args, n, events).visited == 0
    ensures var s := When.Run(args, n, events);
      s.values == When.Initial(args, n).values && s.remaining == |args| && NoneEntered(s)
    decreases |events|
  {
    RunKeeps(args, n, events);
    CountUnvisited(args, When.Run(args, n, events), |args|);
    if events != [] {
      var before := When.Run(args, n, events[..|events| - 1]);
      var e := events[|events| - 1];
      RunKeeps(args, n, events[..|events| - 1]);
      NothingYet(args, n, events[..|events| - 1]);
      if e.Work? && Enabled(args, before, e) {
        FirstTime(args, before, e.k);
      }
    }
  }

  /* ---- Events ---- */

  lemma PlainMeans(args: seq<Argument>, s: WhenState)
    requires When.Inv(args, s) && s.visited < |args| && args[s.visited].Plain?
    ensures When.Step(args, s, Visit) == s.(visited := s.visited + 1, remaining := s.remaining - 1)
  {
  }

  lemma CallMeans(args: seq<Argument>, s: WhenState, k: nat, call: Call)
    requires When.Inv(args, s) && Enabled(args, s, On(k, call))
    ensures When.Step(args, s, On(k, call)) == Called(s, k, call)
  {
  }

  lemma EndMeans(args: seq<Argument>, s: WhenState)
    requires When.Inv(args, s) && s.visited == |args| && !s.ended
    ensures var t := When.Step(args, s, End);
      && t.subs == s.subs && t.accounts == s.accounts && t.values == s.values && t.remaining == s.remaining
      && t.master == if s.remaining == 0 then s.master + [Call.Settle(DoneSide, s.values)] else s.master
  {
  }

  /** What the object of a subordinate shows when a handler has its turn. */
  lemma HandlerShows(args: seq<Argument>, s: WhenState, k: nat, i: nat, d: Deferred)
    requires When.Inv(args, s) && k < |s.subs| && HandlerRuns(args, s.accounts[k]) &&
      i == RunningHandler(args, s.accounts[k])
    requires d == Deferreds.Run(s.subs[k])
    ensures s.accounts[k].first.By? && d.state == Final(s.accounts[k].first.side)
    ensures TurnOf(d.List(s.accounts[k].first.side), Handler(i), s.accounts[k].first.args)
  {
    TurnIsReal(args, s, k, i);
    AccountIsTrue(s.subs[k]);
  }

  lemma WorkMeans(args: seq<Argument>, s: WhenState, k: nat, i: nat)
    requires When.Inv(args, s) && Enabled(args, s, Work(k)) && i == RunningHandler(args, s.accounts[k])
    ensures var t, first := When.Step(args, s, Work(k)), s.accounts[k].first;
      t.subs == s.subs &&
      if first.side == DoneSide then
        && t.values == s.values[i := ValueOf(first.args)] && t.remaining == s.remaining - 1
        && t.master == if t.remaining == 0 then s.master + [Call.Settle(DoneSide, t.values)] else s.master
      else
        && t.values == s.values && t.remaining == s.remaining
        && t.master == s.master + [Call.Settle(FailSide, first.args)]
  {
  }

  lemma VisitMeans(args: seq<Argument>, s: WhenState, i: nat, k: nat)
    requires When.Inv(args, s) && i == s.visited < |args| && args[i] == Subordinate(k)
    ensures var t, calls := When.Step(args, s, Visit), s.subs[k];
      && t.subs == s.subs[k := calls + [Call.Listen(DoneSide, [Handler(i)])] + [Call.Listen(FailSide, [Handler(i)])]]
      && t.master == s.master && t.values == s.values && t.remaining == s.remaining && t.entered == s.entered
      && t.visited == i + 1 && t.ended == s.ended
  {
  }

  /** Which callback the object of a subordinate shows to be running. */
  lemma RunningShows(args: seq<Argument>, s: WhenState, k: nat, side: Side, d: Deferred)
    requires When.Inv(args, s) && k < |s.subs| && d == Deferreds.Run(s.subs[k])
    ensures HandlerRuns(args, s.accounts[k]) && s.accounts[k].first.side == side <==>
      Running(d.List(side)).Some? && IsHandler(args, Running(d.List(side)).value)
  {
    AccountIsTrue(s.subs[k]);
    AccountIsSane(s.subs[k]);
  }

  lemma OneEvent(args: seq<Argument>, s: WhenState, e: When.Event)
    ensures RunFrom(args, s, [e]) == When.Step(args, s, e)
  {
    assert RunFrom(args, s, []) == s && [] + [e] == [e];
    NextRun(args, s, [], e);
  }

  lemma TwoEvents(args: seq<Argument>, s: WhenState, e: When.Event, f: When.Event)
    ensures RunFrom(args, s, [e, f]) == When.Step(args, When.Step(args, s, e), f)
  {
    OneEvent(args, s, e);
    NextRun(args, s, [e], f);
    assert [e] + [f] == [e, f];
  }

  /* ---- What registration does to the deferreds ---- */

  /** No listener of any deferred has its turn. */
  ghost predicate Calm(s: WhenState) {
    forall k :: 0 <= k < |s.accounts| ==> !s.accounts[k].turn
  }

  /** No deferred has been settled, and none has been left in the middle of its callbacks. */
  ghost predicate LeavesAlone(s: WhenState, t: WhenState) {
    SameFirsts(s, t) && (Calm(s) ==> Calm(t))
  }

  ghost predicate SameFirsts(s: WhenState, t: WhenState) {
    |t.accounts| == |s.accounts| && forall k :: 0 <= k < |s.accounts| ==> t.accounts[k].first == s.accounts[k].first
  }

  /** A handler that has its turn on this side does its work and comes back. */
  ghost function AfterTurn(args: seq<Argument>, s: WhenState, k: nat, side: Side): WhenState
    requires k < |s.accounts|
  {
    if HandlerRuns(args, s.accounts[k]) && s.accounts[k].first.side == side
    then When.Step(args, When.Step(args, s, Work(k)), On(k, Call.Returned))
    else s
  }

  lemma TurnLeaves(args: seq<Argument>, s: WhenState, k: nat, side: Side)
    requires When.Inv(args, s) && k < |s.accounts| && NoneEntered(s)
    ensures var t := AfterTurn(args, s, k, side);
      LeavesAlone(s, t) && t.visited == s.visited && t.ended == s.ended
  {
    assert SubInv(args, s, k);
  }

  lemma VisitAccounts(args: seq<Argument>, s: WhenState, k: nat)
    requires When.Inv(args, s) && s.visited < |args| && args[s.visited] == Subordinate(k)
    ensures Sane(s.accounts[k])
    ensures var t, i := When.Step(args, s, Visit), s.visited;
      && t.accounts == s.accounts[k := WithHandler(s.accounts[k], i)] && t.entered == s.entered
      && t.visited == s.visited + 1 && t.ended == s.ended && When.Inv(args, t)
  {
    assert SubInv(args, s, k);
    When.StepKeeps(args, s, Visit);
  }

  /** An account when both handlers have been added. */
  ghost function WithHandler(a: Account, i: nat): Account {
    Next(Next(a, Call.Listen(DoneSide, [Handler(i)])), Call.Listen(FailSide, [Handler(i)]))
  }

  /** With nobody's turn before, a settled deferred has the new handler's turn now, its last one. */
  lemma HandlerIsLast(a: Account, i: nat)
    requires Sane(a) && !a.turn
    ensures var b := WithHandler(a, i);
      b.first == a.first &&
      if a.first.Nobody? then !b.turn
      else b.turn && b.over + 1 == |b.Listeners(b.first.side)| && b.Listeners(b.first.side)[b.over] == Handler(i)
  {
  }

  /** Adding handlers to a deferred that is at rest leaves it at rest, once the handler that is due has
      had its turn. */
  lemma VisitLeaves(args: seq<Argument>, s: WhenState, k: nat)
    requires When.Inv(args, s) && s.visited < |args| && args[s.visited] == Subordinate(k) && NoneEntered(s)
    ensures var first := s.accounts[k].first;
      LeavesAlone(s, AfterTurn(args, When.Step(args, s, Visit), k, if first.By? then first.side else FailSide))
  {
    var t, side := When.Step(args, s, Visit), if s.accounts[k].first.By? then s.accounts[k].first.side else FailSide;
    VisitAccounts(args, s, k);
    TurnLeaves(args, t, k, side);
    if Calm(s) {
      VisitCalms(args, s, t, k, side);
    }
  }

  lemma VisitCalms(args: seq<Argument>, s: WhenState, t: WhenState, k: nat, side: Side)
    requires When.Inv(args, t) && k < |s.accounts| && Sane(s.accounts[k]) && Calm(s) && NoneEntered(t) &&
      s.visited < |args|
    requires t.accounts == s.accounts[k := WithHandler(s.accounts[k], s.visited)]
    requires s.accounts[k].first.By? ==> s.accounts[k].first.side == side
    ensures Calm(AfterTurn(args, t, k, side))
  {
    HandlerIsLast(s.accounts[k], s.visited);
    TurnCalms(args, t, k, side);
  }

  /** A whole turn of the registration loop on a subordinate. */
  lemma Registration(args: seq<Argument>, s: WhenState, t: WhenState, u: WhenState, k: nat, resolved: bool)
    requires When.Inv(args, s) && s.visited < |args| && args[s.visited] == Subordinate(k) && NoneEntered(s)
    requires resolved <==> s.accounts[k].first.By? && s.accounts[k].first.side == DoneSide
    requires resolved ==> t == AfterTurn(args, When.Step(args, s, Visit), k, DoneSide)
    requires resolved ==> When.Inv(args, t) && NoneEntered(t)
    requires !resolved ==> t == s
    requires u == AfterTurn(args, if resolved then t else When.Step(args, s, Visit), k, FailSide)
    ensures LeavesAlone(s, u) && u.visited == s.visited + 1 && u.ended == s.ended
  {
    VisitLeaves(args, s, k);
    VisitAccounts(args, s, k);
    TurnLeaves(args, When.Step(args, s, Visit), k, if resolved then DoneSide else FailSide);
    if resolved {
      TurnLeaves(args, t, k, FailSide);
    }
  }

  lemma RunOnAfter(args: seq<Argument>, s: WhenState, e: When.Event, more: seq<When.Event>)
    ensures RunFrom(args, s, [e] + more) == RunFrom(args, When.Step(args, s, e), more)
  {
    OneEvent(args, s, e);
    RunOn(args, s, [e], more);
  }

  lemma TurnCalms(args: seq<Argument>, s: WhenState, k: nat, side: Side)
    requires When.Inv(args, s) && k < |s.accounts| && NoneEntered(s)
    requires forall j :: 0 <= j < |s.accounts| && j != k ==> !s.accounts[j].turn
    requires s.accounts[k].turn ==>
      HandlerRuns(args, s.accounts[k]) && s.accounts[k].first.side == side &&
        s.accounts[k].over + 1 == |s.accounts[k].Listeners(side)|
    ensures Calm(AfterTurn(args, s, k, side))
  {
  }

  lemma ListenKeepsState(calls: seq<Call>, side: Side, callbacks: seq<UserCallback>)
    ensures Deferreds.Run(calls + [Call.Listen(side, callbacks)]).state == Deferreds.Run(calls).state
  {
    FollowsOn(calls, Call.Listen(side, callbacks));
  }

  lemma WorkedMayReturn(args: seq<Argument>, s: WhenState, k: nat)
    requires When.Inv(args, s) && Enabled(args, s, Work(k))
    ensures var t := When.Step(args, s, Work(k));
      Enabled(args, t, On(k, Call.Returned)) && t.visited == s.visited && t.ended == s.ended
    ensures When.Step(args, s, Work(k)).entered == s.entered[k := true] &&
      When.Step(args, s, Work(k)).accounts == s.accounts
  {
  }

  /* ---- Later ---- */

  /** Nobody but listeners of deferred `k` has a turn. */
  ghost predicate CalmBut(s: WhenState, k: nat) {
    k < |s.accounts| && NoneEntered(s) && forall j :: 0 <= j < |s.accounts| && j != k ==> !s.accounts[j].turn
  }

  /** How many listeners of the settled side have still to come and go. */
  ghost function ToRun(s: WhenState, k: nat): nat
    requires k < |s.accounts|
  {
    var a := s.accounts[k];
    if a.first.By? && a.over <= |a.Listeners(a.first.side)| then |a.Listeners(a.first.side)| - a.over else 0
  }

  lemma CalmIsNone(args: seq<Argument>, s: WhenState)
    requires When.Inv(args, s) && Calm(s)
    ensures NoneEntered(s)
  {
    forall k | 0 <= k < |s.entered| ensures !s.entered[k] {
      assert SubInv(args, s, k);
    }
  }

  lemma SettledNow(args: seq<Argument>, s: WhenState, k: nat, side: Side, told: Args)
    requires When.Inv(args, s) && Calm(s) && NoneEntered(s) && k < |s.accounts| && s.accounts[k].first.Nobody?
    ensures var e := On(k, Call.Settle(side, told)); var t := When.Step(args, s, e);
      && Enabled(args, s, e) && CalmBut(t, k) && t.ended == s.ended && |t.accounts| == |s.accounts|
      && t.accounts[k].first == By(side, told)
      && forall j :: 0 <= j < |s.accounts| && j != k ==> t.accounts[j].first == s.accounts[j].first
  {
  }

  lemma TurnPasses(args: seq<Argument>, s: WhenState, k: nat)
    requires When.Inv(args, s) && CalmBut(s, k) && s.accounts[k].turn
    ensures Enabled(args, s, if HandlerRuns(args, s.accounts[k]) then Work(k) else On(k, Call.Returned))
    ensures var t := if HandlerRuns(args, s.accounts[k])
        then When.Step(args, When.Step(args, s, Work(k)), On(k, Call.Returned))
        else When.Step(args, s, On(k, Call.Returned));
      CalmBut(t, k) && SameFirsts(s, t) && ToRun(t, k) < ToRun(s, k) && t.ended == s.ended
  {
    assert SubInv(args, s, k);
    if HandlerRuns(args, s.accounts[k]) {
      WorkedMayReturn(args, s, k);
      When.StepKeeps(args, s, Work(k));
      ReturnPasses(args, When.Step(args, s, Work(k)), k);
    } else {
      ReturnPasses(args, s, k);
    }
  }

  lemma ReturnPasses(args: seq<Argument>, s: WhenState, k: nat)
    requires When.Inv(args, s) && Enabled(args, s, On(k, Call.Returned)) && s.accounts[k].turn && Sane(s.accounts[k])
    requires forall j :: 0 <= j < |s.accounts| && j != k ==> !s.accounts[j].turn && !s.entered[j]
    ensures var t := When.Step(args, s, On(k, Call.Returned));
      CalmBut(t, k) && SameFirsts(s, t) && ToRun(t, k) < ToRun(s, k) && t.ended == s.ended
  {
    CallMeans(args, s, k, Call.Returned);
  }
}
