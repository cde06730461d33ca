/** `jQuery.when` as a program uses it: on deferreds with any past, with any number of arguments, and
    with subordinates that are settled later. */
module WhenUse {
  import opened Callbacks
  import opened DeferredAccount
  import opened DeferredObject
  import opened Deferreds
  import opened Wrappers
  import opened When
  import opened WhenCall
  import opened WhenSteps

  /* ---- Deferreds with a past ---- */

  /** None of the callbacks is one of the handlers that are about to be made. */
  ghost predicate ByOthers(args: seq<Argument>, call: Call) {
    call.Listen? ==> forall j :: 0 <= j < |call.callbacks| ==> !IsHandler(args, call.callbacks[j])
  }

  ghost predicate Past(args: seq<Argument>, calls: seq<seq<Call>>) {
    forall k, j :: 0 <= k < |calls| && 0 <= j < |calls[k]| ==> ByOthers(args, calls[k][j])
  }

  /** `when` has not begun, and these calls have been made. */
  ghost predicate NotBegun(s: WhenState, calls: seq<seq<Call>>) {
    s.visited == 0 && !s.ended && s.master == [] && s.subs == calls
  }

  lemma OneCall(args: seq<Argument>, n: nat, events: seq<When.Event>, calls: seq<seq<Call>>, k: nat, call: Call)
    requires Fit(args, n) && NotBegun(When.Run(args, n, events), calls) && k < |calls| && ByOthers(args, call)
    ensures NotBegun(When.Run(args, n, events + [On(k, call)]), calls[k := calls[k] + [call]])
  {
    var s := When.Run(args, n, events);
    RunKeeps(args, n, events);
    NextRun(args, When.Initial(args, n), events, On(k, call));
    assert SubInv(args, s, k);
  }

  /** Any calls may have been made on the deferreds before. */
  lemma {:induction false} CallsBefore(args: seq<Argument>, n: nat, calls: seq<seq<Call>>)
    returns (before: seq<When.Event>)
    requires Fit(args, n) && |calls| == n && Past(args, calls)
    ensures NotBegun(When.Run(args, n, before), calls)
  {
    before := [];
    var made := seq(n, _ => []);
    var k := 0;
    while k < n
      invariant 0 <= k <= n == |made| && NotBegun(When.Run(args, n, before), made)
      invariant forall m :: 0 <= m < n ==> made[m] == if m < k then calls[m] else []
    {
      var j := 0;
      while j < |calls[k]|
        invariant 0 <= j <= |calls[k]| && |made| == n && NotBegun(When.Run(args, n, before), made)
        invariant forall m :: 0 <= m < n ==> made[m] == if m < k then calls[m] else if m == k then calls[k][..j] else []
      {
        OneCall(args, n, before, made, k, calls[k][j]);
        before := before + [On(k, calls[k][j])];
        made := made[k := made[k] + [calls[k][j]]];
        j := j + 1;
      }
      k := k + 1;
    }
    assert made == calls;
  }

  /* ---- The results on the objects ---- */

  /** The master is resolved just when all subordinates are, and rejected just when one is. */
  ghost predicate StatesAgree(args: seq<Argument>, subs: seq<DeferredObject>, master: DeferredObject)
    requires Fit(args, |subs|)
    reads master, set k | 0 <= k < |subs| :: subs[k]
  {
    && (master.state == Resolved <==>
         forall i :: 0 <= i < |args| && args[i].Subordinate? ==> subs[args[i].k].state == Resolved)
    && (master.state == Rejected <==>
         exists i :: 0 <= i < |args| && args[i].Subordinate? && subs[args[i].k].state == Rejected)
  }

  ghost predicate AllQuiet(subs: seq<DeferredObject>)
    reads set k | 0 <= k < |subs| :: subs[k].doneList, set k | 0 <= k < |subs| :: subs[k].failList
  {
    forall k :: 0 <= k < |subs| ==> IsQuiet(subs[k])
  }

  /** A list that has been fired remembers what it was fired with. */
  lemma Remembered(d: DeferredObject, calls: seq<Call>)
    requires Follows(d, calls)
    ensures match FirstSettle(calls)
      case Nobody => d.state == Pending
      case By(side, told) => d.state == Final(side) && d.List(side).memory == Some(told)
  {
    AccountIsTrue(calls);
    AccountIsSane(calls);
  }

  /** So it is with every subordinate. */
  ghost predicate RemembersOwn(w: WhenCall, k: nat)
    requires w.Valid() && k < |w.subs|
    reads w, w.deferred, w.deferred.doneList, w.deferred.failList, ObjectsOf(w.subs)
  {
    match FirstSettle(w.model.subs[k])
    case Nobody => w.subs[k].state == Pending
    case By(side, told) => w.subs[k].state == Final(side) && w.subs[k].List(side).memory == Some(told)
  }

  lemma SubsRemember(w: WhenCall)
    requires w.Valid()
    ensures forall k :: 0 <= k < |w.subs| ==> RemembersOwn(w, k)
  {
    forall k | 0 <= k < |w.subs| ensures RemembersOwn(w, k) {
      assert w.SubFollows(k);
      Remembered(w.subs[k], w.model.subs[k]);
    }
  }

  /** What the done callbacks of the master are told: the values of all arguments, in their order. */
  lemma MasterTells(w: WhenCall)
    requires w.Valid() && w.model.ended && w.deferred.state == Resolved
    ensures Tells(w.args, w.subs, w.deferred.doneList.memory)
  {
    ResolvedMeans(w.args, w.model);
    Remembered(w.deferred, w.model.master);
    SubsRemember(w);
    var told := w.deferred.doneList.memory.value;
    forall i | 0 <= i < |w.args| ensures TellsOf(w.args[i], w.subs, told[i]) {
      if w.args[i].Subordinate? {
        assert RemembersOwn(w, w.args[i].k) && Sub(w.args, w.model, i).state == Resolved;
        StateIsThis(w, w.args[i].k);
      }
    }
  }

  lemma StateIsThis(w: WhenCall, k: nat)
    requires w.Valid() && k < |w.subs|
    ensures k < |w.model.subs| && w.subs[k].state == Deferreds.Run(w.model.subs[k]).state
  {
    assert w.SubFollows(k);
  }

  /** And its fail callbacks: what one of the subordinates was rejected with. */
  lemma MasterTellsReason(w: WhenCall)
    requires w.Valid() && w.model.ended && w.deferred.state == Rejected
    ensures exists i ::
      0 <= i < |w.args| && w.args[i].Subordinate? && RejectedAs(w.args, w.subs, i, w.deferred)
  {
    When.RejectedMeans(w.args, w.model);
    Remembered(w.deferred, w.model.master);
    var i :| 0 <= i < |w.args| && w.args[i].Subordinate? && Settles(w.args, w.model, i);
    assert w.SubFollows(w.args[i].k);
    Remembered(w.subs[w.args[i].k], w.model.subs[w.args[i].k]);
    assert RejectedAs(w.args, w.subs, i, w.deferred);
  }

  /** These are the values of the arguments. */
  ghost predicate Tells(args: seq<Argument>, subs: seq<DeferredObject>, told: Option<Args>)
    requires Fit(args, |subs|)
    reads set k | 0 <= k < |subs| :: subs[k].doneList
  {
    told.Some? && |told.value| == |args| && forall i :: 0 <= i < |args| ==> TellsOf(args[i], subs, told.value[i])
  }

  ghost predicate TellsOf(arg: Argument, subs: seq<DeferredObject>, value: Value)
    requires arg.Subordinate? ==> arg.k < |subs|
    reads set k | 0 <= k < |subs| :: subs[k].doneList
  {
    match arg
    case Plain(plain) => value == plain
    case Subordinate(k) => subs[k].doneList.memory.Some? && Contributes(subs[k].doneList.memory.value, value)
  }

  ghost predicate RejectedAs(args: seq<Argument>, subs: seq<DeferredObject>, i: nat, master: DeferredObject)
    requires Fit(args, |subs|) && i < |args| && args[i].Subordinate?
    reads master.failList, subs[args[i].k], subs[args[i].k].failList
  {
    subs[args[i].k].state == Rejected && master.failList.memory == subs[args[i].k].failList.memory
  }

  /* ---- The call ---- */

  lemma QuietIsCalm(w: WhenCall)
    requires w.Valid()
    ensures AllQuiet(w.subs) <==> Calm(w.model)
  {
    forall k | 0 <= k < |w.subs| ensures IsQuiet(w.subs[k]) <==> !w.model.accounts[k].turn {
      assert w.SubFollows(k);
      AccountIsTrue(w.model.subs[k]);
    }
  }

  /** These calls, by others, have made the deferreds what they are. */
  ghost predicate WithPast(args: seq<Argument>, subs: seq<DeferredObject>, calls: seq<seq<Call>>)
    reads ObjectsOf(subs)
  {
    && Fit(args, |subs|) && |calls| == |subs| && Past(args, calls)
    && (forall j, k :: 0 <= j < |subs| && 0 <= k < |subs| && j != k ==> Apart(subs[j], subs[k]))
    && forall k :: 0 <= k < |subs| ==> Follows(subs[k], calls[k])
  }

  lemma OneArgument(args: seq<Argument>, subs: seq<DeferredObject>, master: DeferredObject)
    requires Fit(args, |subs|) && |args| == 1
    requires if args[0].Subordinate? then master == subs[args[0].k] else master.state == Resolved
    ensures StatesAgree(args, subs, master)
  {
    if args[0].Subordinate? {
      assert master.state == subs[args[0].k].state;
    }
  }

  /** With none, two or more arguments. Whatever the deferreds have been through, no state of theirs
      changes; and unless the call comes from inside one of their callbacks, they are at rest after it
      and the master is settled as far as they are. */
  method Several(args: seq<Argument>, subs: seq<DeferredObject>, ghost calls: seq<seq<Call>>) returns (w: WhenCall)
    requires |args| != 1 && WithPast(args, subs, calls)
    modifies ObjectsOf(subs)
    ensures fresh(w) && w.args == args && w.subs == subs && w.Valid() && w.model.ended
    ensures fresh(w.deferred) && fresh(w.deferred.doneList) && fresh(w.deferred.failList)
    ensures forall k :: 0 <= k < |subs| ==>
      Settling(w, k) == FirstSettle(calls[k]) && subs[k].state == old(subs[k].state)
    ensures old(AllQuiet(subs)) ==> AllQuiet(subs) && StatesAgree(args, subs, w.deferred)
  {
    w := Prepared(args, subs, calls);
    Started(w);
  }

  method Prepared(args: seq<Argument>, subs: seq<DeferredObject>, ghost calls: seq<seq<Call>>) returns (w: WhenCall)
    requires |args| != 1 && WithPast(args, subs, calls)
    ensures fresh(w) && w.args == args && w.subs == subs && w.Valid() && NotBegun(w.model, calls) &&
      NoneEntered(w.model)
    ensures fresh(w.deferred) && fresh(w.deferred.doneList) && fresh(w.deferred.failList)
  {
    ghost var before := CallsBefore(args, |subs|, calls);
    w := new WhenCall(args, subs, before);
  }

  method Started(w: WhenCall)
    requires w.Valid() && w.model.visited == 0 && !w.model.ended && NoneEntered(w.model)
    modifies w, w.deferred, w.deferred.doneList, w.deferred.failList, ObjectsOf(w.subs)
    ensures w.Valid() && w.model.ended
    ensures forall k :: 0 <= k < |w.subs| ==>
      Settling(w, k) == old(Settling(w, k)) && w.subs[k].state == old(w.subs[k].state)
    ensures old(AllQuiet(w.subs)) ==> AllQuiet(w.subs) && StatesAgree(w.args, w.subs, w.deferred)
  {
    QuietIsCalm(w);
    StatesAreFirsts(w);
    ghost var events := w.Start();
    QuietIsCalm(w);
    StatesAreFirsts(w);
    if AllQuiet(w.subs) {
      w.ObjectsShow();
    }
  }

  /** What has settled a subordinate, read off its calls. */
  ghost function Settling(w: WhenCall, k: nat): First
    requires w.Valid() && k < |w.subs|
    reads w, w.deferred, w.deferred.doneList, w.deferred.failList, ObjectsOf(w.subs)
  {
    FirstSettle(w.model.subs[k])
  }

  lemma StatesAreFirsts(w: WhenCall)
    requires w.Valid()
    ensures |w.subs| == |w.model.accounts|
    ensures forall k :: 0 <= k < |w.subs| ==> w.model.accounts[k].first == Settling(w, k)
    ensures forall k :: 0 <= k < |w.subs| ==> w.subs[k].state == StateOf(Settling(w, k))
  {
    forall k | 0 <= k < |w.subs|
      ensures w.model.accounts[k].first == Settling(w, k) && w.subs[k].state == StateOf(Settling(w, k))
    {
      w.StateIsFirst(k);
      AccountIsSane(w.model.subs[k]);
    }
  }

  /** A new deferred, resolved at once. */
  method ResolvedWith(told: Args) returns (d: DeferredObject)
    ensures fresh(d) && fresh(d.doneList) && fresh(d.failList)
    ensures Follows(d, [Call.Settle(DoneSide, told)]) && IsQuiet(d)
    ensures d.state == Resolved && d.doneList.memory == Some(told)
  {
    ghost var calls := [Call.Settle(DoneSide, told)];
    d := new DeferredObject();
    NoCalls();
    assert [] + calls == calls && calls[..0] == [];
    Do(d, Call.Settle(DoneSide, told), []);
    assert FirstSettle([]) == Nobody && AccountOf([]) == Opened();
    Remembered(d, calls);
    AccountIsTrue(calls);
  }

  /** With any number of arguments: a single deferred is handed back itself, and a single value
      resolves a new master at once. */
  method CallWhen(args: seq<Argument>, subs: seq<DeferredObject>, ghost calls: seq<seq<Call>>)
    returns (master: DeferredObject)
    requires WithPast(args, subs, calls)
    modifies ObjectsOf(subs)
    ensures forall k :: 0 <= k < |subs| ==> subs[k].state == old(subs[k].state)
    ensures old(AllQuiet(subs)) ==> AllQuiet(subs) && StatesAgree(args, subs, master)
    ensures |args| == 1 && args[0].Plain? ==> master.doneList.memory == Some([args[0].value])
    ensures if |args| == 1 && args[0].Subordinate? then master == subs[args[0].k] else fresh(master)
  {
    if |args| != 1 {
      var w := Several(args, subs, calls);
      master := w.deferred;
    } else if args[0].Subordinate? {
      master := subs[args[0].k];
      OneArgument(args, subs, master);
    } else {
      master := ResolvedWith([args[0].value]);
      OneArgument(args, subs, master);
    }
  }

  /* ---- A subordinate that is settled later ---- */

  /** After the call, the program settles a subordinate that is at rest, and its callbacks run to the
      end: the master is settled accordingly. */
  method SettleLater(w: WhenCall, k: nat, side: Side, told: Args)
    requires w.Valid() && w.model.ended && AllQuiet(w.subs) && k < |w.subs| && w.subs[k].state == Pending
    modifies w, w.deferred, w.deferred.doneList, w.deferred.failList, ObjectsOf(w.subs)
    ensures w.Valid() && w.model.ended && AllQuiet(w.subs)
    ensures Settling(w, k) == By(side, told) && w.subs[k].state == Final(side) &&
      StatesAgree(w.args, w.subs, w.deferred)
    ensures forall j :: 0 <= j < |w.subs| && j != k ==>
      Settling(w, j) == old(Settling(w, j)) && w.subs[j].state == old(w.subs[j].state)
  {
    QuietIsCalm(w);
    StatesAreFirsts(w);
    ghost var s := w.model;
    CalmIsNone(w.args, s);
    SettledNow(w.args, s, k, side, told);
    w.CallOn(k, Call.Settle(side, told));
    RunAll(w, k);
    QuietIsCalm(w);
    StatesAreFirsts(w);
    w.ObjectsShow();
  }

  /** The callback that is running does its work and comes back. */
  method OneTurn(w: WhenCall, k: nat)
    requires w.Valid() && w.model.ended && CalmBut(w.model, k) && w.model.accounts[k].turn
    modifies w, w.deferred, w.deferred.doneList, w.deferred.failList, ObjectsOf(w.subs)
    ensures w.Valid() && w.model.ended && CalmBut(w.model, k) && SameFirsts(old(w.model), w.model)
    ensures ToRun(w.model, k) < ToRun(old(w.model), k)
  {
    TurnPasses(w.args, w.model, k);
    var waits := w.AnyHandlerWaits(k);
    if waits {
      w.RunAtOnce(k);
    } else {
      w.CallOn(k, Call.Returned);
    }
  }

  /** The callbacks of subordinate `k` have their turns, one after the other. */
  method RunAll(w: WhenCall, k: nat)
    requires w.Valid() && w.model.ended && k < |w.subs| && CalmBut(w.model, k)
    modifies w, w.deferred, w.deferred.doneList, w.deferred.failList, ObjectsOf(w.subs)
    ensures w.Valid() && w.model.ended && Calm(w.model) && SameFirsts(old(w.model), w.model)
  {
    var running := w.IsRunning(k);
    while running
      invariant w.Valid() && w.model.ended && CalmBut(w.model, k) && SameFirsts(old(w.model), w.model)
      invariant running <==> w.model.accounts[k].turn
      decreases ToRun(w.model, k)
    {
      OneTurn(w, k);
      running := w.IsRunning(k);
    }
  }

  /* ---- Two subordinates ---- */

  const BOTH := [Subordinate(0), Subordinate(1)]

  lemma TwoStates(w: WhenCall)
    requires w.Valid() && w.args == BOTH && |w.subs| == 2 && StatesAgree(w.args, w.subs, w.deferred)
    requires w.subs[0].state == Resolved
    ensures w.deferred.state == w.subs[1].state
  {
    assert w.args[0].k == 0 && w.args[1].k == 1;
    assert w.subs[w.args[1].k].state == w.subs[1].state;
  }

  lemma TwoHavePast(subs: seq<DeferredObject>, first: Args, calls: seq<seq<Call>>)
    requires |subs| == 2 && Apart(subs[0], subs[1])
    requires Follows(subs[0], [Call.Settle(DoneSide, first)]) && Follows(subs[1], []) && IsQuiet(subs[0])
    requires calls == [[Call.Settle(DoneSide, first)], []]
    ensures WithPast(BOTH, subs, calls) && AllQuiet(subs)
    ensures FirstSettle(calls[0]) == By(DoneSide, first) && FirstSettle(calls[1]) == Nobody
  {
    TwoPasts(first, calls);
    assert AccountOf([]) == Opened();
    AccountIsTrue([]);
  }

  lemma TwoPasts(first: Args, calls: seq<seq<Call>>)
    requires calls == [[Call.Settle(DoneSide, first)], []]
    ensures Past(BOTH, calls) && FirstSettle(calls[0]) == By(DoneSide, first) && FirstSettle(calls[1]) == Nobody
  {
    assert calls[0][..0] == [];
  }

  lemma TheirObjects(subs: seq<DeferredObject>)
    requires |subs| == 2
    ensures forall o :: o in ObjectsOf(subs) ==>
      o == subs[0] || o == subs[1] || o == subs[0].doneList || o == subs[1].doneList ||
      o == subs[0].failList || o == subs[1].failList
  {
  }

  /** Two deferreds, the first of them resolved. */
  method MakeTwo(first: Args) returns (subs: seq<DeferredObject>)
    ensures |subs| == 2 && fresh(ObjectsOf(subs)) && Apart(subs[0], subs[1])
    ensures Follows(subs[0], [Call.Settle(DoneSide, first)]) && Follows(subs[1], []) && IsQuiet(subs[0])
  {
    var a := ResolvedWith(first);
    var b := new DeferredObject();
    NoCalls();
    subs := [a, b];
    TheirObjects(subs);
  }

  /** One is resolved before the call. */
  method OneBefore(first: Args) returns (w: WhenCall)
    ensures fresh(w) && fresh(w.deferred) && fresh(w.deferred.doneList) && fresh(w.deferred.failList)
    ensures fresh(ObjectsOf(w.subs)) && w.args == BOTH && |w.subs| == 2
    ensures w.Valid() && w.model.ended && AllQuiet(w.subs)
    ensures Settling(w, 0) == By(DoneSide, first) && w.subs[1].state == Pending && w.deferred.state == Pending
  {
    var subs := MakeTwo(first);
    ghost var calls := [[Call.Settle(DoneSide, first)], []];
    TwoHavePast(subs, first, calls);
    w := Several(BOTH, subs, calls);
    StatesAreFirsts(w);
    TwoStates(w);
  }

  /** What a master of two tells: what each of them contributes, in this order, or what the second one was
      rejected with. */
  ghost predicate TwoTell(master: DeferredObject, first: Args, side: Side, second: Args)
    reads master.List(side)
  {
    match master.List(side).memory
    case None => false
    case Some(told) =>
      if side == DoneSide then |told| == 2 && Contributes(first, told[0]) && Contributes(second, told[1])
      else told == second
  }

  lemma TwoTold(w: WhenCall, first: Args, side: Side, second: Args)
    requires w.Valid() && w.model.ended && w.args == BOTH && |w.subs| == 2 && w.deferred.state == Final(side)
    requires Settling(w, 0) == By(DoneSide, first) && Settling(w, 1) == By(side, second)
    ensures TwoTell(w.deferred, first, side, second)
  {
    assert w.SubFollows(0) && w.SubFollows(1) && w.args[0].k == 0 && w.args[1].k == 1;
    Remembered(w.subs[0], w.model.subs[0]);
    Remembered(w.subs[1], w.model.subs[1]);
    if side == DoneSide {
      MasterTells(w);
    } else {
      MasterTellsReason(w);
      var i :| 0 <= i < 2 && RejectedAs(w.args, w.subs, i, w.deferred);
      assert i == 1;
    }
  }

  /** The other one is settled after it: the master does the same, with both values in their order or
      with the reason of the rejection. */
  method OneBeforeOneAfter(first: Args, side: Side, second: Args) returns (master: DeferredObject)
    ensures master.state == Final(side)
    ensures TwoTell(master, first, side, second)
  {
    var w := OneBefore(first);
    SettleLater(w, 1, side, second);
    StatesAreFirsts(w);
    TwoStates(w);
    TwoTold(w, first, side, second);
    master := w.deferred;
  }

  /** Two subordinates that are resolved with one value each: the master tells the two values. */
  method OneValueEach(v: Value, w: Value) returns (master: DeferredObject)
    ensures master.state == Resolved && master.doneList.memory == Some([v, w])
  {
    master := OneBeforeOneAfter([v], DoneSide, [w]);
    var told := master.doneList.memory.value;
    assert told == [told[0], told[1]];
  }

  /** One with several values, one with none: the master tells an array of the values, and an undefined one. */
  method SeveralAndNone(v: Value, w: Value) returns (master: DeferredObject)
    ensures master.state == Resolved && master.doneList.memory == Some([Array([v, w]), Undefined])
  {
    master := OneBeforeOneAfter([v, w], DoneSide, []);
    var told := master.doneList.memory.value;
    assert told == [told[0], told[1]];
  }
}
