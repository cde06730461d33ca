/** A deferred seen from outside, without lists and indices: who settled it, who listens, how many
    listeners have had their turn, and whether one has it now. The machine is proved to agree. */
module DeferredAccount {
  import opened Callbacks
  import opened Deferreds
  import opened Wrappers

  /** `over` listeners of the settled side have come and gone; `turn` says that the next one runs. */
  datatype Account = Account(first: First, done: seq<Callback>, fail: seq<Callback>, over: nat, turn: bool) {
    function Listeners(side: Side): seq<Callback> {
      if side == DoneSide then done else fail
    }
  }

  function Opened(): Account {
    Account(Nobody, INTERNALS, INTERNALS, 0, false)
  }

  function Heard(a: Account, side: Side, callbacks: seq<Callback>): Account {
    if side == DoneSide then a.(done := a.done + callbacks) else a.(fail := a.fail + callbacks)
  }

  function Next(a: Account, call: Call): Account {
    match call
    case Settle(side, args) =>
      if a.first.By? then a
      else a.(first := By(side, args), over := |INTERNALS|, turn := |a.Listeners(side)| > |INTERNALS|)
    case Listen(side, callbacks) =>
      var b := Heard(a, side, callbacks);
      if a.first.By? && a.first.side == side && callbacks != [] then b.(turn := true) else b
    case Returned =>
      if a.turn && a.first.By? then a.(over := a.over + 1, turn := a.over + 1 < |a.Listeners(a.first.side)|) else a
  }

  function AccountOf(calls: seq<Call>): Account {
    if calls == [] then Opened() else Next(AccountOf(calls[..|calls| - 1]), calls[|calls| - 1])
  }

  /* ---- Where the running callback stands ---- */

  /** While a pass runs, the callback that runs is the one called last. */
  ghost predicate AtTurn(s: State) {
    s.firing ==> 0 <= s.firingIndex < |Listed(s)| && Told(s) != [] && Told(s)[|Told(s)| - 1] == Listed(s)[s.firingIndex]
  }

  /** How far a settled list has come. */
  ghost predicate Stands(s: State, added: seq<Callback>, args: Args, over: nat, turn: bool) {
    Won(s, added, args) && AtTurn(s) && s.firing == turn && |Told(s)| == over + if turn then 1 else 0
  }

  lemma StandsMeans(s: State, added: seq<Callback>, args: Args, over: nat, turn: bool)
    requires Stands(s, added, args, over, turn)
    ensures over + (if turn then 1 else 0) <= |added| && (!turn ==> over == |added|)
    ensures Told(s) == Entries(added, 0)[..over + if turn then 1 else 0] && s.memory == Some(args)
    ensures turn ==> Running(s) == Some(added[over])
  {
    if turn {
      EntryAt(added, 0, over);
    } else {
      WonToldAll(s, added, args);
    }
  }

  lemma {:induction false} AfterLength(list: seq<Entry>, k: nat)
    requires k <= |list|
    ensures |After(list, k)| == |list| - k
    decreases |list|
  {
    if k < |list| {
      AfterLength(list[..|list| - 1], k);
    }
  }

  /** Something is left to run just when not all have been called. */
  lemma RestIsLeft(s: State, added: seq<Callback>, args: Args)
    requires Won(s, added, args) && s.firing
    ensures s.firingIndex + 1 < |Listed(s)| <==> |Told(s)| < |added|
  {
    AfterLength(Listed(s), s.firingIndex + 1);
  }

  lemma ProceedStands(s: State, added: seq<Callback>, args: Args, over: nat)
    requires Stands(s, added, args, over, true)
    ensures Stands(Proceed(s), added, args, over + 1, over + 1 < |added|)
  {
    RestIsLeft(s, added, args);
    if s.firingIndex + 1 < |Listed(s)| {
      WonCallsNext(s, added, args);
      CallNextTells(s);
    } else {
      WonEnds(s, added, args);
      WonToldAll(Proceed(s), added, args);
    }
  }

  lemma AddAtTurn(s: State, callbacks: seq<Callback>)
    requires s.list.Some? && s.firing && AtTurn(s) && s.history.current.Some? && !s.options.unique
    ensures AtTurn(AddAll(s, callbacks)) && AddAll(s, callbacks).firing && Told(AddAll(s, callbacks)) == Told(s)
  {
    PushAllAppends(s, callbacks);
    SameTold(s, PushAll(s, callbacks));
  }

  lemma AddStandsWhileFiring(s: State, added: seq<Callback>, args: Args, callbacks: seq<Callback>, over: nat)
    requires Stands(s, added, args, over, true)
    ensures Stands(AddAll(s, callbacks), added + callbacks, args, over, true)
  {
    AddAtTurn(s, callbacks);
    WonAddsWhileFiring(s, added, args, callbacks);
  }

  /** A pass over `callbacks` that is about to begin on a list that has told `added`. */
  lemma BeginStands(r: State, added: seq<Callback>, args: Args, callbacks: seq<Callback>)
    requires Won(r, added + callbacks, args) && r.firing && r.firingIndex == -1 && |Listed(r)| == |callbacks|
    ensures Stands(Proceed(r), added + callbacks, args, |added|, callbacks != [])
  {
    var all := added + callbacks;
    AfterLength(Listed(r), 0);
    if callbacks == [] {
      WonEnds(r, all, args);
      WonToldAll(Proceed(r), all, args);
    } else {
      WonCallsNext(r, all, args);
      CallNextTells(r);
    }
  }

  lemma AddStandsWhenIdle(s: State, added: seq<Callback>, args: Args, callbacks: seq<Callback>, over: nat)
    requires Stands(s, added, args, over, false)
    ensures Stands(AddAll(s, callbacks), added + callbacks, args, over, callbacks != [])
  {
    WonToldAll(s, added, args);
    WhenIdle(s, added, args);
    ReplayBegins(s, added, args, callbacks);
    ReplayLit(s, args, callbacks);
    Replays(s, args, callbacks);
    BeginStands(Replay(s, args, callbacks), added, args, callbacks);
  }

  lemma SettledStands(s: State, added: seq<Callback>, args: Args)
    requires AtInternal(s, added, args, 3) && |added| >= 3
    ensures Stands(s, added, args, 3, |added| > 3)
  {
    if |added| > 3 {
      AfterHead(Entries(added, 0), 3);
      AfterLength(Entries(added, 0), 4);
      AfterSplits(Entries(added, 0), 4);
      assert Told(s) == Entries(added, 0)[..4];
    } else {
      WonToldAll(s, added, args);
    }
  }

  /* ---- The machine agrees ---- */

  ghost predicate Agrees(d: Deferred, a: Account) {
    && INTERNALS <= a.done && INTERNALS <= a.fail
    && match a.first
       case Nobody => Undecided(d, a.done, a.fail) && a.over == 0 && !a.turn
       case By(side, args) =>
         d.state == Final(side) && Stands(d.List(side), a.Listeners(side), args, a.over, a.turn) &&
           Lost(d.List(Other(side)))
  }

  lemma SettleAgrees(d: Deferred, a: Account, side: Side, args: Args)
    requires Agrees(d, a)
    ensures Agrees(Perform(d, Settle(side, args)), Next(a, Settle(side, args)))
  {
    if a.first.Nobody? {
      SettleKeeps(d, side, args, a.Listeners(side), a.Listeners(Other(side)));
      SettledStands(Perform(d, Settle(side, args)).List(side), a.Listeners(side), args);
    }
  }

  lemma InternalsStay(added: seq<Callback>, callbacks: seq<Callback>)
    requires INTERNALS <= added
    ensures INTERNALS <= added + callbacks
  {
  }

  lemma PendingListens(d: Deferred, a: Account, side: Side, callbacks: seq<UserCallback>)
    requires Agrees(d, a) && a.first.Nobody?
    ensures Agrees(d.With(side, AddAll(d.List(side), callbacks)), Heard(a, side, callbacks))
  {
    QuietAdds(d.List(side), a.Listeners(side), callbacks);
    InternalsStay(a.Listeners(side), callbacks);
  }

  lemma WinnerStands(s: State, added: seq<Callback>, args: Args, callbacks: seq<Callback>, over: nat, turn: bool)
    requires Stands(s, added, args, over, turn)
    ensures Stands(AddAll(s, callbacks), added + callbacks, args, over, turn || callbacks != [])
  {
    if turn {
      AddStandsWhileFiring(s, added, args, callbacks, over);
    } else {
      AddStandsWhenIdle(s, added, args, callbacks, over);
    }
  }

  /** A settled deferred whose list has moved on to `s`. */
  lemma MovedOn(d: Deferred, side: Side, s: State, b: Account)
    requires b.first.By? && b.first.side == side && d.state == Final(side) && Lost(d.List(Other(side)))
    requires Stands(s, b.Listeners(side), b.first.args, b.over, b.turn) && INTERNALS <= b.done && INTERNALS <= b.fail
    ensures Agrees(d.With(side, s), b)
  {
  }

  lemma WinnerListens(d: Deferred, a: Account, side: Side, callbacks: seq<UserCallback>, s: State)
    requires Agrees(d, a) && a.first.By? && a.first.side == side
    requires Stands(s, a.Listeners(side) + callbacks, a.first.args, a.over, a.turn || callbacks != [])
    ensures Agrees(d.With(side, s), Next(a, Listen(side, callbacks)))
  {
    InternalsStay(a.Listeners(side), callbacks);
    MovedOn(d, side, s, Next(a, Listen(side, callbacks)));
  }

  lemma LoserListens(d: Deferred, a: Account, side: Side, callbacks: seq<UserCallback>)
    requires Agrees(d, a) && a.first.By? && a.first.side != side
    ensures AddAll(d.List(side), callbacks) == d.List(side) && Agrees(d, Heard(a, side, callbacks))
  {
    InternalsStay(a.Listeners(side), callbacks);
  }

  lemma WithSame(d: Deferred, side: Side)
    ensures d.With(side, d.List(side)) == d
  {
  }

  lemma WinnerAgrees(d: Deferred, a: Account, side: Side, callbacks: seq<UserCallback>)
    requires Agrees(d, a) && a.first.By? && a.first.side == side
    ensures Agrees(Perform(d, Listen(side, callbacks)), Next(a, Listen(side, callbacks)))
  {
    var s := AddAll(d.List(side), callbacks);
    WinnerStands(d.List(side), a.Listeners(side), a.first.args, callbacks, a.over, a.turn);
    WinnerListens(d, a, side, callbacks, s);
  }

  lemma LoserAgrees(d: Deferred, a: Account, side: Side, callbacks: seq<UserCallback>)
    requires Agrees(d, a) && a.first.By? && a.first.side != side
    ensures Agrees(Perform(d, Listen(side, callbacks)), Next(a, Listen(side, callbacks)))
  {
    LoserListens(d, a, side, callbacks);
    WithSame(d, side);
  }

  lemma ListenAgrees(d: Deferred, a: Account, side: Side, callbacks: seq<UserCallback>)
    requires Agrees(d, a)
    ensures Agrees(Perform(d, Listen(side, callbacks)), Next(a, Listen(side, callbacks)))
  {
    if a.first.Nobody? {
      PendingListens(d, a, side, callbacks);
    } else if a.first.side == side {
      WinnerAgrees(d, a, side, callbacks);
    } else {
      LoserAgrees(d, a, side, callbacks);
    }
  }

  lemma TurnReturns(d: Deferred, a: Account, side: Side, s: State)
    requires Agrees(d, a) && a.turn && a.first.By? && a.first.side == side
    requires Stands(s, a.Listeners(side), a.first.args, a.over + 1, a.over + 1 < |a.Listeners(side)|)
    ensures Agrees(d.With(side, s), Next(a, Returned))
  {
    MovedOn(d, side, s, Next(a, Returned));
  }

  lemma ReturnMeans(d: Deferred, a: Account)
    requires Agrees(d, a)
    ensures Perform(d, Returned) ==
      if a.turn && a.first.By? then d.With(a.first.side, Proceed(d.List(a.first.side))) else d
  {
  }

  lemma ReturnAgrees(d: Deferred, a: Account)
    requires Agrees(d, a)
    ensures Agrees(Perform(d, Returned), Next(a, Returned))
  {
    ReturnMeans(d, a);
    if a.turn && a.first.By? {
      var s := d.List(a.first.side);
      ProceedStands(s, a.Listeners(a.first.side), a.first.args, a.over);
      TurnReturns(d, a, a.first.side, Proceed(s));
    }
  }

  lemma StepAgrees(d: Deferred, a: Account, call: Call)
    requires Agrees(d, a)
    ensures Agrees(Perform(d, call), Next(a, call))
  {
    match call
    case Settle(side, args) => SettleAgrees(d, a, side, args);
    case Listen(side, callbacks) => ListenAgrees(d, a, side, callbacks);
    case Returned => ReturnAgrees(d, a);
  }

  lemma {:induction false} EveryRunAgrees(calls: seq<Call>)
    ensures Agrees(Deferreds.Run(calls), AccountOf(calls))
    decreases |calls|
  {
    if calls == [] {
      FreshIsQuiet();
    } else {
      EveryRunAgrees(calls[..|calls| - 1]);
      StepAgrees(Deferreds.Run(calls[..|calls| - 1]), AccountOf(calls[..|calls| - 1]), calls[|calls| - 1]);
    }
  }

  /** What the account says of a settled list. */
  ghost predicate Shows(list: State, added: seq<Callback>, args: Args, over: nat, turn: bool) {
    var n := over + if turn then 1 else 0;
    && list.firing == turn && n <= |added| && (!turn ==> over == |added|) && list.memory == Some(args)
    && Told(list) == Entries(added, 0)[..n] && (turn ==> Running(list) == Some(added[over]))
  }

  /** And of the deferred: its state, the calls that it has made to its listeners, which of them is
      running, and with what arguments. */
  ghost predicate True(d: Deferred, a: Account) {
    match a.first
    case Nobody => d.state == Pending && !d.done.firing && !d.fail.firing && !a.turn
    case By(side, args) =>
      && d.state == Final(side) && Shows(d.List(side), a.Listeners(side), args, a.over, a.turn)
      && !d.List(Other(side)).firing && Told(d.List(Other(side))) == []
  }

  lemma StandsShows(s: State, added: seq<Callback>, args: Args, over: nat, turn: bool)
    requires Stands(s, added, args, over, turn)
    ensures Shows(s, added, args, over, turn)
  {
    StandsMeans(s, added, args, over, turn);
  }

  lemma AgreesIsTrue(d: Deferred, a: Account)
    requires Agrees(d, a)
    ensures True(d, a)
  {
    if a.first.By? {
      StandsShows(d.List(a.first.side), a.Listeners(a.first.side), a.first.args, a.over, a.turn);
    }
  }

  /** After any run the account tells the truth. */
  lemma AccountIsTrue(calls: seq<Call>)
    ensures True(Deferreds.Run(calls), AccountOf(calls))
  {
    EveryRunAgrees(calls);
    AgreesIsTrue(Deferreds.Run(calls), AccountOf(calls));
  }

  /** This callback is running, with these arguments. */
  ghost predicate TurnOf(list: State, c: Callback, args: Args) {
    list.firing && Running(list) == Some(c) && list.memory == Some(args)
  }

  lemma TurnIsTrue(calls: seq<Call>, a: Account)
    requires a == AccountOf(calls) && a.turn
    ensures a.first.By? && a.over < |a.Listeners(a.first.side)|
    ensures TurnOf(Deferreds.Run(calls).List(a.first.side), a.Listeners(a.first.side)[a.over], a.first.args)
  {
    AccountIsTrue(calls);
    AccountIsSane(calls);
  }

  /* ---- What the account itself keeps ---- */

  ghost predicate Sane(a: Account) {
    && INTERNALS <= a.done && INTERNALS <= a.fail
    && match a.first
       case Nobody => a.over == 0 && !a.turn
       case By(side, _) =>
         |INTERNALS| <= a.over && if a.turn then a.over < |a.Listeners(side)| else a.over == |a.Listeners(side)|
  }

  lemma NextIsSane(a: Account, call: Call)
    requires Sane(a)
    ensures Sane(Next(a, call))
  {
    if call.Listen? {
      InternalsStay(a.Listeners(call.side), call.callbacks);
    }
  }

  lemma {:induction false} AccountIsSane(calls: seq<Call>)
    ensures Sane(AccountOf(calls)) && AccountOf(calls).first == FirstSettle(calls)
    decreases |calls|
  {
    if calls != [] {
      AccountIsSane(calls[..|calls| - 1]);
      NextIsSane(AccountOf(calls[..|calls| - 1]), calls[|calls| - 1]);
    }
  }

  lemma AccountMore(calls: seq<Call>, call: Call)
    ensures AccountOf(calls + [call]) == Next(AccountOf(calls), call)
  {
    assert (calls + [call])[..|calls|] == calls;
  }
}
