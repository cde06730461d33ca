/** `jQuery.Deferred`: two "once memory" lists whose first three callbacks set the state, disable
    the other list and lock the progress list. A run is a sequence of calls to resolve, reject,
    done and fail, made from outside or from inside a callback, and of callbacks returning. */
module Deferreds {
  import opened Callbacks
  import opened Sequences
  import opened Wrappers

  datatype Side = DoneSide | FailSide
  datatype Settled = Pending | Resolved | Rejected

  const ONCE_MEMORY := Options(true, true, false)

  /** The callbacks that `Deferred` itself puts at the head of each list. */
  const SET_STATE: Callback := 0
  const DISABLE_OTHER: Callback := 1
  const LOCK_PROGRESS: Callback := 2
  const INTERNALS: seq<Callback> := [SET_STATE, DISABLE_OTHER, LOCK_PROGRESS]

  type UserCallback = c: Callback | c >= 3 witness 3

  datatype Deferred = Deferred(done: State, fail: State, state: Settled, progressLocked: bool) {
    function List(side: Side): State {
      if side == DoneSide then done else fail
    }

    function With(side: Side, s: State): Deferred {
      if side == DoneSide then this.(done := s) else this.(fail := s)
    }
  }

  datatype Call =
    | Settle(side: Side, args: Args)
    | Listen(side: Side, callbacks: seq<UserCallback>)
    | Returned

  function Other(side: Side): Side {
    if side == DoneSide then FailSide else DoneSide
  }

  function Final(side: Side): Settled {
    if side == DoneSide then Resolved else Rejected
  }

  function Fresh(): Deferred {
    var list := AddAll(Initial(ONCE_MEMORY), INTERNALS);
    Deferred(list, list, Pending, false)
  }

  function Running(s: State): Option<Callback> {
    if s.firing && 0 <= s.firingIndex < |Listed(s)| then Some(Listed(s)[s.firingIndex].callback) else None
  }

  /** The body of an internal callback. */
  function Effect(d: Deferred, side: Side, callback: Callback): Deferred {
    if callback == SET_STATE then d.(state := Final(side))
    else if callback == DISABLE_OTHER then d.With(Other(side), DisableNow(d.List(Other(side))))
    else d.(progressLocked := true)
  }

  /** Runs the internal callbacks that come next, each to its return. */
  function RunInternals(d: Deferred, side: Side, limit: nat): Deferred
    decreases limit
  {
    var running := Running(d.List(side));
    if limit == 0 || running.None? || running.value >= 3 then d
    else RunInternals(Effect(d, side, running.value).With(side, Proceed(d.List(side))), side, limit - 1)
  }

  function Perform(d: Deferred, call: Call): Deferred {
    match call
    case Settle(side, args) =>
      var list := d.List(side);
      if list.locked then d else RunInternals(d.With(side, FireNow(list, args)), side, |INTERNALS|)
    case Listen(side, callbacks) => d.With(side, AddAll(d.List(side), callbacks))
    case Returned =>
      if d.done.firing then d.With(DoneSide, Proceed(d.done))
      else if d.fail.firing then d.With(FailSide, Proceed(d.fail))
      else d
  }

  function Run(calls: seq<Call>): Deferred {
    if calls == [] then Fresh() else Perform(Run(calls[..|calls| - 1]), calls[|calls| - 1])
  }

  /* ---- What a run is about, read off the calls alone ---- */

  datatype First = Nobody | By(side: Side, args: Args)

  function FirstAfter(first: First, call: Call): First {
    if first.Nobody? && call.Settle? then By(call.side, call.args) else first
  }

  /** The first settling call. */
  function FirstSettle(calls: seq<Call>): First {
    if calls == [] then Nobody else FirstAfter(FirstSettle(calls[..|calls| - 1]), calls[|calls| - 1])
  }

  function HeardAfter(side: Side, added: seq<Callback>, call: Call): seq<Callback> {
    if call.Listen? && call.side == side then added + call.callbacks else added
  }

  /** The callbacks of one side in the order of addition, after the internal ones. */
  function Listeners(side: Side, calls: seq<Call>): seq<Callback> {
    if calls == [] then INTERNALS else HeardAfter(side, Listeners(side, calls[..|calls| - 1]), calls[|calls| - 1])
  }

  /** The callbacks numbered in order. */
  function Entries(callbacks: seq<Callback>, from: nat): (entries: seq<Entry>)
    ensures |entries| == |callbacks|
  {
    if callbacks == [] then [] else
      var k := |callbacks| - 1;
      Entries(callbacks[..k], from) + [Entry(callbacks[k], from + k)]
  }

  /** Every call made to a callback of the list, in order. */
  function Log(passes: seq<Pass>): seq<Entry> {
    if passes == [] then [] else Log(passes[..|passes| - 1]) + passes[|passes| - 1].ran
  }

  /* ---- The shapes of the two lists ---- */

  /** Nothing has been fired. */
  ghost predicate Quiet(s: State, added: seq<Callback>) {
    s == State(ONCE_MEMORY, Some(Entries(added, 0)), [], -1, false, false, false, None,
      History(|added|, [], [], [], None))
  }

  /** The settled list: each callback ran once, in the order of addition, with the settling
      arguments, except those whose turn is still to come in the pass that is running. */
  ghost predicate Won(s: State, added: seq<Callback>, args: Args) {
    Holds(s, args) && s.history.next == |added| && Told(s) + Rest(s) == Entries(added, 0)
  }

  /** The calls made so far. */
  function Told(s: State): seq<Entry> {
    Log(Passes(s.history))
  }

  ghost predicate Holds(s: State, args: Args) {
    && s.options == ONCE_MEMORY && s.list.Some? && s.locked && s.queue == [] && s.memory == Some(args)
    && (s.firing <==> s.history.current.Some?) && -1 <= s.firingIndex < |Listed(s)| && (!s.firing ==> Listed(s) == [])
    && AllWith(Passes(s.history), args)
  }

  ghost predicate AllWith(passes: seq<Pass>, args: Args) {
    passes != [] ==> passes[|passes| - 1].args == args && AllWith(passes[..|passes| - 1], args)
  }

  /** The other list: it never ran and never will. */
  ghost predicate Lost(s: State) {
    s.list.None? && s.locked && s.memory.None? && !s.firing && Passes(s.history) == []
  }

  ghost predicate Undecided(d: Deferred, doneAdded: seq<Callback>, failAdded: seq<Callback>) {
    d.state == Pending && !d.progressLocked && Quiet(d.done, doneAdded) && Quiet(d.fail, failAdded)
  }

  ghost predicate Decided(d: Deferred, side: Side, added: seq<Callback>, args: Args) {
    d.state == Final(side) && d.progressLocked && Won(d.List(side), added, args) && Lost(d.List(Other(side)))
  }

  ghost predicate Inv(d: Deferred, calls: seq<Call>) {
    match FirstSettle(calls)
    case Nobody => Undecided(d, Listeners(DoneSide, calls), Listeners(FailSide, calls))
    case By(side, args) => Decided(d, side, Listeners(side, calls), args)
  }

  /* ---- Adding ---- */

  lemma {:induction false} EntriesMore(a: seq<Callback>, b: seq<Callback>)
    ensures Entries(a + b, 0) == Entries(a, 0) + Entries(b, |a|)
    decreases |b|
  {
    if b == [] {
      assert a + b == a;
    } else {
      assert (a + b)[..|a + b| - 1] == a + b[..|b| - 1];
      EntriesMore(a, b[..|b| - 1]);
    }
  }

  lemma {:induction false} EntryAt(callbacks: seq<Callback>, from: nat, i: nat)
    requires i < |callbacks|
    ensures Entries(callbacks, from)[i] == Entry(callbacks[i], from + i)
    decreases |callbacks|
  {
    if i < |callbacks| - 1 {
      EntryAt(callbacks[..|callbacks| - 1], from, i);
    }
  }

  lemma {:induction false} PushAllAppends(s: State, callbacks: seq<Callback>)
    requires s.list.Some? && !s.options.unique
    ensures var t := PushAll(s, callbacks);
      && t == s.(list := Some(s.list.value + Entries(callbacks, s.history.next)), history := t.history)
      && t.history.next == s.history.next + |callbacks|
      && t.history.finished == s.history.finished && t.history.accepted == s.history.accepted
      && t.history.dropped == s.history.dropped
      && (t.history.current.Some? <==> s.history.current.Some?)
      && (s.history.current.Some? ==>
           t.history.current.value.ran == s.history.current.value.ran &&
             t.history.current.value.args == s.history.current.value.args)
    decreases |callbacks|
  {
    if callbacks == [] {
      assert s.list.value + Entries(callbacks, s.history.next) == s.list.value;
    } else {
      var k := |callbacks| - 1;
      PushAllAppends(s, callbacks[..k]);
      var t, e := PushAll(s, callbacks[..k]), Entry(callbacks[k], s.history.next + k);
      assert Entries(callbacks, s.history.next) == Entries(callbacks[..k], s.history.next) + [e];
      assert s.list.value + Entries(callbacks, s.history.next) == t.list.value + [e];
    }
  }

  lemma QuietAdds(s: State, added: seq<Callback>, callbacks: seq<Callback>)
    requires Quiet(s, added)
    ensures Quiet(AddAll(s, callbacks), added + callbacks)
  {
    PushAllAppends(s, callbacks);
    EntriesMore(added, callbacks);
  }

  lemma LogMore(passes: seq<Pass>, p: Pass)
    ensures Log(passes + [p]) == Log(passes) + p.ran
    ensures forall args :: AllWith(passes + [p], args) <==> AllWith(passes, args) && p.args == args
  {
    assert (passes + [p])[..|passes|] == passes;
  }

  /** While a pass runs, what is added waits at the end of it. */
  lemma WonAddsWhileFiring(s: State, added: seq<Callback>, args: Args, callbacks: seq<Callback>)
    requires Won(s, added, args) && s.firing
    ensures Won(AddAll(s, callbacks), added + callbacks, args)
  {
    PushAllAppends(s, callbacks);
    EntriesMore(added, callbacks);
    SameTold(s, PushAll(s, callbacks));
    AfterMore(Listed(s), Entries(callbacks, |added|), s.firingIndex + 1);
    Assoc(Told(s), Rest(s), Entries(callbacks, |added|));
  }

  lemma SameTold(s: State, t: State)
    requires s.history.finished == t.history.finished && s.history.current.Some? && t.history.current.Some?
    requires s.history.current.value.ran == t.history.current.value.ran &&
      s.history.current.value.args == t.history.current.value.args
    ensures Told(t) == Told(s)
    ensures forall args :: AllWith(Passes(t.history), args) <==> AllWith(Passes(s.history), args)
  {
    LogMore(s.history.finished, s.history.current.value);
    LogMore(t.history.finished, t.history.current.value);
  }

  /** The next callback of a pass. */
  lemma CallNextTells(s: State)
    requires s.history.current.Some? && -1 <= s.firingIndex && s.firingIndex + 1 < |Listed(s)|
    ensures Told(CallNext(s)) == Told(s) + [Listed(s)[s.firingIndex + 1]]
    ensures Told(CallNext(s)) + Rest(CallNext(s)) == Told(s) + Rest(s)
  {
    var t, p, e := CallNext(s), s.history.current.value, Listed(s)[s.firingIndex + 1];
    AfterHead(Listed(s), s.firingIndex + 1);
    assert Rest(s) == [e] + Rest(t);
    LogMore(s.history.finished, p);
    LogMore(s.history.finished, p.(ran := p.ran + [e]));
    Assoc(Log(s.history.finished), p.ran, [e]);
    assert Told(t) == Told(s) + [e];
    Assoc(Told(s), [e], Rest(t));
  }

  lemma WonCallsNext(s: State, added: seq<Callback>, args: Args)
    requires Won(s, added, args) && s.firing && s.firingIndex + 1 < |Listed(s)|
    ensures Won(CallNext(s), added, args) && Proceed(s) == CallNext(s)
  {
    CallNextTells(s);
    LogMore(s.history.finished, s.history.current.value);
    LogMore(s.history.finished, CallNext(s).history.current.value);
  }

  /** After the last callback the list is emptied but the memory stays. */
  lemma WonEnds(s: State, added: seq<Callback>, args: Args)
    requires Won(s, added, args) && s.firing && s.firingIndex + 1 >= |Listed(s)|
    ensures Won(Proceed(s), added, args) && !Proceed(s).firing
  {
    assert Rest(s) == [];
    assert Passes(EndPass(s).history) == Passes(s.history);
  }

  lemma WonProceeds(s: State, added: seq<Callback>, args: Args)
    requires Won(s, added, args) && s.firing
    ensures Won(Proceed(s), added, args)
  {
    if s.firingIndex + 1 < |Listed(s)| {
      WonCallsNext(s, added, args);
    } else {
      WonEnds(s, added, args);
    }
  }

  /** A pass that begins tells nothing yet. */
  lemma StartPassTells(s: State)
    requires s.queue != [] && s.history.current.None?
    ensures Told(StartPass(s)) == Told(s) &&
      Passes(StartPass(s).history) == Passes(s.history) + [StartPass(s).history.current.value]
  {
    assert Passes(s.history) == s.history.finished;
    LogMore(s.history.finished, StartPass(s).history.current.value);
  }

  /** A pass over `callbacks` begins on a list that has told `added` in full. */
  lemma PassBegins(s: State, added: seq<Callback>, args: Args, callbacks: seq<Callback>)
    requires s.options == ONCE_MEMORY && s.firing && s.locked && s.queue == [args] && s.firingIndex == -1
    requires s.list == Some(Entries(callbacks, |added|)) && s.history.current.None?
    requires s.history.next == |added| + |callbacks| && Log(s.history.finished) == Entries(added, 0)
    requires AllWith(s.history.finished, args)
    ensures Won(StartPass(s), added + callbacks, args) && Listed(StartPass(s)) == Listed(s) &&
      StartPass(s).firingIndex == -1
  {
    StartPassTells(s);
    EntriesMore(added, callbacks);
    assert Passes(s.history) == s.history.finished;
    PassHasAll(s);
    PassHolds(s, args);
  }

  lemma {:induction false} PassHasAll(s: State)
    requires s.queue != [] && s.firingIndex == -1 && s.list.Some?
    ensures Rest(StartPass(s)) == Listed(s)
  {
    AfterIsSlice(Listed(s), 0);
  }

  lemma {:induction false} PassHolds(s: State, args: Args)
    requires s.options == ONCE_MEMORY && s.firing && s.locked && s.queue == [args] && s.firingIndex == -1
    requires s.list.Some? && s.history.current.None? && AllWith(s.history.finished, args)
    ensures Holds(StartPass(s), args)
  {
    LogMore(s.history.finished, StartPass(s).history.current.value);
  }

  /** `add` on a quiet list with a memory, up to the start of the pass it causes. */
  function Replay(s: State, args: Args, callbacks: seq<Callback>): State
    requires s.list.Some?
  {
    StartPass(Lit(PushAll(Accept(FromEnd(s), args), callbacks)))
  }

  /** A callback added after the list has gone quiet gets a pass of its own with the memory. */
  lemma WonAddsWhenIdle(s: State, added: seq<Callback>, args: Args, callbacks: seq<Callback>)
    requires Won(s, added, args) && !s.firing
    ensures Won(AddAll(s, callbacks), added + callbacks, args)
  {
    WhenIdle(s, added, args);
    IdleAdds(s, added, args, callbacks);
  }

  lemma IdleAdds(s: State, added: seq<Callback>, args: Args, callbacks: seq<Callback>)
    requires s.options == ONCE_MEMORY && s.list == Some([]) && s.memory == Some(args) && s.queue == [] && !s.firing
    requires s.history.current.None? && s.history.next == |added| && Log(s.history.finished) == Entries(added, 0)
    requires AllWith(s.history.finished, args)
    ensures Won(AddAll(s, callbacks), added + callbacks, args)
  {
    ReplayBegins(s, added, args, callbacks);
    Replays(s, args, callbacks);
    WonProceeds(Replay(s, args, callbacks), added + callbacks, args);
  }

  lemma Replays(s: State, args: Args, callbacks: seq<Callback>)
    requires s.list.Some? && s.memory == Some(args) && !s.firing
    ensures AddAll(s, callbacks) == Proceed(Replay(s, args, callbacks))
  {
  }

  lemma WhenIdle(s: State, added: seq<Callback>, args: Args)
    requires Won(s, added, args) && !s.firing
    ensures s.options == ONCE_MEMORY && s.list == Some([]) && s.memory == Some(args) && s.queue == []
    ensures s.history.current.None? && s.history.next == |added| && Log(s.history.finished) == Entries(added, 0)
    ensures AllWith(s.history.finished, args)
  {
    NothingAfter(s.history.finished);
    assert Passes(s.history) == s.history.finished;
    assert Rest(s) == [];
    NothingAfter(Told(s));
  }

  lemma ReplayBegins(s: State, added: seq<Callback>, args: Args, callbacks: seq<Callback>)
    requires s.options == ONCE_MEMORY && s.list == Some([]) && s.queue == []
    requires s.history.current.None? && s.history.next == |added| && Log(s.history.finished) == Entries(added, 0)
    requires AllWith(s.history.finished, args)
    ensures Replay(s, args, callbacks).firing && Won(Replay(s, args, callbacks), added + callbacks, args)
  {
    ReplayLit(s, args, callbacks);
    PassBegins(Lit(PushAll(Accept(FromEnd(s), args), callbacks)), added, args, callbacks);
  }

  /** `add` on an emptied list queues the memory and lists the new callbacks alone. */
  lemma ReplayLit(s: State, args: Args, callbacks: seq<Callback>)
    requires s.options == ONCE_MEMORY && s.list == Some([]) && s.queue == [] && s.history.current.None?
    ensures var lit := Lit(PushAll(Accept(FromEnd(s), args), callbacks));
      && lit.options == ONCE_MEMORY && lit.firing && lit.locked && lit.queue == [args] && lit.firingIndex == -1
      && lit.list == Some(Entries(callbacks, s.history.next)) && lit.history.current.None?
      && lit.history.next == s.history.next + |callbacks| && lit.history.finished == s.history.finished
  {
    PushAllAppends(Accept(FromEnd(s), args), callbacks);
    NothingBefore(Entries(callbacks, s.history.next));
  }

  /** The first settling call starts the one pass over what has been added. */
  lemma QuietFires(s: State, added: seq<Callback>, args: Args)
    requires Quiet(s, added) && |added| >= 3
    ensures AtInternal(FireNow(s, args), added, args, 0)
  {
    var lit := Lit(Accept(s, args));
    assert [] + added == added;
    PassBegins(lit, [], args, added);
    WonCallsNext(StartPass(lit), added, args);
  }

  /* ---- Settling ---- */

  /** `k` of the internal callbacks have returned, and the next callback is running. */
  ghost predicate AtInternal(s: State, added: seq<Callback>, args: Args, k: nat) {
    && Won(s, added, args) && (k >= |added| ==> !s.firing)
    && (k < |added| ==> s.firing && s.firingIndex == k && Listed(s) == Entries(added, 0))
  }

  lemma NextInternal(s: State, added: seq<Callback>, args: Args, k: nat)
    requires k < |added| && AtInternal(s, added, args, k)
    ensures Running(s) == Some(added[k]) && AtInternal(Proceed(s), added, args, k + 1)
  {
    EntryAt(added, 0, k);
    if k + 1 < |added| {
      WonCallsNext(s, added, args);
    } else {
      WonEnds(s, added, args);
    }
  }

  function Thrice(s: State): State {
    Proceed(Proceed(Proceed(s)))
  }

  lemma InternalsReturn(s: State, added: seq<Callback>, args: Args)
    requires INTERNALS <= added && AtInternal(s, added, args, 0)
    ensures Running(s) == Some(0) && Running(Proceed(s)) == Some(1) && Running(Proceed(Proceed(s))) == Some(2)
    ensures AtInternal(Thrice(s), added, args, 3)
  {
    assert added[0] == INTERNALS[0] && added[1] == INTERNALS[1] && added[2] == INTERNALS[2];
    NextInternal(s, added, args, 0);
    NextInternal(Proceed(s), added, args, 1);
    NextInternal(Proceed(Proceed(s)), added, args, 2);
  }

  /** The three internal callbacks run before any other code, with their effects. */
  lemma InternalsRun(d: Deferred, side: Side)
    requires var s := d.List(side);
      Running(s) == Some(0) && Running(Proceed(s)) == Some(1) && Running(Proceed(Proceed(s))) == Some(2)
    ensures var e := RunInternals(d, side, 3);
      e.List(side) == Thrice(d.List(side)) && e.List(Other(side)) == DisableNow(d.List(Other(side))) &&
        e.state == Final(side) && e.progressLocked
  {
    var s := d.List(side);
    var d1 := Effect(d, side, 0).With(side, Proceed(s));
    var d2 := Effect(d1, side, 1).With(side, Proceed(Proceed(s)));
    var d3 := Effect(d2, side, 2).With(side, Thrice(s));
    assert RunInternals(d, side, 3) == RunInternals(d1, side, 2);
    assert RunInternals(d1, side, 2) == RunInternals(d2, side, 1);
    assert RunInternals(d2, side, 1) == RunInternals(d3, side, 0);
  }

  lemma QuietDisabled(s: State, added: seq<Callback>)
    requires Quiet(s, added)
    ensures Lost(DisableNow(s))
  {
  }

  /* ---- Every run ---- */

  lemma {:induction false} InternalsFirst(side: Side, calls: seq<Call>)
    ensures INTERNALS <= Listeners(side, calls)
    decreases |calls|
  {
    if calls != [] {
      InternalsFirst(side, calls[..|calls| - 1]);
    }
  }

  lemma FreshIsQuiet()
    ensures Quiet(Fresh().done, INTERNALS) && Quiet(Fresh().fail, INTERNALS)
  {
    assert Quiet(Initial(ONCE_MEMORY), []);
    QuietAdds(Initial(ONCE_MEMORY), [], INTERNALS);
    NothingBefore(INTERNALS);
  }

  /** The first settling call decides; the other list is disabled before any other code runs. */
  lemma SettleKeeps(d: Deferred, side: Side, args: Args, added: seq<Callback>, other: seq<Callback>)
    requires INTERNALS <= added && Quiet(d.List(side), added) && Quiet(d.List(Other(side)), other)
    ensures var e := Perform(d, Settle(side, args));
      e.state == Final(side) && e.progressLocked && AtInternal(e.List(side), added, args, 3) &&
        Lost(e.List(Other(side)))
  {
    var fired := FireNow(d.List(side), args);
    QuietFires(d.List(side), added, args);
    InternalsReturn(fired, added, args);
    InternalsRun(d.With(side, fired), side);
    QuietDisabled(d.List(Other(side)), other);
  }

  lemma ListenKeeps(s: State, added: seq<Callback>, args: Args, callbacks: seq<Callback>)
    requires Won(s, added, args)
    ensures Won(AddAll(s, callbacks), added + callbacks, args)
  {
    if s.firing {
      WonAddsWhileFiring(s, added, args, callbacks);
    } else {
      WonAddsWhenIdle(s, added, args, callbacks);
    }
  }

  lemma PendingKeeps(d: Deferred, doneAdded: seq<Callback>, failAdded: seq<Callback>, call: Call)
    requires Undecided(d, doneAdded, failAdded) && INTERNALS <= doneAdded && INTERNALS <= failAdded
    ensures var e := Perform(d, call);
      if call.Settle? then Decided(e, call.side, if call.side == DoneSide then doneAdded else failAdded, call.args)
      else Undecided(e, HeardAfter(DoneSide, doneAdded, call), HeardAfter(FailSide, failAdded, call))
  {
    match call
    case Settle(DoneSide, args) => SettleKeeps(d, DoneSide, args, doneAdded, failAdded);
    case Settle(FailSide, args) => SettleKeeps(d, FailSide, args, failAdded, doneAdded);
    case Listen(DoneSide, callbacks) => QuietAdds(d.done, doneAdded, callbacks);
    case Listen(FailSide, callbacks) => QuietAdds(d.fail, failAdded, callbacks);
    case Returned =>
  }

  lemma DecidedListens(d: Deferred, side: Side, added: seq<Callback>, args: Args, callbacks: seq<Callback>)
    requires Decided(d, side, added, args)
    ensures Decided(d.With(side, AddAll(d.List(side), callbacks)), side, added + callbacks, args)
  {
    ListenKeeps(d.List(side), added, args, callbacks);
  }

  lemma DecidedReturns(d: Deferred, side: Side, added: seq<Callback>, args: Args)
    requires Decided(d, side, added, args) && d.List(side).firing
    ensures Decided(d.With(side, Proceed(d.List(side))), side, added, args)
  {
    WonProceeds(d.List(side), added, args);
  }

  lemma SettledKeeps(d: Deferred, side: Side, added: seq<Callback>, args: Args, call: Call)
    requires Decided(d, side, added, args)
    ensures Decided(Perform(d, call), side, HeardAfter(side, added, call), args)
  {
    match call
    case Settle(_, _) =>
    case Listen(s, callbacks) =>
      if s == side {
        DecidedListens(d, side, added, args, callbacks);
      } else {
        assert AddAll(d.List(s), callbacks) == d.List(s);
      }
    case Returned =>
      if d.List(side).firing {
        DecidedReturns(d, side, added, args);
      }
  }

  /** Over every run: the state is pending until the first settling call and then what that call
      made it. The callbacks of its side, added before or after, run exactly once each, in the
      order of addition, with that call's arguments; those of the other side never run. */
  lemma {:induction false} EveryRun(calls: seq<Call>)
    ensures Inv(Run(calls), calls)
    decreases |calls|
  {
    if calls == [] {
      FreshIsQuiet();
    } else {
      var before, call := calls[..|calls| - 1], calls[|calls| - 1];
      EveryRun(before);
      match FirstSettle(before)
      case Nobody =>
        InternalsFirst(DoneSide, before);
        InternalsFirst(FailSide, before);
        PendingKeeps(Run(before), Listeners(DoneSide, before), Listeners(FailSide, before), call);
      case By(side, args) => SettledKeeps(Run(before), side, Listeners(side, before), args, call);
    }
  }

  lemma {:induction false} FirstSettleStays(calls: seq<Call>, more: seq<Call>)
    requires FirstSettle(calls).By?
    ensures FirstSettle(calls + more) == FirstSettle(calls)
    decreases |more|
  {
    if more == [] {
      assert calls + more == calls;
    } else {
      assert (calls + more)[..|calls + more| - 1] == calls + more[..|more| - 1];
      FirstSettleStays(calls, more[..|more| - 1]);
    }
  }

  /** The state leaves "pending" at most once. */
  lemma SettlesOnce(calls: seq<Call>, more: seq<Call>)
    requires Run(calls).state != Pending
    ensures Run(calls + more).state == Run(calls).state
  {
    EveryRun(calls);
    EveryRun(calls + more);
    FirstSettleStays(calls, more);
  }

  /** Once no callback is running, every callback of the winning side has run: the log lists them
      all, once each, in the order of addition, and the log of the other side is empty. */
  lemma AllToldWhenQuiet(calls: seq<Call>)
    requires FirstSettle(calls).By? && !Run(calls).List(FirstSettle(calls).side).firing
    ensures var d, side := Run(calls), FirstSettle(calls).side;
      Told(d.List(side)) == Entries(Listeners(side, calls), 0) && Told(d.List(Other(side))) == []
  {
    EveryRun(calls);
    var side := FirstSettle(calls).side;
    WonToldAll(Run(calls).List(side), Listeners(side, calls), FirstSettle(calls).args);
  }

  lemma WonToldAll(s: State, added: seq<Callback>, args: Args)
    requires Won(s, added, args) && !s.firing
    ensures Told(s) == Entries(added, 0)
  {
    assert Rest(s) == [];
    NothingAfter(Told(s));
  }
}
