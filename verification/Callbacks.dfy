/** `jQuery.Callbacks` without `stopOnFalse` and `empty`. A callback may call back into the
    list at will, so a run is a sequence of events in which `Return` ends the callback that
    is running. While a pass runs no second pass starts, so between two events the machine
    is either idle or at one callback: nothing else of `fire` has to be remembered. */
module Callbacks {
  import opened Sequences
  import opened Wrappers

  type Callback = nat
  /** What callbacks are called with. Nothing depends on the values but `when`, which makes arrays. */
  datatype Value = Undefined | Number(n: int) | Array(items: seq<Value>)
  type Args = seq<Value>

  /** A list element. `id` counts the additions; it is history that no branch reads. */
  datatype Entry = Entry(callback: Callback, id: nat)

  /** History of one pass: the entries it met (on the list when it began, from its starting
      point on, or added while it ran), those it ran, and those removed before their turn. */
  datatype Pass = Pass(args: Args, seen: seq<Entry>, ran: seq<Entry>, gone: seq<Entry>)

  datatype Options = Options(once: bool, memory: bool, unique: bool)

  /** History of a list: the calls it accepted, those `disable` dropped, and its passes. */
  datatype History = History(next: nat, accepted: seq<Args>, dropped: seq<Args>, finished: seq<Pass>,
    current: Option<Pass>)

  /** The closure variables; `list` is `None` for the empty string. */
  datatype State = State(
    options: Options,
    list: Option<seq<Entry>>,
    queue: seq<Args>,
    firingIndex: int,
    firing: bool,
    fired: bool,
    locked: bool,
    memory: Option<Args>,
    history: History)

  datatype Event =
    | Add(callbacks: seq<Callback>)
    | Remove(callback: Callback)
    | FireWith(args: Args)
    | Return
    | Disable
    | Lock

  function Initial(options: Options): State {
    State(options, Some([]), [], -1, false, false, false, None, History(0, [], [], [], None))
  }

  function Listed(s: State): seq<Entry> {
    if s.list.Some? then s.list.value else []
  }

  /** `list[k..]`, built up from the front. */
  function After(list: seq<Entry>, k: nat): seq<Entry> {
    if |list| <= k then [] else After(list[..|list| - 1], k) + [list[|list| - 1]]
  }

  lemma {:induction false} AfterIsSlice(list: seq<Entry>, k: nat)
    requires k <= |list|
    ensures After(list, k) == list[k..]
    decreases |list|
  {
    if k < |list| {
      AfterIsSlice(list[..|list| - 1], k);
    }
  }

  /** The entries whose turn has not come in the current pass. */
  function Rest(s: State): seq<Entry> {
    if -1 <= s.firingIndex < |Listed(s)| then After(Listed(s), s.firingIndex + 1) else []
  }

  lemma {:induction false} AfterHead(list: seq<Entry>, k: nat)
    requires k < |list|
    ensures After(list, k) == [list[k]] + After(list, k + 1)
  {
    AfterIsSlice(list, k);
    AfterIsSlice(list, k + 1);
  }

  lemma {:induction false} AfterMore(list: seq<Entry>, more: seq<Entry>, k: nat)
    requires k <= |list|
    ensures After(list + more, k) == After(list, k) + more
  {
    AfterIsSlice(list, k);
    AfterIsSlice(list + more, k);
  }

  lemma AfterExactly(a: seq<Entry>, b: seq<Entry>)
    ensures After(a + b, |a|) == b
  {
    AfterIsSlice(a + b, |a|);
  }

  lemma {:induction false} AfterSplits(list: seq<Entry>, k: nat)
    requires k <= |list|
    ensures list == list[..k] + After(list, k)
  {
    AfterIsSlice(list, k);
  }

  lemma {:induction false} AfterBelow(list: seq<Entry>, k: nat, bound: nat)
    requires Below(list, bound)
    ensures Below(After(list, k), bound)
    decreases |list|
  {
    if k < |list| {
      AfterBelow(list[..|list| - 1], k, bound);
    }
  }

  lemma {:induction false} AfterOrdered(list: seq<Entry>, k: nat, bound: nat)
    requires Ordered(list, bound)
    ensures Ordered(After(list, k), bound)
    decreases |list|
  {
    AfterBelow(list, k, bound);
    if k < |list| {
      AfterOrdered(list[..|list| - 1], k, list[|list| - 1].id);
    }
  }

  /* ---- Keeping the history ---- */

  function Began(h: History, args: Args, met: seq<Entry>): History {
    h.(current := Some(Pass(args, met, [], [])))
  }

  function Ended(h: History): History {
    if h.current.Some? then h.(finished := h.finished + [h.current.value], current := None) else h
  }

  function RanNow(h: History, e: Entry): History {
    if h.current.Some? then h.(current := Some(h.current.value.(ran := h.current.value.ran + [e]))) else h
  }

  function Added(h: History, e: Entry): History {
    var current := if h.current.Some? then Some(h.current.value.(seen := h.current.value.seen + [e])) else None;
    h.(next := h.next + 1, current := current)
  }

  function Left(h: History, entries: seq<Entry>): History {
    if h.current.Some? then h.(current := Some(h.current.value.(gone := h.current.value.gone + entries))) else h
  }

  function Accepting(h: History, args: Args): History {
    h.(accepted := h.accepted + [args])
  }

  function Dropping(h: History, calls: seq<Args>): History {
    h.(dropped := h.dropped + calls)
  }

  /* ---- The pieces of `fire` ---- */

  function StartPass(s: State): State
    requires s.queue != []
  {
    s.(memory := Some(s.queue[0]), queue := s.queue[1..], history := Began(s.history, s.queue[0], Rest(s)))
  }

  function CallNext(s: State): State
    requires 0 <= s.firingIndex + 1 < |Listed(s)|
  {
    s.(firingIndex := s.firingIndex + 1, history := RanNow(s.history, Listed(s)[s.firingIndex + 1]))
  }

  function EndPass(s: State): State {
    s.(firingIndex := -1, history := Ended(s.history))
  }

  /** From inside the loops to the next callback, or to the end of `fire`. */
  function Proceed(s: State): State
    decreases |s.queue|
  {
    if 0 <= s.firingIndex + 1 < |Listed(s)| then CallNext(s)
    else if s.queue == [] then Finish(EndPass(s))
    else Proceed(StartPass(EndPass(s)))
  }

  function Finish(s: State): State {
    var memory := if s.options.memory then s.memory else None;
    var list := if s.locked then (if memory.Some? then Some([]) else None) else s.list;
    s.(memory := memory, firing := false, list := list)
  }

  function Lit(s: State): State {
    s.(locked := s.options.once, fired := true, firing := true)
  }

  function Fire(s: State): State
    requires s.queue != []
  {
    Proceed(StartPass(Lit(s)))
  }

  /* ---- The public operations ---- */

  predicate HasCallback(list: seq<Entry>, callback: Callback) {
    exists i :: 0 <= i < |list| && list[i].callback == callback
  }

  function Push(s: State, callback: Callback): State
    requires s.list.Some?
  {
    if s.options.unique && HasCallback(s.list.value, callback) then s
    else
      var e := Entry(callback, s.history.next);
      s.(list := Some(s.list.value + [e]), history := Added(s.history, e))
  }

  function PushAll(s: State, callbacks: seq<Callback>): (t: State)
    requires s.list.Some?
    ensures t.list.Some? && t.queue == s.queue
  {
    if callbacks == [] then s else
      Push(PushAll(s, callbacks[..|callbacks| - 1]), callbacks[|callbacks| - 1])
  }

  function Accept(s: State, args: Args): State {
    s.(queue := s.queue + [args], history := Accepting(s.history, args))
  }

  /** A pass for the new entries only. */
  function FromEnd(s: State): State {
    s.(firingIndex := |Listed(s)| - 1)
  }

  function AddAll(s: State, callbacks: seq<Callback>): State {
    if s.list.None? then s
    else if s.memory.Some? && !s.firing then
      Fire(PushAll(Accept(FromEnd(s), s.memory.value), callbacks))
    else PushAll(s, callbacks)
  }

  /** The entries of `list` with another callback. */
  function Without(list: seq<Entry>, callback: Callback): seq<Entry> {
    if list == [] then [] else
      Without(list[..|list| - 1], callback) + (if list[|list| - 1].callback == callback then [] else [list[|list| - 1]])
  }

  /** The entries of `list` with this callback. */
  function Matching(list: seq<Entry>, callback: Callback): seq<Entry> {
    if list == [] then [] else
      Matching(list[..|list| - 1], callback) +
        (if list[|list| - 1].callback == callback then [list[|list| - 1]] else [])
  }

  /** Removes every occurrence; those already passed move `firingIndex` back. */
  function RemoveAll(s: State, callback: Callback): State
    requires s.list.Some? ==> -1 <= s.firingIndex < |s.list.value|
  {
    if s.list.None? then s else
      var passed, rest := s.list.value[..s.firingIndex + 1], Rest(s);
      var passed', rest' := Without(passed, callback), Without(rest, callback);
      s.(list := Some(passed' + rest'), firingIndex := |passed'| - 1,
        history := Left(s.history, Matching(rest, callback)))
  }

  function FireNow(s: State, args: Args): State {
    if s.locked then s else if s.firing then Accept(s, args) else Fire(Accept(s, args))
  }

  function DisableNow(s: State): State {
    s.(locked := true, queue := [], list := None, memory := None,
       history := Dropping(Left(s.history, Rest(s)), s.queue))
  }

  function LockNow(s: State): State {
    if s.memory.None? then DisableNow(s) else s.(locked := true)
  }

  function Step(s: State, e: Event): State
    requires s.list.Some? ==> -1 <= s.firingIndex < |s.list.value|
  {
    match e
    case Add(callbacks) => AddAll(s, callbacks)
    case Remove(callback) => RemoveAll(s, callback)
    case FireWith(args) => FireNow(s, args)
    case Return => if s.firing then Proceed(s) else s
    case Disable => DisableNow(s)
    case Lock => LockNow(s)
  }

  /* ---- What every step keeps ---- */

  ghost predicate Below(list: seq<Entry>, bound: nat) {
    list != [] ==> list[|list| - 1].id < bound && Below(list[..|list| - 1], bound)
  }

  /** The numbers increase: list order is the order of addition, and no entry occurs twice. */
  ghost predicate Sorted(list: seq<Entry>) {
    list != [] ==> Below(list[..|list| - 1], list[|list| - 1].id) && Sorted(list[..|list| - 1])
  }

  /** `met` without the entries of `gone`, in order. */
  function Minus(met: seq<Entry>, gone: seq<Entry>): seq<Entry> {
    if met == [] then [] else
      Minus(met[..|met| - 1], gone) + (if met[|met| - 1] in gone then [] else [met[|met| - 1]])
  }

  /** Nothing was skipped and nothing ran twice: the entries the pass met, less those removed
      before their turn, are the entries that ran, in list order. */
  ghost predicate Complete(p: Pass) {
    Sorted(p.seen) && Minus(p.seen, p.gone) == p.ran
  }

  /** The same for a pass that still has the entries of `rest` to run. */
  ghost predicate Underway(p: Pass, rest: seq<Entry>) {
    Sorted(p.seen) && Minus(p.seen, p.gone) == p.ran + rest
  }

  ghost predicate Ordered(list: seq<Entry>, bound: nat) {
    Sorted(list) && Below(list, bound)
  }

  function AllArgs(passes: seq<Pass>): (all: seq<Args>)
    ensures |all| == |passes|
  {
    if passes == [] then [] else AllArgs(passes[..|passes| - 1]) + [passes[|passes| - 1].args]
  }

  /** The passes begun so far, in order. */
  function Passes(h: History): seq<Pass> {
    h.finished + if h.current.Some? then [h.current.value] else []
  }

  /** Accepted calls are run in the order of the calls, one pass each; only `disable` drops any. */
  ghost predicate Queued(s: State) {
    && AllArgs(Passes(s.history)) + s.history.dropped + s.queue == s.history.accepted
    && (s.list.Some? ==> s.history.dropped == [])
    && (s.list.None? ==> s.queue == [] && s.locked && s.memory.None?)
  }

  ghost predicate AllComplete(passes: seq<Pass>) {
    passes != [] ==> Complete(passes[|passes| - 1]) && AllComplete(passes[..|passes| - 1])
  }

  ghost predicate AtCallback(s: State, p: Pass) {
    Underway(p, Rest(s)) && Below(p.seen, s.history.next) && Below(p.gone, s.history.next) &&
      (s.list.Some? ==> s.memory == Some(p.args))
  }

  ghost predicate Inv(s: State) {
    && Ordered(Listed(s), s.history.next) && Queued(s) && AllComplete(s.history.finished)
    && -1 <= s.firingIndex && (s.list.Some? ==> s.firingIndex < |s.list.value|)
    && (s.firing <==> s.history.current.Some?)
    && (s.firing ==> AtCallback(s, s.history.current.value))
    && (!s.firing ==> s.queue == [] && s.firingIndex == -1)
  }

  /* What is left of a sequence. */

  lemma MinusMore(met: seq<Entry>, e: Entry, gone: seq<Entry>)
    ensures Minus(met + [e], gone) == Minus(met, gone) + if e in gone then [] else [e]
  {
    assert (met + [e])[..|met|] == met;
  }

  lemma {:induction false} MinusConcat(a: seq<Entry>, b: seq<Entry>, gone: seq<Entry>)
    ensures Minus(a + b, gone) == Minus(a, gone) + Minus(b, gone)
    decreases |b|
  {
    if b == [] {
      assert a + b == a;
    } else {
      var k := |b| - 1;
      assert a + b == (a + b[..k]) + [b[k]];
      MinusMore(a + b[..k], b[k], gone);
      MinusConcat(a, b[..k], gone);
    }
  }

  lemma {:induction false} MinusTwice(met: seq<Entry>, gone: seq<Entry>, left: seq<Entry>)
    ensures Minus(met, gone + left) == Minus(Minus(met, gone), left)
    decreases |met|
  {
    if met != [] {
      var k := |met| - 1;
      Snoc(Minus(met[..k], gone), met[k]);
      MinusTwice(met[..k], gone, left);
      MinusMore(Minus(met[..k], gone), met[k], left);
    }
  }

  lemma {:induction false} MinusBelow(met: seq<Entry>, gone: seq<Entry>, bound: nat)
    requires Below(met, bound)
    ensures Below(Minus(met, gone), bound)
    decreases |met|
  {
    if met != [] {
      Snoc(Minus(met[..|met| - 1], gone), met[|met| - 1]);
      MinusBelow(met[..|met| - 1], gone, bound);
    }
  }

  lemma {:induction false} MinusSorted(met: seq<Entry>, gone: seq<Entry>)
    requires Sorted(met)
    ensures Sorted(Minus(met, gone))
    decreases |met|
  {
    if met != [] {
      Snoc(Minus(met[..|met| - 1], gone), met[|met| - 1]);
      MinusSorted(met[..|met| - 1], gone);
      MinusBelow(met[..|met| - 1], gone, met[|met| - 1].id);
    }
  }

  lemma {:induction false} MinusNothing(met: seq<Entry>, gone: seq<Entry>)
    requires forall e :: e in met ==> e !in gone
    ensures Minus(met, gone) == met
    decreases |met|
  {
    if met != [] {
      var k := |met| - 1;
      assert met == met[..k] + [met[k]];
      MinusNothing(met[..k], gone);
    }
  }

  lemma {:induction false} MinusIsWithout(list: seq<Entry>, left: seq<Entry>, callback: Callback)
    requires forall e :: e in list ==> (e in left <==> e.callback == callback)
    ensures Minus(list, left) == Without(list, callback)
    decreases |list|
  {
    if list != [] {
      var k := |list| - 1;
      assert list[k] in list && forall e :: e in list[..k] ==> e in list;
      MinusIsWithout(list[..k], left, callback);
    }
  }

  lemma {:induction false} MinusAll(list: seq<Entry>, left: seq<Entry>)
    requires forall e :: e in list ==> e in left
    ensures Minus(list, left) == []
    decreases |list|
  {
    if list != [] {
      assert list[|list| - 1] in list && forall e :: e in list[..|list| - 1] ==> e in list;
      MinusAll(list[..|list| - 1], left);
    }
  }

  /* How a pass changes. */

  /** The next callback runs: the first of the rest joins those that ran. */
  lemma TakeTurn(p: Pass, e: Entry, later: seq<Entry>)
    requires Underway(p, [e] + later)
    ensures Underway(p.(ran := p.ran + [e]), later)
  {
    Assoc(p.ran, [e], later);
  }

  lemma {:induction false} NotBelowItself(list: seq<Entry>, e: Entry)
    requires Below(list, e.id)
    ensures e !in list
    decreases |list|
  {
    if list != [] {
      NotBelowItself(list[..|list| - 1], e);
      assert list == list[..|list| - 1] + [list[|list| - 1]];
    }
  }

  lemma {:induction false} BelowMore(list: seq<Entry>, bound: nat, more: nat)
    requires Below(list, bound) && bound <= more
    ensures Below(list, more)
    decreases |list|
  {
    if list != [] {
      BelowMore(list[..|list| - 1], bound, more);
    }
  }

  lemma OrderedMore(list: seq<Entry>, e: Entry)
    requires Ordered(list, e.id)
    ensures Ordered(list + [e], e.id + 1)
  {
    assert (list + [e])[..|list|] == list;
    BelowMore(list, e.id, e.id + 1);
  }

  /** An entry added while a pass runs waits for its turn at the end. */
  lemma JoinPass(p: Pass, rest: seq<Entry>, e: Entry)
    requires Underway(p, rest) && Below(p.seen, e.id) && Below(p.gone, e.id)
    ensures Underway(p.(seen := p.seen + [e]), rest + [e]) && Below(p.seen + [e], e.id + 1) && Below(p.gone, e.id + 1)
  {
    OrderedMore(p.seen, e);
    BelowMore(p.gone, e.id, e.id + 1);
    NotBelowItself(p.gone, e);
    MinusMore(p.seen, e, p.gone);
    Assoc(p.ran, rest, [e]);
  }

  /** Entries leave the list before their turn; those that ran are not among them. */
  lemma LeavePass(p: Pass, rest: seq<Entry>, left: seq<Entry>)
    requires Underway(p, rest) && forall e :: e in left ==> e in rest
    ensures Underway(p.(gone := p.gone + left), Minus(rest, left))
  {
    MinusSorted(p.seen, p.gone);
    SortedDisjoint(p.ran, rest);
    MinusTwice(p.seen, p.gone, left);
    MinusConcat(p.ran, rest, left);
    MinusNothing(p.ran, left);
  }

  lemma {:induction false} SortedDisjoint(a: seq<Entry>, b: seq<Entry>)
    requires Sorted(a + b)
    ensures forall e :: e in a ==> e !in b
    decreases |b|
  {
    if b != [] {
      var k := |b| - 1;
      assert (a + b)[..|a + b| - 1] == a + b[..k];
      NotBelowItself(a + b[..k], b[k]);
      SortedDisjoint(a, b[..k]);
      assert b == b[..k] + [b[k]];
    }
  }

  lemma {:induction false} BelowConcat(a: seq<Entry>, b: seq<Entry>, bound: nat)
    requires Below(a, bound) && Below(b, bound)
    ensures Below(a + b, bound)
    decreases |b|
  {
    if b == [] {
      assert a + b == a;
    } else {
      assert (a + b)[..|a + b| - 1] == a + b[..|b| - 1];
      BelowConcat(a, b[..|b| - 1], bound);
    }
  }

  /* The list operations. */

  lemma {:induction false} WithoutBelow(list: seq<Entry>, callback: Callback, bound: nat)
    requires Below(list, bound)
    ensures Below(Without(list, callback), bound) && Below(Matching(list, callback), bound)
    decreases |list|
  {
    if list != [] {
      Snoc(Without(list[..|list| - 1], callback), list[|list| - 1]);
      Snoc(Matching(list[..|list| - 1], callback), list[|list| - 1]);
      WithoutBelow(list[..|list| - 1], callback, bound);
    }
  }

  lemma {:induction false} WithoutOrdered(list: seq<Entry>, callback: Callback, bound: nat)
    requires Ordered(list, bound)
    ensures Ordered(Without(list, callback), bound)
    decreases |list|
  {
    WithoutBelow(list, callback, bound);
    if list != [] {
      Snoc(Without(list[..|list| - 1], callback), list[|list| - 1]);
      WithoutOrdered(list[..|list| - 1], callback, list[|list| - 1].id);
    }
  }

  lemma {:induction false} WithoutConcat(a: seq<Entry>, b: seq<Entry>, callback: Callback)
    ensures Without(a + b, callback) == Without(a, callback) + Without(b, callback)
    decreases |b|
  {
    if b == [] {
      assert a + b == a;
    } else {
      assert (a + b)[..|a + b| - 1] == a + b[..|b| - 1];
      WithoutConcat(a, b[..|b| - 1], callback);
    }
  }

  lemma {:induction false} MatchingKeeps(list: seq<Entry>, callback: Callback)
    ensures forall e :: e in Matching(list, callback) <==> e in list && e.callback == callback
    decreases |list|
  {
    if list != [] {
      var k := |list| - 1;
      MatchingKeeps(list[..k], callback);
      assert list == list[..k] + [list[k]];
    }
  }

  /* The operations on the whole state. */

  /** Choosing the next callback. */
  lemma CallNextKeeps(s: State)
    requires Inv(s) && s.firing && s.firingIndex + 1 < |Listed(s)|
    ensures Inv(Proceed(s))
  {
    CalledAtCallback(s);
    SameArgs(s.history, CallNext(s).history);
  }

  lemma CalledAtCallback(s: State)
    requires -1 <= s.firingIndex && s.firingIndex + 1 < |Listed(s)|
    requires s.history.current.Some? && AtCallback(s, s.history.current.value)
    ensures var t := CallNext(s); AtCallback(t, t.history.current.value)
  {
    var list, k := Listed(s), s.firingIndex + 1;
    AfterHead(list, k);
    TakeTurn(s.history.current.value, list[k], After(list, k + 1));
  }

  /** At the end of a pass nothing is left to run. */
  lemma EndPassKeeps(s: State)
    requires Inv(s) && s.firing && s.firingIndex + 1 >= |Listed(s)|
    ensures var h := Ended(s.history); Passes(h) == Passes(s.history) && AllComplete(h.finished)
  {
    assert Rest(s) == [];
    if s.history.current.Some? {
      var p := s.history.current.value;
      assert p.ran + [] == p.ran;
      assert (s.history.finished + [p])[..|s.history.finished|] == s.history.finished;
    }
  }

  lemma {:induction false} ProceedKeeps(s: State)
    requires Inv(s) && s.firing
    ensures Inv(Proceed(s))
    decreases |s.queue|
  {
    if s.firingIndex + 1 < |Listed(s)| {
      CallNextKeeps(s);
    } else {
      EndPassKeeps(s);
      if s.queue != [] {
        StartPassKeeps(EndPass(s));
        ProceedKeeps(StartPass(EndPass(s)));
      }
    }
  }

  lemma AllArgsMore(passes: seq<Pass>, p: Pass)
    ensures AllArgs(passes + [p]) == AllArgs(passes) + [p.args]
  {
    assert (passes + [p])[..|passes|] == passes;
  }

  lemma {:induction false} AllArgsAt(passes: seq<Pass>, i: nat)
    requires i < |passes|
    ensures AllArgs(passes)[i] == passes[i].args
    decreases |passes|
  {
    if i < |passes| - 1 {
      AllArgsAt(passes[..|passes| - 1], i);
    }
  }

  /** Changing the current pass, other than its arguments, changes no arguments. */
  lemma SameArgs(h: History, k: History)
    requires h.finished == k.finished && (h.current.Some? <==> k.current.Some?)
    requires h.current.Some? ==> h.current.value.args == k.current.value.args
    ensures AllArgs(Passes(h)) == AllArgs(Passes(k))
  {
    if h.current.Some? {
      AllArgsMore(h.finished, h.current.value);
      AllArgsMore(h.finished, k.current.value);
    }
  }

  /** A pass that starts finds every entry from the starting point on still to run. */
  lemma StartPassKeeps(s: State)
    requires Ordered(Listed(s), s.history.next) && Queued(s) && AllComplete(s.history.finished)
    requires s.queue != [] && s.firing && s.history.current.None? && -1 <= s.firingIndex
    requires s.list.Some? ==> s.firingIndex < |Listed(s)|
    ensures Inv(StartPass(s))
  {
    var t := StartPass(s);
    AllArgsMore(s.history.finished, t.history.current.value);
    QueueMoves(AllArgs(s.history.finished), s.queue);
    Snoc(s.history.finished, t.history.current.value);
    StartedAtCallback(s);
  }

  lemma StartedAtCallback(s: State)
    requires Ordered(Listed(s), s.history.next) && s.queue != [] && -1 <= s.firingIndex
    ensures AtCallback(StartPass(s), StartPass(s).history.current.value)
  {
    AfterOrdered(Listed(s), s.firingIndex + 1, s.history.next);
    Begun(StartPass(s).history.current.value, Rest(s));
  }

  lemma QueueMoves(started: seq<Args>, queue: seq<Args>)
    requires queue != []
    ensures started + [] + queue == started + [queue[0]] + [] + queue[1..]
  {
  }

  lemma Begun(p: Pass, rest: seq<Entry>)
    requires p.seen == rest && p.ran == [] && p.gone == [] && Sorted(rest)
    ensures Underway(p, rest)
  {
    MinusNothing(rest, []);
    assert [] + rest == rest;
  }

  lemma FireKeeps(s: State)
    requires Ordered(Listed(s), s.history.next) && Queued(s) && AllComplete(s.history.finished)
    requires s.queue != [] && s.history.current.None? && s.list.Some? && -1 <= s.firingIndex < |Listed(s)|
    ensures Inv(Fire(s))
  {
    StartPassKeeps(Lit(s));
    ProceedKeeps(StartPass(Lit(s)));
  }

  /** What adding needs of the state, also between the two halves of `add`. */
  ghost predicate Addable(s: State) {
    && s.list.Some? && Ordered(Listed(s), s.history.next) && Queued(s) && AllComplete(s.history.finished)
    && -1 <= s.firingIndex < |s.list.value|
    && (s.firing <==> s.history.current.Some?)
    && (s.firing ==> AtCallback(s, s.history.current.value))
  }

  lemma PushKeeps(s: State, callback: Callback)
    requires Addable(s)
    ensures Addable(Push(s, callback))
  {
    var t, e := Push(s, callback), Entry(callback, s.history.next);
    if t != s {
      OrderedMore(Listed(s), e);
      SameArgs(s.history, t.history);
      if s.firing {
        PushedAtCallback(s, e);
      }
    }
  }

  lemma PushedAtCallback(s: State, e: Entry)
    requires s.list.Some? && -1 <= s.firingIndex < |s.list.value|
    requires s.history.current.Some? && AtCallback(s, s.history.current.value) && e.id == s.history.next
    ensures var t := s.(list := Some(s.list.value + [e]), history := Added(s.history, e));
      AtCallback(t, t.history.current.value)
  {
    var p, t := s.history.current.value, s.(list := Some(s.list.value + [e]), history := Added(s.history, e));
    JoinPass(p, Rest(s), e);
    AfterMore(Listed(s), [e], s.firingIndex + 1);
    assert Rest(t) == Rest(s) + [e];
    assert t.history.current.value == p.(seen := p.seen + [e]);
  }

  lemma {:induction false} PushAllKeeps(s: State, callbacks: seq<Callback>)
    requires Addable(s)
    ensures Addable(PushAll(s, callbacks))
    ensures var t := PushAll(s, callbacks); t.firing == s.firing && t.firingIndex == s.firingIndex
    decreases |callbacks|
  {
    if callbacks != [] {
      PushAllKeeps(s, callbacks[..|callbacks| - 1]);
      PushKeeps(PushAll(s, callbacks[..|callbacks| - 1]), callbacks[|callbacks| - 1]);
    }
  }

  lemma AcceptKeeps(s: State, args: Args)
    requires Queued(s) && s.list.Some?
    ensures Queued(Accept(s, args))
  {
    assert Passes(Accept(s, args).history) == Passes(s.history);
  }

  lemma AddKeeps(s: State, callbacks: seq<Callback>)
    requires Inv(s)
    ensures Inv(AddAll(s, callbacks))
  {
    if s.list.Some? {
      if s.memory.Some? && !s.firing {
        var t := Accept(FromEnd(s), s.memory.value);
        AcceptKeeps(FromEnd(s), s.memory.value);
        PushAllKeeps(t, callbacks);
        FireKeeps(PushAll(t, callbacks));
      } else {
        PushAllKeeps(s, callbacks);
      }
    }
  }

  lemma RemovedOrder(s: State, callback: Callback)
    requires s.list.Some? && -1 <= s.firingIndex < |s.list.value| && Ordered(s.list.value, s.history.next)
    ensures var t := RemoveAll(s, callback);
      t.list.Some? && t.list.value == Without(s.list.value, callback) && Ordered(t.list.value, s.history.next)
  {
    AfterSplits(s.list.value, s.firingIndex + 1);
    WithoutConcat(s.list.value[..s.firingIndex + 1], Rest(s), callback);
    WithoutOrdered(s.list.value, callback, s.history.next);
  }

  lemma RemovedQueue(s: State, callback: Callback)
    requires s.list.Some? && -1 <= s.firingIndex < |s.list.value| && Queued(s)
    ensures Queued(RemoveAll(s, callback))
  {
    SameArgs(s.history, RemoveAll(s, callback).history);
  }

  /** What is left to run is what was left, without the callback. */
  lemma RemovedRest(s: State, callback: Callback)
    requires s.list.Some? && -1 <= s.firingIndex < |s.list.value|
    ensures var t := RemoveAll(s, callback); -1 <= t.firingIndex < |Listed(t)| && Rest(t) == Without(Rest(s), callback)
  {
    var passed, rest := Without(s.list.value[..s.firingIndex + 1], callback), Without(Rest(s), callback);
    AfterExactly(passed, rest);
    WithoutNoLonger(s.list.value[..s.firingIndex + 1], callback);
  }

  lemma {:induction false} WithoutNoLonger(list: seq<Entry>, callback: Callback)
    ensures |Without(list, callback)| <= |list|
    decreases |list|
  {
    if list != [] {
      WithoutNoLonger(list[..|list| - 1], callback);
    }
  }

  lemma RemovedAtCallback(s: State, callback: Callback)
    requires s.list.Some? && -1 <= s.firingIndex < |s.list.value| && Below(s.list.value, s.history.next)
    requires s.history.current.Some? && AtCallback(s, s.history.current.value)
    ensures var t := RemoveAll(s, callback); AtCallback(t, t.history.current.value)
  {
    AfterBelow(s.list.value, s.firingIndex + 1, s.history.next);
    RemovedFromPass(s.history.current.value, Rest(s), callback, s.history.next);
    RemovedRest(s, callback);
  }

  lemma RemoveKeeps(s: State, callback: Callback)
    requires Inv(s) && s.list.Some?
    ensures Inv(RemoveAll(s, callback))
  {
    RemovedOrder(s, callback);
    RemovedQueue(s, callback);
    RemovedRest(s, callback);
    if s.firing {
      RemovedAtCallback(s, callback);
    }
  }

  lemma RemovedFromPass(p: Pass, rest: seq<Entry>, callback: Callback, bound: nat)
    requires Underway(p, rest) && Below(p.gone, bound) && Below(rest, bound)
    ensures Underway(p.(gone := p.gone + Matching(rest, callback)), Without(rest, callback))
    ensures Below(p.gone + Matching(rest, callback), bound)
  {
    MatchingKeeps(rest, callback);
    MinusIsWithout(rest, Matching(rest, callback), callback);
    LeavePass(p, rest, Matching(rest, callback));
    WithoutBelow(rest, callback, bound);
    BelowConcat(p.gone, Matching(rest, callback), bound);
  }

  lemma FireNowKeeps(s: State, args: Args)
    requires Inv(s)
    ensures Inv(FireNow(s, args))
  {
    if !s.locked {
      AcceptKeeps(s, args);
      if !s.firing {
        FireKeeps(Accept(s, args));
      }
    }
  }

  lemma DisableKeeps(s: State)
    requires Inv(s)
    ensures Inv(DisableNow(s))
  {
    SameArgs(s.history, DisableNow(s).history);
    if s.firing {
      DisabledAtCallback(s);
    }
  }

  lemma DisabledAtCallback(s: State)
    requires Inv(s) && s.firing
    ensures AtCallback(DisableNow(s), DisableNow(s).history.current.value)
  {
    AfterBelow(Listed(s), s.firingIndex + 1, s.history.next);
    AllLeavePass(s.history.current.value, Rest(s), s.history.next);
    assert Rest(DisableNow(s)) == [];
  }

  lemma AllLeavePass(p: Pass, rest: seq<Entry>, bound: nat)
    requires Underway(p, rest) && Below(p.gone, bound) && Below(rest, bound)
    ensures Underway(p.(gone := p.gone + rest), []) && Below(p.gone + rest, bound)
  {
    LeavePass(p, rest, rest);
    MinusAll(rest, rest);
    BelowConcat(p.gone, rest, bound);
  }

  lemma ReturnKeeps(s: State)
    requires Inv(s)
    ensures Inv(if s.firing then Proceed(s) else s)
  {
    if s.firing {
      ProceedKeeps(s);
    }
  }

  lemma LockedKeeps(s: State)
    requires Inv(s) && s.memory.Some?
    ensures Inv(s.(locked := true))
  {
  }

  lemma LockKeeps(s: State)
    requires Inv(s)
    ensures Inv(LockNow(s))
  {
    if s.memory.None? {
      DisableKeeps(s);
    } else {
      LockedKeeps(s);
    }
  }

  lemma ChangeKeeps(s: State, e: Event)
    requires Inv(s) && (e.Add? || e.Remove? || e.FireWith?)
    ensures Inv(Step(s, e))
  {
    match e
    case Add(callbacks) => AddKeeps(s, callbacks);
    case Remove(callback) =>
      if s.list.Some? {
        RemoveKeeps(s, callback);
      }
    case FireWith(args) => FireNowKeeps(s, args);
  }

  lemma StepKeeps(s: State, e: Event)
    requires Inv(s)
    ensures Inv(Step(s, e))
  {
    match e
    case Return => ReturnKeeps(s);
    case Disable => DisableKeeps(s);
    case Lock => LockKeeps(s);
    case _ => ChangeKeeps(s, e);
  }

  /** The state after a sequence of events. */
  ghost function Run(options: Options, events: seq<Event>): (s: State)
    ensures Inv(s)
  {
    if events == [] then Initial(options) else
      var before := Run(options, events[..|events| - 1]);
      StepKeeps(before, events[|events| - 1]);
      Step(before, events[|events| - 1])
  }

  /** The accepted calls, in the order of the calls: first those that have got a pass, one each and
      with their own arguments, then those that were dropped, then those that wait while another
      pass runs. */
  ghost predicate OnePassEach(s: State) {
    var passes, h := Passes(s.history), s.history;
    && |passes| + |h.dropped| + |s.queue| == |h.accepted|
    && (forall i :: 0 <= i < |passes| ==> passes[i].args == h.accepted[i])
    && h.dropped + s.queue == h.accepted[|passes|..]
    && (!s.firing ==> s.queue == [])
  }

  lemma InvMeansOnePassEach(s: State)
    requires Inv(s)
    ensures OnePassEach(s)
  {
    var passes, h := Passes(s.history), s.history;
    Assoc(AllArgs(passes), h.dropped, s.queue);
    assert AllArgs(passes) + (h.dropped + s.queue) == h.accepted;
    forall i | 0 <= i < |passes| ensures passes[i].args == h.accepted[i] {
      AllArgsAt(passes, i);
    }
  }

  /** Over every run: one pass for each accepted call, and a finished pass ran each entry it met
      exactly once, in list order, except those removed before their turn. */
  lemma {:induction false} EveryRun(options: Options, events: seq<Event>)
    ensures var s := Run(options, events);
      && OnePassEach(s) && AllComplete(s.history.finished)
      && (s.history.current.Some? ==> Underway(s.history.current.value, Rest(s)))
  {
    InvMeansOnePassEach(Run(options, events));
  }
}
