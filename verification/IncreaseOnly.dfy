/** `MixAll.compareAndIncreaseOnly`: a compare-and-set loop that only ever raises its target, run
    by any number of threads at once. */
module IncreaseOnly {
  /** Where a call is: about to read the target, about to compare what it read, about to swap, or
      back with a result. `seen` bounds what it read before, if it has read at all. */
  datatype At =
    | Reading
    | Rereading(seen: int)
    | Comparing(prev: int)
    | Swapping(prev: int)
    | Done(updated: bool)

  datatype Call = Call(value: int, at: At)

  datatype Win = Win(t: nat, value: int)

  /** The target, the calls by number, and what they have installed, in order. */
  datatype State = State(target: int, calls: map<nat, Call>, installed: seq<Win>)

  datatype Event = Begin(t: nat, value: int) | Get(t: nat) | Compare(t: nat) | Swap(t: nat)

  predicate Enabled(s: State, e: Event) {
    if e.Begin? then e.t !in s.calls
    else e.t in s.calls && (var at := s.calls[e.t].at;
      match e
      case Get(_) => at.Reading? || at.Rereading?
      case Compare(_) => at.Comparing?
      case _ => at.Swapping?)
  }

  function Move(s: State, t: nat, at: At): State
    requires t in s.calls
  {
    s.(calls := s.calls[t := Call(s.calls[t].value, at)])
  }

  function Install(s: State, t: nat): State
    requires t in s.calls
  {
    State(s.calls[t].value, s.calls, s.installed + [Win(t, s.calls[t].value)])
  }

  function Next(s: State, e: Event): State
    requires Enabled(s, e)
  {
    match e
    case Begin(t, value) => s.(calls := s.calls[t := Call(value, Reading)])
    case Get(t) => Move(s, t, Comparing(s.target))
    case Compare(t) =>
      var prev := s.calls[t].at.prev;
      Move(s, t, if s.calls[t].value > prev then Swapping(prev) else Done(false))
    case Swap(t) =>
      var prev := s.calls[t].at.prev;
      if s.target == prev then Move(Install(s, t), t, Done(true)) else Move(s, t, Rereading(prev))
  }

  /* ---- What every step keeps ---- */

  /** What a call has read is not above the target; after a failed swap it is below. */
  predicate Sees(s: State, c: Call) {
    match c.at
    case Reading => true
    case Rereading(seen) => seen < s.target && seen < c.value
    case Comparing(prev) => prev <= s.target
    case Swapping(prev) => prev <= s.target && prev < c.value
    case Done(_) => c.value <= s.target
  }

  ghost predicate AllSee(s: State) {
    forall t :: t in s.calls ==> Sees(s, s.calls[t])
  }

  ghost predicate InstalledAreCalls(s: State) {
    forall i :: 0 <= i < |s.installed| ==>
      s.installed[i].t in s.calls && s.calls[s.installed[i].t] == Call(s.installed[i].value, Done(true))
  }

  /** A call returns true just when it has installed its value. */
  ghost predicate TrueIfInstalled(s: State) {
    forall t :: t in s.calls && s.calls[t].at == Done(true) ==> Win(t, s.calls[t].value) in s.installed
  }

  /** Every installed value is larger than the ones before it and than the initial one. */
  ghost predicate Rising(s: State, initial: int) {
    && (forall i :: 0 <= i < |s.installed| ==> initial < s.installed[i].value)
    && (forall i, j :: 0 <= i < j < |s.installed| ==> s.installed[i].value < s.installed[j].value)
  }

  predicate TargetIsLast(s: State, initial: int) {
    s.target == if s.installed == [] then initial else s.installed[|s.installed| - 1].value
  }

  ghost predicate Inv(s: State, initial: int) {
    AllSee(s) && InstalledAreCalls(s) && TrueIfInstalled(s) && Rising(s, initial) && TargetIsLast(s, initial)
  }

  /** A step of one call that leaves the target alone. */
  lemma {:induction false} MoveKeeps(s: State, t: nat, c: Call, initial: int)
    requires Inv(s, initial) && Sees(s, c) && c.at != Done(true) && (t in s.calls ==> s.calls[t].at != Done(true))
    ensures Inv(s.(calls := s.calls[t := c]), initial)
  {
  }

  lemma {:induction false} SwapSees(s: State, t: nat)
    requires AllSee(s) && t in s.calls && s.calls[t].at == Swapping(s.target)
    ensures AllSee(Move(Install(s, t), t, Done(true)))
  {
  }

  lemma {:induction false} SwapRises(s: State, t: nat, initial: int)
    requires Rising(s, initial) && TargetIsLast(s, initial) && t in s.calls && s.target < s.calls[t].value
    ensures Rising(Move(Install(s, t), t, Done(true)), initial) &&
      TargetIsLast(Move(Install(s, t), t, Done(true)), initial)
  {
  }

  lemma {:induction false} SwapInstalls(s: State, t: nat)
    requires InstalledAreCalls(s) && TrueIfInstalled(s) && t in s.calls && s.calls[t].at.Swapping?
    ensures InstalledAreCalls(Move(Install(s, t), t, Done(true))) && TrueIfInstalled(Move(Install(s, t), t, Done(true)))
  {
    var next := Move(Install(s, t), t, Done(true));
    assert next.installed[|s.installed|] == Win(t, s.calls[t].value);
    forall u | u in next.calls && next.calls[u].at == Done(true) ensures Win(u, next.calls[u].value) in next.installed {
      if u != t {
        assert Win(u, s.calls[u].value) in s.installed;
      }
    }
  }

  lemma {:induction false} StepKeeps(s: State, e: Event, initial: int)
    requires Inv(s, initial) && Enabled(s, e)
    ensures Inv(Next(s, e), initial) && s.target <= Next(s, e).target
  {
    if e.Begin? {
      MoveKeeps(s, e.t, Call(e.value, Reading), initial);
    } else {
      assert Sees(s, s.calls[e.t]);
      if e.Swap? && s.target == s.calls[e.t].at.prev {
        SwapSees(s, e.t);
        SwapRises(s, e.t, initial);
        SwapInstalls(s, e.t);
      } else {
        MoveKeeps(s, e.t, Next(s, e).calls[e.t], initial);
      }
    }
  }

  /* ---- Runs ---- */

  ghost predicate Valid(initial: int, events: seq<Event>)
    decreases |events|, 0
  {
    events == [] ||
      (Valid(initial, events[..|events| - 1]) &&
       Enabled(After(initial, events[..|events| - 1]), events[|events| - 1]))
  }

  ghost function After(initial: int, events: seq<Event>): State
    requires Valid(initial, events)
    decreases |events|, 1
  {
    if events == [] then State(initial, map[], [])
    else Next(After(initial, events[..|events| - 1]), events[|events| - 1])
  }

  lemma {:induction false} EveryRun(initial: int, events: seq<Event>)
    requires Valid(initial, events)
    ensures Inv(After(initial, events), initial)
    decreases |events|
  {
    if events != [] {
      EveryRun(initial, events[..|events| - 1]);
      StepKeeps(After(initial, events[..|events| - 1]), events[|events| - 1], initial);
    }
  }

  /** The target never falls. */
  lemma {:induction false} NeverFalls(initial: int, events: seq<Event>, n: nat)
    requires Valid(initial, events) && n <= |events|
    ensures Valid(initial, events[..n]) && After(initial, events[..n]).target <= After(initial, events).target
    decreases |events|
  {
    if n == |events| {
      assert events[..n] == events;
    } else {
      var init := events[..|events| - 1];
      NeverFalls(initial, init, n);
      assert init[..n] == events[..n];
      EveryRun(initial, init);
      StepKeeps(After(initial, init), events[|events| - 1], initial);
    }
  }

  /** Over every run the installed values rise strictly, and a call that has returned says whether
      its own swap installed its value. */
  lemma {:induction false} InstalledRise(initial: int, events: seq<Event>, i: nat, j: nat)
    requires Valid(initial, events) && i < j < |After(initial, events).installed|
    ensures After(initial, events).installed[i].value < After(initial, events).installed[j].value
  {
    EveryRun(initial, events);
  }

  lemma {:induction false} TrueMeansInstalled(initial: int, events: seq<Event>, t: nat)
    requires Valid(initial, events) && t in After(initial, events).calls && After(initial, events).calls[t].at.Done?
    ensures var s := After(initial, events); s.calls[t].at.updated <==> Win(t, s.calls[t].value) in s.installed
  {
    EveryRun(initial, events);
  }

  /** When every call has returned, the target is the largest of the initial value and the arguments. */
  lemma {:induction false} EndsAtMaximum(initial: int, events: seq<Event>)
    requires Valid(initial, events)
    requires forall t :: t in After(initial, events).calls ==> After(initial, events).calls[t].at.Done?
    ensures var s := After(initial, events);
      && s.target >= initial && (forall t :: t in s.calls ==> s.target >= s.calls[t].value)
      && (s.target == initial || exists t :: t in s.calls && s.target == s.calls[t].value)
  {
    EveryRun(initial, events);
    NeverFalls(initial, events, 0);
    var s := After(initial, events);
    assert events[..0] == [];
    assert forall t :: t in s.calls ==> Sees(s, s.calls[t]);
  }

  /* ---- Termination ---- */

  /** How often a call has read the target, in a run. */
  function Gets(events: seq<Event>, t: nat): nat {
    if events == [] then 0 else Gets(events[..|events| - 1], t) + if events[|events| - 1] == Get(t) then 1 else 0
  }

  /** What is left for a call, in terms of what it last read. */
  function Left(s: State, c: Call): int {
    match c.at
    case Reading => 0
    case Rereading(seen) => c.value - seen
    case Comparing(prev) => c.value - prev
    case Swapping(prev) => c.value - prev
    case Done(_) => 0
  }

  /** The gap shrinks with every retry: what a call reads after a failed swap is above what it read
      before. */
  lemma {:induction false} RetryShrinks(initial: int, events: seq<Event>, t: nat)
    requires Valid(initial, events) && Enabled(After(initial, events), Get(t))
    ensures var s := After(initial, events); var next := Next(s, Get(t));
      s.calls[t].at.Rereading? ==> Left(next, next.calls[t]) < Left(s, s.calls[t])
  {
    EveryRun(initial, events);
    var s := After(initial, events);
    assert Sees(s, s.calls[t]);
  }

  /** The reads that a call has made, counted against the distance from the initial value. */
  ghost predicate FewGets(s: State, initial: int, t: nat, gets: nat) {
    if t !in s.calls then gets == 0
    else
      var c := s.calls[t];
      match c.at
      case Reading => gets == 0
      case Rereading(seen) => initial <= seen && gets <= seen - initial + 1
      case Comparing(prev) => initial <= prev && gets <= prev - initial + 1 && GetsBound(c.value, initial, gets)
      case Swapping(prev) => initial <= prev && gets <= prev - initial + 1 && GetsBound(c.value, initial, gets)
      case Done(_) => GetsBound(c.value, initial, gets)
  }

  /** One read, and one more for every value between the initial one and the argument. */
  predicate GetsBound(value: int, initial: int, gets: nat) {
    gets <= 1 || gets <= value - initial + 1
  }

  lemma {:induction false} StepKeepsGets(s: State, e: Event, initial: int, t: nat, gets: nat)
    requires Inv(s, initial) && Enabled(s, e) && FewGets(s, initial, t, gets) && initial <= s.target
    ensures FewGets(Next(s, e), initial, t, gets + if e == Get(t) then 1 else 0)
  {
    assert t in s.calls ==> Sees(s, s.calls[t]);
  }

  lemma {:induction false} GetsAreCounted(initial: int, events: seq<Event>, t: nat)
    requires Valid(initial, events)
    ensures FewGets(After(initial, events), initial, t, Gets(events, t))
    decreases |events|
  {
    if events != [] {
      var n := |events| - 1;
      GetsAreCounted(initial, events[..n], t);
      EveryRun(initial, events[..n]);
      NeverFalls(initial, events[..n], 0);
      assert events[..n][..0] == [];
      StepKeepsGets(After(initial, events[..n]), events[n], initial, t, Gets(events[..n], t));
    }
  }

  /** A call reads the target once, and at most once more for every value between the initial one
      and its argument, however the threads interleave. */
  lemma {:induction false} GetsAreFew(initial: int, events: seq<Event>, t: nat)
    requires Valid(initial, events) && t in After(initial, events).calls
    ensures GetsBound(After(initial, events).calls[t].value, initial, Gets(events, t))
  {
    GetsAreCounted(initial, events, t);
    EveryRun(initial, events);
    assert Sees(After(initial, events), After(initial, events).calls[t]);
  }

  /* ---- The method ---- */

  class AtomicLong {
    var value: int
    ghost var installed: seq<int>

    constructor (value: int)
      ensures this.value == value && installed == []
    {
      this.value := value;
      installed := [];
    }

    /** The other threads run in between; by `NeverFalls` they can only raise the value. */
    method Others(amount: nat)
      modifies `value
      ensures value == old(value) + amount
    {
      value := value + amount;
    }

    method CompareAndSet(prev: int, update: int) returns (done: bool)
      modifies this
      ensures done <==> old(value) == prev
      ensures value == if done then update else old(value)
      ensures installed == if done then old(installed) + [update] else old(installed)
    {
      done := value == prev;
      if done {
        value := update;
        installed := installed + [update];
      }
    }

    /** What the other threads have added before access `k` and earlier. */
    static ghost function Raised(raises: nat -> nat, k: nat): nat {
      raises(k) + if k == 0 then 0 else Raised(raises, k - 1)
    }

    static lemma {:induction false} NotRaised(raises: nat -> nat, k: nat)
      ensures (forall i: nat :: raises(i) == 0) ==> Raised(raises, k) == 0
    {
      if k > 0 {
        NotRaised(raises, k - 1);
      }
    }

    /** The loop, with `raises(k)` telling by how much other threads raise the target before the
        `k`th access. */
    method CompareAndIncreaseOnly(update: int, raises: nat -> nat) returns (done: bool, ghost last: nat)
      modifies this
      ensures value == if done then update else old(value) + Raised(raises, last)
      ensures done ==> old(value) + Raised(raises, last + 1) < update
      ensures (forall i: nat :: raises(i) == 0) ==> (done <==> update > old(value))
      ensures value >= update && value >= old(value)
      ensures installed == if done then old(installed) + [update] else old(installed)
      ensures done ==> value == update > old(value)
    {
      var k := 0;
      Others(raises(k));
      last := 0;
      var prev := value;
      while update > prev
        invariant old(value) <= prev <= value && installed == old(installed)
        invariant last == k && value == prev == old(value) + Raised(raises, k)
        decreases update - prev
      {
        Others(raises(k + 1));
        var updated := CompareAndSet(prev, update);
        if updated {
          NotRaised(raises, last);
          return true, last;
        }
        Others(raises(k + 2));
        prev := value;
        k, last := k + 2, k + 2;
      }
      NotRaised(raises, last);
      done := false;
    }
  }
}
