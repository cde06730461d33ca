/** What one operation does to a callback list, told without the indices that the machine keeps. */
module CallbackLaws {
  import opened Callbacks
  import opened Sequences
  import opened Wrappers

  /* ---- The list ---- */

  function Names(list: seq<Entry>): (names: seq<Callback>)
    ensures |names| == |list|
  {
    if list == [] then [] else Names(list[..|list| - 1]) + [list[|list| - 1].callback]
  }

  /** The callbacks after `add`. */
  function Appended(unique: bool, names: seq<Callback>, callbacks: seq<Callback>): seq<Callback> {
    if callbacks == [] then names else
      var before := Appended(unique, names, callbacks[..|callbacks| - 1]);
      if unique && callbacks[|callbacks| - 1] in before then before else before + [callbacks[|callbacks| - 1]]
  }

  /** The callbacks after `remove`. */
  function Removed(names: seq<Callback>, callback: Callback): seq<Callback> {
    if names == [] then [] else
      Removed(names[..|names| - 1], callback) + if names[|names| - 1] == callback then [] else [names[|names| - 1]]
  }

  /** What an operation is meant to leave on the list. */
  function Meant(s: State, e: Event): seq<Callback> {
    if s.list.None? then [] else
      var names := Names(s.list.value);
      match e
      case Add(callbacks) => Appended(s.options.unique, names, callbacks)
      case Remove(callback) => Removed(names, callback)
      case Disable => []
      case Lock => if s.memory.None? then [] else names
      case _ => names
  }

  /** `fire` has come to its end in this step. */
  predicate WentQuiet(s: State, t: State) {
    !t.firing && |t.history.finished| > |s.history.finished|
  }

  lemma {:induction false} NamesMore(list: seq<Entry>, e: Entry)
    ensures Names(list + [e]) == Names(list) + [e.callback]
  {
    assert (list + [e])[..|list|] == list;
  }

  lemma {:induction false} NamesConcat(a: seq<Entry>, b: seq<Entry>)
    ensures Names(a + b) == Names(a) + Names(b)
    decreases |b|
  {
    if b == [] {
      assert a + b == a && Names(a) + [] == Names(a);
    } else {
      assert a + b == (a + b[..|b| - 1]) + [b[|b| - 1]];
      NamesMore(a + b[..|b| - 1], b[|b| - 1]);
      NamesConcat(a, b[..|b| - 1]);
      Assoc(Names(a), Names(b[..|b| - 1]), [b[|b| - 1].callback]);
    }
  }

  lemma {:induction false} HasName(list: seq<Entry>, callback: Callback)
    ensures HasCallback(list, callback) <==> callback in Names(list)
    decreases |list|
  {
    if list != [] {
      var k := |list| - 1;
      HasName(list[..k], callback);
      assert list[..k] + [list[k]] == list;
      if HasCallback(list, callback) && list[k].callback != callback {
        var i :| 0 <= i < |list| && list[i].callback == callback;
        assert list[..k][i].callback == callback;
      }
      if HasCallback(list[..k], callback) {
        var i :| 0 <= i < k && list[..k][i].callback == callback;
        assert list[i].callback == callback;
      }
    }
  }

  lemma {:induction false} PushNames(s: State, callbacks: seq<Callback>)
    requires s.list.Some?
    ensures Names(PushAll(s, callbacks).list.value) == Appended(s.options.unique, Names(s.list.value), callbacks)
    ensures PushAll(s, callbacks).options == s.options
    decreases |callbacks|
  {
    if callbacks != [] {
      var k := |callbacks| - 1;
      var t := PushAll(s, callbacks[..k]);
      PushNames(s, callbacks[..k]);
      HasName(t.list.value, callbacks[k]);
      NamesMore(t.list.value, Entry(callbacks[k], t.history.next));
    }
  }

  lemma {:induction false} RemovedMore(names: seq<Callback>, name: Callback, callback: Callback)
    ensures Removed(names + [name], callback) == Removed(names, callback) + if name == callback then [] else [name]
  {
    assert (names + [name])[..|names|] == names;
  }

  lemma {:induction false} WithoutNames(list: seq<Entry>, callback: Callback)
    ensures Names(Without(list, callback)) == Removed(Names(list), callback)
    decreases |list|
  {
    if list != [] {
      var k := |list| - 1;
      WithoutNames(list[..k], callback);
      RemovedMore(Names(list[..k]), list[k].callback, callback);
      WithoutLast(list, callback);
    }
  }

  lemma {:induction false} WithoutLast(list: seq<Entry>, callback: Callback)
    requires list != []
    ensures var e := list[|list| - 1];
      Names(Without(list, callback)) ==
        Names(Without(list[..|list| - 1], callback)) + if e.callback == callback then [] else [e.callback]
  {
    var before, e := Without(list[..|list| - 1], callback), list[|list| - 1];
    NamesMore(before, e);
    Snoc(before, e);
    Snoc(Names(before), e.callback);
  }

  /** Going on leaves the list alone, except that a locked list is emptied at the end. */
  lemma {:induction false} ProceedLeaves(s: State)
    requires s.firing
    ensures var t := Proceed(s);
      && |t.history.finished| >= |s.history.finished|
      && (t.firing ==> Listed(t) == Listed(s) && t.list == s.list)
      && (!t.firing ==> Listed(t) == if t.locked then [] else Listed(s))
      && t.locked == s.locked
      && (s.history.current.Some? && !t.firing ==> |t.history.finished| > |s.history.finished|)
    decreases |s.queue|
  {
    if !(0 <= s.firingIndex + 1 < |Listed(s)|) && s.queue != [] {
      ProceedLeaves(StartPass(EndPass(s)));
    }
  }

  lemma {:induction false} FireLeaves(s: State)
    requires s.queue != [] && s.list.Some?
    ensures var t := Fire(s);
      && Listed(t) == (if !t.firing && t.locked then [] else Listed(s))
      && (!t.firing ==> |t.history.finished| > |s.history.finished|)
  {
    ProceedLeaves(StartPass(Lit(s)));
  }

  lemma {:induction false} AddChanges(s: State, callbacks: seq<Callback>)
    requires Inv(s) && s.list.Some?
    ensures var t := AddAll(s, callbacks);
      Names(Listed(t)) ==
        if WentQuiet(s, t) && t.locked then [] else Appended(s.options.unique, Names(s.list.value), callbacks)
  {
    if s.memory.Some? && !s.firing {
      var a := Accept(FromEnd(s), s.memory.value);
      PushNames(a, callbacks);
      PushFinished(a, callbacks);
      FireLeaves(PushAll(a, callbacks));
    } else {
      PushNames(s, callbacks);
      PushFinished(s, callbacks);
    }
  }

  lemma {:induction false} PushFinished(s: State, callbacks: seq<Callback>)
    requires s.list.Some?
    ensures PushAll(s, callbacks).history.finished == s.history.finished && PushAll(s, callbacks).firing == s.firing
    decreases |callbacks|
  {
    if callbacks != [] {
      PushFinished(s, callbacks[..|callbacks| - 1]);
    }
  }

  lemma {:induction false} RemoveLeaves(s: State, callback: Callback)
    requires s.list.Some? && -1 <= s.firingIndex < |s.list.value|
    ensures Listed(RemoveAll(s, callback)) == Without(s.list.value, callback)
  {
    AfterSplits(s.list.value, s.firingIndex + 1);
    WithoutConcat(s.list.value[..s.firingIndex + 1], Rest(s), callback);
  }

  lemma {:induction false} RemoveChanges(s: State, callback: Callback)
    requires Inv(s) && s.list.Some?
    ensures Names(Listed(RemoveAll(s, callback))) == Removed(Names(s.list.value), callback)
  {
    RemoveLeaves(s, callback);
    WithoutNames(s.list.value, callback);
  }

  /** The list after any operation in any reachable state: what the operation is meant to leave,
      unless `fire` has ended on a locked list, which is then emptied. */
  lemma {:induction false} ListChanges(s: State, e: Event)
    requires Inv(s)
    ensures var t := Step(s, e); Names(Listed(t)) == if WentQuiet(s, t) && t.locked then [] else Meant(s, e)
  {
    match e
    case Add(callbacks) =>
      if s.list.Some? {
        AddChanges(s, callbacks);
      }
    case Remove(callback) =>
      if s.list.Some? {
        RemoveChanges(s, callback);
      }
    case FireWith(args) =>
      if !s.locked && !s.firing {
        FireLeaves(Accept(s, args));
      }
    case Return =>
      if s.firing {
        ProceedLeaves(s);
      }
    case _ =>
  }

  /* ---- The passes ---- */

  /** The passes begun between two states. */
  ghost predicate AllBegunWith(h: History, k: History, met: seq<Entry>) {
    |Passes(h)| <= |Passes(k)| && forall i :: |Passes(h)| <= i < |Passes(k)| ==> Passes(k)[i].seen == met
  }

  lemma {:induction false} StartBegins(s: State)
    requires s.queue != [] && s.history.current.None? && s.firingIndex == -1
    ensures Passes(StartPass(s).history) == Passes(s.history) + [StartPass(s).history.current.value]
    ensures StartPass(s).history.current.value.seen == Listed(s)
  {
    AfterIsSlice(Listed(s), 0);
  }

  lemma {:induction false} EndKeepsPasses(s: State)
    ensures Passes(EndPass(s).history) == Passes(s.history)
  {
  }

  /** A pass that begins because a call was queued finds the whole list. */
  lemma {:induction false} ProceedBegins(s: State)
    requires s.history.current.Some?
    ensures AllBegunWith(s.history, Proceed(s).history, Listed(s))
    decreases |s.queue|
  {
    if 0 <= s.firingIndex + 1 < |Listed(s)| {
      assert |Passes(CallNext(s).history)| == |Passes(s.history)|;
    } else {
      EndKeepsPasses(s);
      if s.queue != [] {
        var t := StartPass(EndPass(s));
        StartBegins(EndPass(s));
        ProceedBegins(t);
        ProceedKeepsSeen(t, |Passes(s.history)|);
      }
    }
  }

  lemma {:induction false} ProceedKeepsSeen(s: State, i: nat)
    requires s.history.current.Some? && i < |Passes(s.history)|
    ensures i < |Passes(Proceed(s).history)| && Passes(Proceed(s).history)[i].seen == Passes(s.history)[i].seen
    decreases |s.queue|
  {
    if !(0 <= s.firingIndex + 1 < |Listed(s)|) {
      EndKeepsPasses(s);
      if s.queue != [] {
        StartBegins(EndPass(s));
        ProceedKeepsSeen(StartPass(EndPass(s)), i);
      }
    }
  }

  /** In any reachable state, a pass begun by `fireWith`, or by a callback that returns, meets the
      whole list. */
  lemma {:induction false} PassesMeetTheList(s: State, e: Event)
    requires Inv(s) && (e.FireWith? || e.Return?)
    ensures AllBegunWith(s.history, Step(s, e).history, Listed(s))
  {
    if e.Return? && s.firing {
      ProceedBegins(s);
    } else if e.FireWith? && !s.locked && !s.firing {
      FireBegins(Accept(s, e.args));
    }
  }

  lemma {:induction false} FireBegins(s: State)
    requires s.queue != [] && s.history.current.None? && s.firingIndex == -1
    ensures AllBegunWith(s.history, Fire(s).history, Listed(s))
  {
    var t := StartPass(Lit(s));
    StartBegins(Lit(s));
    ProceedBegins(t);
    ProceedKeepsSeen(t, |Passes(s.history)|);
  }

  /** What `add` does to a list with a memory before the pass begins. */
  function Ready(s: State, args: Args, callbacks: seq<Callback>): State
    requires s.list.Some?
  {
    Lit(PushAll(Accept(FromEnd(s), args), callbacks))
  }

  lemma {:induction false} AddProceeds(s: State, args: Args, callbacks: seq<Callback>)
    requires s.list.Some? && s.memory == Some(args) && !s.firing && s.queue == []
    ensures var p := Ready(s, args, callbacks); p.queue == [args] && AddAll(s, callbacks) == Proceed(StartPass(p))
  {
  }

  lemma {:induction false} ReadyIs(s: State, args: Args, callbacks: seq<Callback>)
    requires s.list.Some? && s.history.current.None?
    ensures var p := Ready(s, args, callbacks);
      && p.list.Some? && p.history.current.None? && p.history.finished == s.history.finished
      && p.firingIndex == |s.list.value| - 1 && s.list.value <= p.list.value
      && Names(p.list.value) == Appended(s.options.unique, Names(s.list.value), callbacks)
  {
    var a := Accept(FromEnd(s), args);
    PushNames(a, callbacks);
    PushFinished(a, callbacks);
    PushExtends(a, callbacks);
  }

  /** A pass begun by `add` on a list with a memory meets just the callbacks that were added. */
  lemma {:induction false} ReplayMeetsTheAdded(s: State, callbacks: seq<Callback>)
    requires Inv(s) && s.list.Some? && s.memory.Some? && !s.firing
    ensures var t := AddAll(s, callbacks);
      |Passes(t.history)| == |Passes(s.history)| + 1 &&
      Names(s.list.value) + Names(Passes(t.history)[|Passes(s.history)|].seen) ==
        Appended(s.options.unique, Names(s.list.value), callbacks)
  {
    var p := Ready(s, s.memory.value, callbacks);
    AddProceeds(s, s.memory.value, callbacks);
    ReadyIs(s, s.memory.value, callbacks);
    ReplayBegins(p);
    ProceedOnce(StartPass(p));
    ProceedKeepsSeen(StartPass(p), |Passes(s.history)|);
    RestNames(p, s.list.value);
  }

  lemma {:induction false} RestNames(p: State, list: seq<Entry>)
    requires p.list.Some? && list <= p.list.value && p.firingIndex == |list| - 1
    ensures Names(list) + Names(Rest(p)) == Names(p.list.value)
  {
    var after := After(p.list.value, |list|);
    AfterSplits(p.list.value, |list|);
    assert p.list.value == list + after && Rest(p) == after;
    NamesConcat(list, after);
  }

  lemma {:induction false} PushExtends(s: State, callbacks: seq<Callback>)
    requires s.list.Some?
    ensures var t := PushAll(s, callbacks);
      s.list.value <= t.list.value && t.firingIndex == s.firingIndex &&
        (t.history.current.Some? <==> s.history.current.Some?)
    decreases |callbacks|
  {
    if callbacks != [] {
      PushExtends(s, callbacks[..|callbacks| - 1]);
    }
  }

  lemma {:induction false} ReplayBegins(s: State)
    requires s.queue != [] && s.history.current.None? && s.list.Some? && -1 <= s.firingIndex
    ensures Passes(StartPass(s).history) == Passes(s.history) + [StartPass(s).history.current.value]
    ensures StartPass(s).history.current.value.seen == Rest(s)
  {
  }

  /** Without queued calls no further pass begins. */
  lemma {:induction false} ProceedOnce(s: State)
    requires s.queue == [] && s.history.current.Some?
    ensures |Passes(Proceed(s).history)| == |Passes(s.history)|
  {
    EndKeepsPasses(s);
  }

  /** A call is accepted just when the list is not locked. */
  lemma {:induction false} AcceptedUnlessLocked(s: State, args: Args)
    requires Inv(s)
    ensures Step(s, FireWith(args)).history.accepted == s.history.accepted + if s.locked then [] else [args]
  {
    if !s.locked && !s.firing {
      ProceedAccepts(StartPass(Lit(Accept(s, args))));
    }
  }

  lemma {:induction false} ProceedAccepts(s: State)
    ensures Proceed(s).history.accepted == s.history.accepted
    decreases |s.queue|
  {
    if !(0 <= s.firingIndex + 1 < |Listed(s)|) && s.queue != [] {
      ProceedAccepts(StartPass(EndPass(s)));
    }
  }

  lemma {:induction false} ProceedDrops(s: State)
    ensures Proceed(s).history.dropped == s.history.dropped
    decreases |s.queue|
  {
    if !(0 <= s.firingIndex + 1 < |Listed(s)|) && s.queue != [] {
      ProceedDrops(StartPass(EndPass(s)));
    }
  }

  lemma {:induction false} PushDrops(s: State, callbacks: seq<Callback>)
    requires s.list.Some?
    ensures PushAll(s, callbacks).history.dropped == s.history.dropped
    decreases |callbacks|
  {
    if callbacks != [] {
      PushDrops(s, callbacks[..|callbacks| - 1]);
    }
  }

  lemma AddDrops(s: State, callbacks: seq<Callback>)
    ensures AddAll(s, callbacks).history.dropped == s.history.dropped
  {
    if s.list.Some? {
      if s.memory.Some? && !s.firing {
        var a := Accept(FromEnd(s), s.memory.value);
        PushDrops(a, callbacks);
        ProceedDrops(StartPass(Lit(PushAll(a, callbacks))));
      } else {
        PushDrops(s, callbacks);
      }
    }
  }

  lemma FireDrops(s: State, args: Args)
    ensures FireNow(s, args).history.dropped == s.history.dropped
  {
    if !s.locked && !s.firing {
      ProceedDrops(StartPass(Lit(Accept(s, args))));
    }
  }

  /** Only `disable` drops accepted calls, namely those that wait: `lock` never does, although it
      may disable the list. */
  lemma DroppedByDisable(s: State, e: Event)
    requires Inv(s)
    ensures Step(s, e).history.dropped == s.history.dropped + if e.Disable? then s.queue else []
  {
    NothingAfter(s.history.dropped);
    match e
    case Add(callbacks) => AddDrops(s, callbacks);
    case FireWith(args) => FireDrops(s, args);
    case Return => ProceedDrops(s);
    case _ =>
  }

  lemma {:induction false} NeverDisabled(options: Options, events: seq<Event>)
    requires forall i :: 0 <= i < |events| ==> !events[i].Disable?
    ensures Run(options, events).history.dropped == []
    decreases |events|
  {
    if events != [] {
      var before := events[..|events| - 1];
      NeverDisabled(options, before);
      DroppedByDisable(Run(options, before), events[|events| - 1]);
    }
  }

  /** Without `disable`, once no callback is running, every accepted call has had its pass: also on
      a list that is spent, such as a `once` list without memory. */
  lemma EveryCallHasItsPass(options: Options, events: seq<Event>)
    requires forall i :: 0 <= i < |events| ==> !events[i].Disable?
    requires !Run(options, events).firing
    ensures var h := Run(options, events).history;
      |Passes(h)| == |h.accepted| && forall i :: 0 <= i < |h.accepted| ==> Passes(h)[i].args == h.accepted[i]
  {
    NeverDisabled(options, events);
    InvMeansOnePassEach(Run(options, events));
  }

  /* ---- The running pass ---- */

  /** What an operation takes from the turns still to come in the running pass. */
  function Pending(s: State, e: Event): seq<Entry> {
    match e
    case Remove(callback) => Matching(Rest(s), callback)
    case Disable => Rest(s)
    case _ => []
  }

  lemma {:induction false} PushSees(s: State, callbacks: seq<Callback>)
    requires s.list.Some? && s.history.current.Some?
    ensures var t := PushAll(s, callbacks);
      && t.history.current.Some? && s.list.value <= t.list.value
      && t.history.current.value.seen == s.history.current.value.seen + After(t.list.value, |s.list.value|)
      && t.history.current.value.gone == s.history.current.value.gone
      && t.history.current.value.ran == s.history.current.value.ran
    decreases |callbacks|
  {
    if callbacks == [] {
      NothingAfter(s.history.current.value.seen);
    } else {
      var k := |callbacks| - 1;
      var u := PushAll(s, callbacks[..k]);
      PushSees(s, callbacks[..k]);
      PushOneSees(u, callbacks[k], |s.list.value|);
      Assoc(s.history.current.value.seen, After(u.list.value, |s.list.value|), [Entry(callbacks[k], u.history.next)]);
    }
  }

  lemma PushOneSees(s: State, callback: Callback, k: nat)
    requires s.list.Some? && s.history.current.Some? && k <= |s.list.value|
    ensures var t, e := Push(s, callback), Entry(callback, s.history.next);
      t == s ||
      (t.list == Some(s.list.value + [e]) && After(t.list.value, k) == After(s.list.value, k) + [e] &&
       t.history.current == Some(s.history.current.value.(seen := s.history.current.value.seen + [e])))
  {
    AfterMore(s.list.value, [Entry(callback, s.history.next)], k);
  }

  /** The pass that `p` has become. */
  ghost predicate Becomes(p: Pass, seen: seq<Entry>, gone: seq<Entry>, k: History, i: nat) {
    i < |Passes(k)| && Passes(k)[i].seen == seen && Passes(k)[i].gone == gone && Passes(k)[i].args == p.args &&
      p.ran <= Passes(k)[i].ran
  }

  lemma {:induction false} ProceedBecomes(s: State, i: nat)
    requires s.history.current.Some? && i < |Passes(s.history)|
    ensures var p := Passes(s.history)[i]; Becomes(p, p.seen, p.gone, Proceed(s).history, i)
    decreases |s.queue|
  {
    if !(0 <= s.firingIndex + 1 < |Listed(s)|) {
      EndKeepsPasses(s);
      if s.queue != [] {
        StartBegins(EndPass(s));
        ProceedBecomes(StartPass(EndPass(s)), i);
      }
    }
  }

  lemma CurrentBecomes(h: History, k: History, seen: seq<Entry>, gone: seq<Entry>)
    requires h.current.Some? && k.current.Some? && k.finished == h.finished
    requires k.current.value == h.current.value.(seen := seen, gone := gone)
    ensures Becomes(h.current.value, seen, gone, k, |h.finished|)
  {
  }

  lemma AddBecomes(s: State, callbacks: seq<Callback>)
    requires s.firing && s.history.current.Some?
    ensures var p, t := s.history.current.value, AddAll(s, callbacks);
      Becomes(p, p.seen + After(Listed(t), |Listed(s)|), p.gone, t.history, |s.history.finished|)
  {
    var p, t := s.history.current.value, AddAll(s, callbacks);
    NothingAfter(p.seen);
    if s.list.Some? {
      PushSees(s, callbacks);
      PushFinished(s, callbacks);
      PushArgs(s, callbacks);
      CurrentBecomes(s.history, t.history, p.seen + After(Listed(t), |Listed(s)|), p.gone);
    }
  }

  lemma {:induction false} PushArgs(s: State, callbacks: seq<Callback>)
    requires s.list.Some? && s.history.current.Some?
    ensures var t := PushAll(s, callbacks);
      t.history.current.Some? && t.history.current.value.args == s.history.current.value.args
    decreases |callbacks|
  {
    if callbacks != [] {
      PushArgs(s, callbacks[..|callbacks| - 1]);
    }
  }

  lemma TakenOut(s: State, h: History, pending: seq<Entry>)
    requires s.history.current.Some? && h.current == Left(s.history, pending).current &&
      h.finished == s.history.finished
    ensures var p := s.history.current.value; Becomes(p, p.seen, p.gone + pending, h, |s.history.finished|)
  {
    CurrentBecomes(s.history, h, s.history.current.value.seen, s.history.current.value.gone + pending);
  }

  lemma Unchanged(s: State, h: History)
    requires s.history.current.Some? && h.current == s.history.current && h.finished == s.history.finished
    ensures var p := s.history.current.value; Becomes(p, p.seen, p.gone, h, |s.history.finished|)
  {
  }

  /** An operation made while a pass is running: `remove` takes the pending turns of its callback out
      of the pass, `disable` all pending turns, `add` puts the callbacks that it appends at the end
      of the pass, and nothing else changes what the pass has met or lost. */
  lemma RunningPassChanges(s: State, e: Event)
    requires Inv(s) && s.firing
    ensures var p, t := s.history.current.value, Step(s, e);
      Becomes(p, p.seen + (if e.Add? then After(Listed(t), |Listed(s)|) else []), p.gone + Pending(s, e),
        t.history, |s.history.finished|)
  {
    var p, t := s.history.current.value, Step(s, e);
    NothingAfter(p.seen);
    NothingAfter(p.gone);
    match e
    case Add(callbacks) => AddBecomes(s, callbacks);
    case Return => ProceedBecomes(s, |s.history.finished|);
    case Remove(callback) => TakenOut(s, t.history, Matching(Rest(s), callback));
    case Disable => TakenOut(s, t.history, Rest(s));
    case _ => Unchanged(s, t.history);
  }
}
