/** Callback lists as a program makes them, by their options. */
module CallbackUse {
  import opened Callbacks
  import opened CallbackList
  import opened CallbackMemory
  import opened Wrappers

  /** A list with this memory runs the callback that is added, with what it remembers. */
  lemma ReplaysOne(s: State, args: Args, f: Callback)
    requires s.list == Some([]) && s.memory == Some(args) && !s.firing && s.queue == [] && s.history.current.None?
    ensures var t := AddAll(s, [f]);
      t.firing && t.firingIndex == 0 && t.list == Some([Entry(f, s.history.next)]) && t.memory == Some(args)
  {
    var a := Accept(FromEnd(s), args);
    assert [f][..0] == [] && PushAll(a, []) == a;
    assert !HasCallback([], f);
    assert PushAll(a, [f]) == Push(a, f);
    assert [] + [Entry(f, s.history.next)] == [Entry(f, s.history.next)];
    var started := StartPass(Lit(Push(a, f)));
    assert Proceed(started) == CallNext(started);
  }

  /** `jQuery.Callbacks( "memory" )`: a callback that is added after a call is called for it. */
  method AddAfterCall(args: Args, f: Callback) returns (list: CallbackList)
    ensures list.firing && list.memory == Some(args) && list.firingIndex == 0
    ensures list.list.Some? && |list.list.value| == 1 && list.list.value[0].callback == f
  {
    list := new CallbackList(Options(false, true, false));
    EmptyPass(Accept(list.model, args), args);
    list.FireWith(args);
    ReplaysOne(list.model, args, f);
    list.Add([f]);
  }

  /** `jQuery.Callbacks( "once" )`: after its call a list is gone, and nothing runs that is added. */
  method AddAfterOnce(args: Args, f: Callback) returns (list: CallbackList)
    ensures !list.firing && list.memory == None && list.list == None
  {
    list := new CallbackList(Options(true, false, false));
    EmptyPass(Accept(list.model, args), args);
    list.FireWith(args);
    list.Add([f]);
  }

  /** `jQuery.Callbacks()`: without options a list can be called again, and remembers nothing. */
  method AddAfterPlain(args: Args, f: Callback) returns (list: CallbackList)
    ensures !list.firing && list.memory == None && !list.locked
    ensures list.list.Some? && |list.list.value| == 1 && list.list.value[0].callback == f
  {
    list := new CallbackList(Options(false, false, false));
    EmptyPass(Accept(list.model, args), args);
    list.FireWith(args);
    assert [f][..0] == [] && PushAll(list.model, []) == list.model;
    list.Add([f]);
  }

  /** The same callback twice is one with `unique`, and two without. */
  method AddTwice(unique: bool, f: Callback) returns (list: CallbackList)
    ensures list.list.Some? && |list.list.value| == (if unique then 1 else 2)
    ensures forall e :: e in list.list.value ==> e.callback == f
  {
    list := new CallbackList(Options(false, false, unique));
    ghost var one := Push(list.model, f);
    assert [f, f][..1] == [f] && [f][..0] == [] && PushAll(list.model, []) == list.model;
    assert PushAll(list.model, [f]) == one;
    assert one.list.value == [Entry(f, 0)] && one.list.value[0].callback == f;
    list.Add([f, f]);
  }
}
