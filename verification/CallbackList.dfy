/** The object behind `jQuery.Callbacks`, with its loops. Each method ends where the original
    would hand control to a callback; `Return` is that callback coming back. */
module CallbackList {
  import opened Callbacks
  import opened Wrappers

  /** `jQuery.inArray`, from a given index. */
  method InArray(callback: Callback, list: seq<Entry>, from: nat) returns (index: int)
    requires from <= |list|
    ensures index == -1 ==> forall i :: from <= i < |list| ==> list[i].callback != callback
    ensures index != -1 ==> from <= index < |list| && list[index].callback == callback
    ensures index != -1 ==> forall i :: from <= i < index ==> list[i].callback != callback
  {
    index := from;
    while index < |list|
      invariant from <= index <= |list|
      invariant forall i :: from <= i < index ==> list[i].callback != callback
    {
      if list[index].callback == callback {
        return;
      }
      index := index + 1;
    }
    index := -1;
  }

  /** Splicing one occurrence out does not change what is left in the end. */
  lemma {:induction false} SpliceKeepsRest(list: seq<Entry>, index: nat, callback: Callback)
    requires index < |list| && list[index].callback == callback
    ensures Without(list[..index] + list[index + 1..], callback) == Without(list, callback)
  {
    var a, e, b := list[..index], [list[index]], list[index + 1..];
    assert list == a + e + b;
    WithoutConcat(a + e, b, callback);
    WithoutConcat(a, e, callback);
    assert e[..0] == [];
    WithoutConcat(a, b, callback);
  }

  lemma {:induction false} NothingLeft(list: seq<Entry>, callback: Callback)
    requires forall i :: 0 <= i < |list| ==> list[i].callback != callback
    ensures Without(list, callback) == list
    decreases |list|
  {
    if list != [] {
      NothingLeft(list[..|list| - 1], callback);
      assert list == list[..|list| - 1] + [list[|list| - 1]];
    }
  }

  class CallbackList {
    const options: Options
    var list: Option<seq<Entry>>
    var queue: seq<Args>
    var firingIndex: int
    var firing: bool
    var fired: bool
    var locked: bool
    var memory: Option<Args>
    /** Numbers the additions, for the specification only: no branch reads the numbers. */
    var next: nat
    /** The state of the specification, which also keeps the history. */
    ghost var model: State

    ghost predicate Valid()
      reads this
    {
      && model.options == options && model.queue == queue && model.firingIndex == firingIndex
      && model.firing == firing && model.fired == fired && model.locked == locked && model.memory == memory
      && model.list == list && model.history.next == next
    }

    constructor (options: Options)
      ensures Valid() && model == Initial(options)
    {
      this.options, list, queue, firingIndex := options, Some([]), [], -1;
      firing, fired, locked, memory, next := false, false, false, None, 0;
      model := Initial(options);
    }

    /** `memory = queue.shift()` */
    method Shift()
      requires Valid() && queue != []
      modifies this
      ensures Valid() && model == StartPass(old(model)) && queue == old(queue)[1..]
    {
      model := StartPass(model);
      memory, queue := Some(queue[0]), queue[1..];
    }

    /** The loops of `fire`, up to the next callback. */
    method Continue()
      requires Valid()
      modifies this
      ensures Valid() && model == Proceed(old(model))
    {
      ghost var goal := Proceed(model);
      while true
        invariant Valid() && Proceed(model) == goal
        decreases |queue|
      {
        if list.Some? && 0 <= firingIndex + 1 < |list.value| {
          firingIndex, model := firingIndex + 1, CallNext(model);
          return;
        }
        if queue == [] {
          CleanUp();
          return;
        }
        LeavePass();
        Shift();
      }
    }

    method LeavePass()
      requires Valid()
      modifies this
      ensures Valid() && model == EndPass(old(model)) && queue == old(queue)
    {
      firingIndex, model := -1, EndPass(model);
    }

    /** The end of `fire`. */
    method CleanUp()
      requires Valid()
      modifies this
      ensures Valid() && model == Finish(EndPass(old(model)))
    {
      firingIndex, firing := -1, false;
      if !options.memory {
        memory := None;
      }
      if locked {
        list := if memory.Some? then Some([]) else None;
      }
      model := Finish(EndPass(model));
    }

    method FirePending()
      requires Valid() && queue != []
      modifies this
      ensures Valid() && model == Fire(old(model))
    {
      locked := options.once;
      fired, firing, model := true, true, Lit(model);
      Shift();
      Continue();
    }

    method FireWith(args: Args)
      requires Valid()
      modifies this
      ensures Valid() && model == FireNow(old(model), args)
    {
      if !locked {
        queue, model := queue + [args], Accept(model, args);
        if !firing {
          FirePending();
        }
      }
    }

    method Add(callbacks: seq<Callback>)
      requires Valid()
      modifies this
      ensures Valid() && model == AddAll(old(model), callbacks)
    {
      if list.Some? {
        if memory.Some? && !firing {
          firingIndex, model := |list.value| - 1, FromEnd(model);
          queue, model := queue + [memory.value], Accept(model, memory.value);
        }
        ghost var start := model;
        var i := 0;
        while i < |callbacks|
          invariant 0 <= i <= |callbacks|
          invariant Valid() && list.Some?
          invariant model == PushAll(start, callbacks[..i])
        {
          assert callbacks[..i + 1][..i] == callbacks[..i];
          PushOne(callbacks[i]);
          i := i + 1;
        }
        assert callbacks[..i] == callbacks;
        PushAllFrame(start, callbacks);
        if memory.Some? && !firing {
          FirePending();
        }
      }
    }

    method PushOne(callback: Callback)
      requires Valid() && list.Some?
      modifies this
      ensures Valid() && list.Some? && model == Push(old(model), callback)
    {
      var known := -1;
      if options.unique {
        known := InArray(callback, list.value, 0);
      }
      model := Push(model, callback);
      if known == -1 {
        list, next := Some(list.value + [Entry(callback, next)]), next + 1;
      }
    }

    lemma {:induction false} PushAllFrame(s: State, callbacks: seq<Callback>)
      requires s.list.Some?
      ensures var t := PushAll(s, callbacks); t.memory == s.memory && t.firing == s.firing
      decreases |callbacks|
    {
      if callbacks != [] {
        PushAllFrame(s, callbacks[..|callbacks| - 1]);
      }
    }

    method Remove(callback: Callback)
      requires Valid() && (list.Some? ==> -1 <= firingIndex < |list.value|)
      modifies this
      ensures Valid() && model == RemoveAll(old(model), callback)
    {
      if list.Some? {
        AfterIsSlice(list.value, firingIndex + 1);
        SpliceAll(callback);
        model := RemoveAll(model, callback);
      }
    }

    /** The loop of `remove`: splices each occurrence and keeps the firing index in step. */
    method SpliceAll(callback: Callback)
      requires list.Some? && -1 <= firingIndex < |list.value|
      modifies this`list, this`firingIndex
      ensures list.Some?
      ensures var passed, rest := old(list.value[..firingIndex + 1]), old(list.value[firingIndex + 1..]);
        list.value == Without(passed, callback) + Without(rest, callback) &&
          firingIndex == |Without(passed, callback)| - 1
    {
      ghost var passed, rest := list.value[..firingIndex + 1], list.value[firingIndex + 1..];
      var index := 0;
      while true
        invariant list.Some? && 0 <= index <= |list.value| && -1 <= firingIndex < |list.value|
        invariant forall i :: 0 <= i < index ==> list.value[i].callback != callback
        invariant Without(list.value[..firingIndex + 1], callback) == Without(passed, callback)
        invariant Without(list.value[firingIndex + 1..], callback) == Without(rest, callback)
        decreases |list.value|
      {
        var found := InArray(callback, list.value, index);
        if found == -1 {
          break;
        }
        index := found;
        SpliceBothSides(list.value, firingIndex + 1, index, callback);
        list := Some(list.value[..index] + list.value[index + 1..]);
        if index <= firingIndex {
          firingIndex := firingIndex - 1;
        }
      }
      AllSpliced(list.value, firingIndex + 1, callback);
    }

    lemma {:induction false} AllSpliced(l: seq<Entry>, f: nat, callback: Callback)
      requires f <= |l| && forall i :: 0 <= i < |l| ==> l[i].callback != callback
      ensures l == Without(l[..f], callback) + Without(l[f..], callback) && |Without(l[..f], callback)| == f
    {
      assert l == l[..f] + l[f..];
      NothingLeft(l[..f], callback);
      NothingLeft(l[f..], callback);
    }

    /** The same on both sides of the firing index, when it moves back with the entries before it. */
    lemma {:induction false} SpliceBothSides(l: seq<Entry>, f: nat, index: nat, callback: Callback)
      requires index < |l| && l[index].callback == callback && f <= |l|
      ensures var less, f' := l[..index] + l[index + 1..], if index < f then f - 1 else f;
        Without(less[..f'], callback) == Without(l[..f], callback) &&
          Without(less[f'..], callback) == Without(l[f..], callback)
    {
      var less := l[..index] + l[index + 1..];
      if index < f {
        SpliceKeepsRest(l[..f], index, callback);
        assert less[..f - 1] == l[..f][..index] + l[..f][index + 1..];
        assert less[f - 1..] == l[f..];
      } else {
        SpliceKeepsRest(l[f..], index - f, callback);
        assert less[f..] == l[f..][..index - f] + l[f..][index - f + 1..];
        assert less[..f] == l[..f];
      }
    }

    /** The running callback comes back. */
    method Return()
      requires Valid()
      modifies this
      ensures Valid() && model == if old(firing) then Proceed(old(model)) else old(model)
    {
      if firing {
        Continue();
      }
    }

    method DisableAll()
      requires Valid()
      modifies this
      ensures Valid() && model == DisableNow(old(model))
    {
      locked, queue, list, memory, model := true, [], None, None, DisableNow(model);
    }

    method LockAll()
      requires Valid()
      modifies this
      ensures Valid() && model == LockNow(old(model))
    {
      if memory.None? {
        DisableAll();
      } else {
        locked, model := true, LockNow(model);
      }
    }
  }
}
