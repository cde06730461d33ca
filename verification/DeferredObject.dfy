/** The object that `jQuery.Deferred` builds: two callback lists wired to each other. Each method
    ends where control passes to a user callback or back to the caller. */
module DeferredObject {
  import opened Callbacks
  import opened CallbackList
  import opened Deferreds
  import opened Wrappers

  class DeferredObject {
    const doneList: CallbackList
    const failList: CallbackList
    var state: Settled
    var progressLocked: bool

    ghost predicate Valid()
      reads this, doneList, failList
    {
      doneList != failList && doneList.Valid() && failList.Valid()
    }

    ghost function Model(): Deferred
      reads this, doneList, failList
    {
      Deferred(doneList.model, failList.model, state, progressLocked)
    }

    function List(side: Side): CallbackList {
      if side == DoneSide then doneList else failList
    }

    constructor ()
      ensures Valid() && Model() == Fresh() && fresh(doneList) && fresh(failList)
    {
      doneList := new CallbackList(ONCE_MEMORY);
      failList := new CallbackList(ONCE_MEMORY);
      state, progressLocked := Pending, false;
      new;
      doneList.Add(INTERNALS);
      failList.Add(INTERNALS);
    }

    method RunningCallback(side: Side) returns (callback: Option<Callback>)
      requires Valid()
      ensures callback == Running(Model().List(side))
    {
      var list := List(side);
      if list.firing && list.list.Some? && 0 <= list.firingIndex < |list.list.value| {
        callback := Some(list.list.value[list.firingIndex].callback);
      } else {
        callback := None;
      }
    }

    /** The bodies of the callbacks that the constructor put at the head of each list. */
    method RunEffect(side: Side, callback: Callback)
      requires Valid()
      modifies this, doneList, failList
      ensures Valid() && Model() == Effect(old(Model()), side, callback)
    {
      if callback == SET_STATE {
        state := Final(side);
      } else if callback == DISABLE_OTHER {
        List(Other(side)).DisableAll();
      } else {
        progressLocked := true;
      }
    }

    method Settle(side: Side, args: Args)
      requires Valid()
      modifies this, doneList, failList
      ensures Valid() && Model() == Perform(old(Model()), Call.Settle(side, args))
    {
      if List(side).locked {
        return;
      }
      List(side).FireWith(args);
      ghost var goal := RunInternals(Model(), side, |INTERNALS|);
      var limit := |INTERNALS|;
      while limit > 0
        invariant 0 <= limit && Valid() && RunInternals(Model(), side, limit) == goal
      {
        var running := RunningCallback(side);
        if running.None? || running.value >= 3 {
          return;
        }
        RunInternal(side, running.value);
        limit := limit - 1;
      }
    }

    method RunInternal(side: Side, callback: Callback)
      requires Valid() && Running(Model().List(side)) == Some(callback)
      modifies this, doneList, failList
      ensures Valid()
      ensures var before := old(Model());
        Model() == Effect(before, side, callback).With(side, Proceed(before.List(side)))
    {
      ghost var before := Model();
      RunEffect(side, callback);
      EffectLeavesList(before, side, callback);
      List(side).Return();
    }

    lemma EffectLeavesList(d: Deferred, side: Side, callback: Callback)
      ensures Effect(d, side, callback).List(side) == d.List(side)
    {
    }

    method Listen(side: Side, callbacks: seq<UserCallback>)
      requires Valid()
      modifies this, doneList, failList
      ensures Valid() && Model() == Perform(old(Model()), Call.Listen(side, callbacks))
    {
      List(side).Add(callbacks);
    }

    /** The running user callback comes back. */
    method Returned()
      requires Valid()
      modifies this, doneList, failList
      ensures Valid() && Model() == Perform(old(Model()), Call.Returned)
    {
      if doneList.firing {
        doneList.Return();
      } else if failList.firing {
        failList.Return();
      }
    }
  }
}
