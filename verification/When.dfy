/** `jQuery.when` on zero, two or more arguments, over the deferreds of a program. A deferred may be
    settled and listened to by anyone at any time, also from inside callbacks, and several arguments
    may be the same deferred. The master is a deferred as well. */
module When {
  import opened Callbacks
  import opened DeferredAccount
  import opened Deferreds
  import opened Sequences

  /** A value that is not a deferred, or the `k`th deferred of the program. */
  datatype Argument = Plain(value: Value) | Subordinate(k: nat)

  /** Where the handlers of an argument stand among the listeners of its deferred. */
  datatype Places = Places(done: nat, fail: nat)

  /** `visited` counts the turns of the registration loop. Each deferred is known by the calls made
      on it and by its account; `entered` tells whether the listener that has its turn has done its
      work, which matters for handlers. `told` and `places` are history: which handlers have run and
      where they stand. */
  datatype WhenState = WhenState(
    visited: nat,
    ended: bool,
    remaining: int,
    values: seq<Value>,
    subs: seq<seq<Call>>,
    accounts: seq<Account>,
    entered: seq<bool>,
    master: seq<Call>,
    told: seq<bool>,
    places: seq<Places>)

  /** `Work` is the body of a handler that has its turn; `On` is a call that the program makes on a
      deferred, or the end of a listener's turn; `OnMaster` is a call through the promise. */
  datatype Event = Visit | End | Work(k: nat) | On(k: nat, call: Call) | OnMaster(call: Call)

  /** The two functions that `when` adds for argument `i`: its own update function to the done list,
      the master's `reject` to the fail list. Nobody else has them. */
  function Handler(i: nat): UserCallback {
    3 + i
  }

  predicate IsHandler(args: seq<Argument>, c: Callback) {
    3 <= c < 3 + |args|
  }

  function ValueOf(args: Args): Value {
    if |args| > 1 then Array(args) else if |args| == 1 then args[0] else Undefined
  }

  /** What a subordinate that was resolved with `told` adds to the values of the master: the one argument
      itself, an array of several, and nothing defined when there was none. */
  ghost predicate Contributes(told: Args, value: Value) {
    && (forall v :: told == [v] ==> value == v)
    && (told == [] ==> value == Undefined)
    && (2 <= |told| ==> value == Array(told))
  }

  lemma ValueMeans(told: Args)
    ensures Contributes(told, ValueOf(told))
  {
  }

  function Initial(args: seq<Argument>, n: nat): WhenState {
    WhenState(0, false, |args|,
          seq(|args|, i requires 0 <= i < |args| => if args[i].Plain? then args[i].value else Undefined),
          seq(n, _ => []), seq(n, _ => Opened()), seq(n, _ => false), [],
          seq(|args|, _ => false), seq(|args|, _ => Places(0, 0)))
  }

  predicate Shaped(args: seq<Argument>, s: WhenState) {
    && |s.values| == |s.told| == |s.places| == |args| && |s.accounts| == |s.entered| == |s.subs|
    && s.visited <= |args| && (s.ended ==> s.visited == |args|)
    && forall i :: 0 <= i < |args| && args[i].Subordinate? ==> args[i].k < |s.subs|
  }

  /** A handler has its turn. */
  predicate HandlerRuns(args: seq<Argument>, a: Account) {
    a.turn && a.first.By? && a.over < |a.Listeners(a.first.side)| && IsHandler(args, a.Listeners(a.first.side)[a.over])
  }

  function RunningHandler(args: seq<Argument>, a: Account): (i: nat)
    requires HandlerRuns(args, a)
    ensures i < |args|
  {
    a.Listeners(a.first.side)[a.over] - 3
  }

  predicate Enabled(args: seq<Argument>, s: WhenState, e: Event) {
    Shaped(args, s) &&
    match e
    case Visit => s.visited < |args|
    case End => s.visited == |args| && !s.ended
    case Work(k) => k < |s.subs| && HandlerRuns(args, s.accounts[k]) && !s.entered[k]
    case On(k, call) => k < |s.subs| && (
      match call
      case Settle(_, _) => true
      case Listen(_, callbacks) => forall j :: 0 <= j < |callbacks| ==> !IsHandler(args, callbacks[j])
      case Returned => HandlerRuns(args, s.accounts[k]) ==> s.entered[k])
    case OnMaster(call) => !call.Settle?
  }

  function Called(s: WhenState, k: nat, call: Call): WhenState
    requires k < |s.subs| == |s.accounts| == |s.entered|
  {
    s.(subs := s.subs[k := s.subs[k] + [call]], accounts := s.accounts[k := Next(s.accounts[k], call)],
       entered := if call.Returned? then s.entered[k := false] else s.entered)
  }

  function Registered(s: WhenState, i: nat, k: nat): WhenState
    requires k < |s.subs| == |s.accounts| == |s.entered| && i < |s.places|
  {
    var a := s.accounts[k];
    Called(Called(s, k, Listen(DoneSide, [Handler(i)])), k, Listen(FailSide, [Handler(i)]))
      .(visited := s.visited + 1, places := s.places[i := Places(|a.done|, |a.fail|)])
  }

  function Resolving(s: WhenState): WhenState {
    if s.remaining == 0 then s.(master := s.master + [Settle(DoneSide, s.values)]) else s
  }

  /** The update function of argument `i`. */
  function Updated(s: WhenState, i: nat, args: Args): WhenState
    requires i < |s.values|
  {
    Resolving(s.(values := s.values[i := ValueOf(args)], remaining := s.remaining - 1))
  }

  function Worked(s: WhenState, k: nat, i: nat): WhenState
    requires k < |s.entered| && i < |s.told|
  {
    s.(entered := s.entered[k := true], told := s.told[i := true])
  }

  function Step(args: seq<Argument>, s: WhenState, e: Event): WhenState {
    if !Enabled(args, s, e) then s else
      match e
      case Visit =>
        if args[s.visited].Plain? then s.(visited := s.visited + 1, remaining := s.remaining - 1)
        else Registered(s, s.visited, args[s.visited].k)
      case End => Resolving(s.(ended := true))
      case Work(k) =>
        var i, first := RunningHandler(args, s.accounts[k]), s.accounts[k].first;
        if first.side == DoneSide then Updated(Worked(s, k, i), i, first.args)
        else Worked(s, k, i).(master := s.master + [Settle(FailSide, first.args)])
      case On(k, call) => Called(s, k, call)
      case OnMaster(call) => s.(master := s.master + [call])
  }

  /* ---- Where the handlers are ---- */

  function Place(s: WhenState, i: nat, side: Side): nat
    requires i < |s.places|
  {
    if side == DoneSide then s.places[i].done else s.places[i].fail
  }

  /** The turn of listener `j` is over, or it has done its work. */
  predicate IsOver(a: Account, entered: bool, j: nat) {
    a.first.By? && (j < a.over || (a.turn && j == a.over && entered))
  }

  /** The handlers of a visited argument are listeners of its deferred. */
  ghost predicate InPlace(args: seq<Argument>, s: WhenState, i: nat)
    requires Shaped(args, s) && i < |args|
  {
    i < s.visited && args[i].Subordinate? ==> forall side: Side ::
      |INTERNALS| <= Place(s, i, side) < |s.accounts[args[i].k].Listeners(side)| &&
      s.accounts[args[i].k].Listeners(side)[Place(s, i, side)] == Handler(i)
  }

  /** And nowhere else are they listeners. */
  ghost predicate NoStrangers(args: seq<Argument>, s: WhenState, k: nat)
    requires Shaped(args, s) && k < |s.subs|
  {
    forall side: Side, j {:trigger s.accounts[k].Listeners(side)[j]} ::
      0 <= j < |s.accounts[k].Listeners(side)| && IsHandler(args, s.accounts[k].Listeners(side)[j]) ==>
        var i := s.accounts[k].Listeners(side)[j] - 3;
        i < s.visited && args[i] == Subordinate(k) && j == Place(s, i, side)
  }

  /** A handler has run just when its turn is over, or it has done its work in its turn. */
  ghost predicate ToldRight(args: seq<Argument>, s: WhenState, i: nat)
    requires Shaped(args, s) && i < |args|
  {
    if i < s.visited && args[i].Subordinate? then
      var a := s.accounts[args[i].k];
      s.told[i] <==> a.first.By? && IsOver(a, s.entered[args[i].k], Place(s, i, a.first.side))
    else !s.told[i]
  }

  ghost predicate SubInv(args: seq<Argument>, s: WhenState, k: nat)
    requires Shaped(args, s) && k < |s.subs|
  {
    Sane(s.accounts[k]) && (s.entered[k] ==> s.accounts[k].turn) && NoStrangers(args, s, k)
  }

  ghost predicate HandlersInv(args: seq<Argument>, s: WhenState) {
    && Shaped(args, s)
    && (forall k :: 0 <= k < |s.subs| ==> SubInv(args, s, k))
    && (forall i :: 0 <= i < |args| ==> InPlace(args, s, i) && ToldRight(args, s, i))
  }

  /** A call that is not a listening of ours leaves alone what is over. */
  lemma CallKeepsOver(a: Account, entered: bool, call: Call, j: nat)
    requires Sane(a) && |INTERNALS| <= j && (entered ==> a.turn)
    requires call.Returned? && a.turn && j == a.over ==> entered
    ensures IsOver(Next(a, call), entered && !call.Returned?, j) == IsOver(a, entered, j)
  {
  }

  lemma CallKeepsPlaces(a: Account, call: Call, side: Side)
    ensures a.Listeners(side) <= Next(a, call).Listeners(side)
    ensures a.first.By? ==> Next(a, call).first == a.first
    ensures call.Listen? || Next(a, call).Listeners(side) == a.Listeners(side)
  {
  }

  lemma ListenAdds(a: Account, to: Side, callbacks: seq<UserCallback>, side: Side)
    ensures Next(a, Listen(to, callbacks)).Listeners(side) == a.Listeners(side) + if side == to then callbacks else []
  {
    NothingAfter(a.Listeners(side));
  }

  /** What a call adds to a list is no handler. */
  lemma CallAdds(args: seq<Argument>, s: WhenState, k: nat, call: Call, side: Side, j: nat)
    requires Enabled(args, s, On(k, call)) && j < |Next(s.accounts[k], call).Listeners(side)|
    requires IsHandler(args, Next(s.accounts[k], call).Listeners(side)[j])
    ensures j < |s.accounts[k].Listeners(side)| &&
      Next(s.accounts[k], call).Listeners(side)[j] == s.accounts[k].Listeners(side)[j]
  {
    CallKeepsPlaces(s.accounts[k], call, side);
    if call.Listen? {
      ListenAdds(s.accounts[k], call.side, call.callbacks, side);
    }
  }

  lemma CallKeepsStrangers(args: seq<Argument>, s: WhenState, k: nat, call: Call)
    requires Enabled(args, s, On(k, call)) && NoStrangers(args, s, k)
    ensures var t := Called(s, k, call); Shaped(args, t) && NoStrangers(args, t, k)
  {
    var t := Called(s, k, call);
    forall side: Side, j | 0 <= j < |t.accounts[k].Listeners(side)| && IsHandler(args, t.accounts[k].Listeners(side)[j])
      ensures j < |s.accounts[k].Listeners(side)| &&
        t.accounts[k].Listeners(side)[j] == s.accounts[k].Listeners(side)[j]
    {
      CallAdds(args, s, k, call, side, j);
    }
  }

  lemma CallKeepsSub(args: seq<Argument>, s: WhenState, k: nat, call: Call)
    requires HandlersInv(args, s) && Enabled(args, s, On(k, call))
    ensures var t := Called(s, k, call); Shaped(args, t) && SubInv(args, t, k)
  {
    assert SubInv(args, s, k);
    NextIsSane(s.accounts[k], call);
    CallKeepsStrangers(args, s, k, call);
  }

  lemma CallKeepsPlace(args: seq<Argument>, s: WhenState, k: nat, call: Call, i: nat)
    requires HandlersInv(args, s) && Enabled(args, s, On(k, call)) && i < |args|
    ensures var t := Called(s, k, call); Shaped(args, t) && InPlace(args, t, i)
  {
    assert InPlace(args, s, i);
    forall side: Side ensures s.accounts[k].Listeners(side) <= Next(s.accounts[k], call).Listeners(side) {
      CallKeepsPlaces(s.accounts[k], call, side);
    }
  }

  lemma CallKeepsOneTold(args: seq<Argument>, s: WhenState, k: nat, call: Call, i: nat)
    requires HandlersInv(args, s) && Enabled(args, s, On(k, call)) && i < s.visited && args[i] == Subordinate(k)
    requires Next(s.accounts[k], call).first.By?
    ensures var side := Next(s.accounts[k], call).first.side;
      s.told[i] == IsOver(Next(s.accounts[k], call), s.entered[k] && !call.Returned?, Place(s, i, side))
  {
    var a := s.accounts[k];
    var side := Next(a, call).first.side;
    assert InPlace(args, s, i) && ToldRight(args, s, i) && SubInv(args, s, k);
    assert a.Listeners(side)[Place(s, i, side)] == Handler(i);
    CallKeepsPlaces(a, call, side);
    CallKeepsOver(a, s.entered[k], call, Place(s, i, side));
  }

  lemma CallKeepsTold(args: seq<Argument>, s: WhenState, k: nat, call: Call, i: nat)
    requires HandlersInv(args, s) && Enabled(args, s, On(k, call)) && i < |args|
    ensures var t := Called(s, k, call); Shaped(args, t) && InPlace(args, t, i) && ToldRight(args, t, i)
  {
    CallKeepsPlace(args, s, k, call, i);
    assert ToldRight(args, s, i);
    if i < s.visited && args[i] == Subordinate(k) {
      CallKeepsPlaces(s.accounts[k], call, DoneSide);
      if Next(s.accounts[k], call).first.By? {
        CallKeepsOneTold(args, s, k, call, i);
      }
    }
  }

  lemma CalledKeeps(args: seq<Argument>, s: WhenState, k: nat, call: Call)
    requires HandlersInv(args, s) && Enabled(args, s, On(k, call))
    ensures HandlersInv(args, Called(s, k, call))
  {
    var t := Called(s, k, call);
    CallKeepsSub(args, s, k, call);
    forall m | 0 <= m < |t.subs| ensures SubInv(args, t, m) {
      if m != k {
        assert SubInv(args, s, m) && t.accounts[m] == s.accounts[m];
      }
    }
    forall i | 0 <= i < |args| ensures InPlace(args, t, i) && ToldRight(args, t, i) {
      CallKeepsTold(args, s, k, call, i);
    }
  }

  /** The account of the deferred after both listenings. */
  lemma RegisteredAccount(a: Account, i: nat)
    requires Sane(a)
    ensures var b := Next(Next(a, Listen(DoneSide, [Handler(i)])), Listen(FailSide, [Handler(i)]));
      b == Account(a.first, a.done + [Handler(i)], a.fail + [Handler(i)], a.over, a.turn || a.first.By?) && Sane(b)
  {
    NextIsSane(a, Listen(DoneSide, [Handler(i)]));
    NextIsSane(Next(a, Listen(DoneSide, [Handler(i)])), Listen(FailSide, [Handler(i)]));
  }

  lemma RegisteredIs(args: seq<Argument>, s: WhenState, i: nat, k: nat)
    requires HandlersInv(args, s) && i == s.visited < |args| && args[i] == Subordinate(k)
    ensures var a, t := s.accounts[k], Registered(s, i, k);
      && Shaped(args, t) && t.visited == i + 1 && t.places == s.places[i := Places(|a.done|, |a.fail|)]
      && t.accounts == s.accounts[k :=
           Account(a.first, a.done + [Handler(i)], a.fail + [Handler(i)], a.over, a.turn || a.first.By?)]
      && Sane(t.accounts[k]) && t.entered == s.entered && t.told == s.told
  {
    assert SubInv(args, s, k);
    RegisteredAccount(s.accounts[k], i);
  }

  /** An entry of a list after the registration: an old one, or the new handler. */
  lemma RegisteredEntry(args: seq<Argument>, s: WhenState, i: nat, k: nat, m: nat, side: Side, j: nat)
    requires HandlersInv(args, s) && i == s.visited < |args| && args[i] == Subordinate(k) && m < |s.subs|
    requires j < |Registered(s, i, k).accounts[m].Listeners(side)|
    ensures var c, before := Registered(s, i, k).accounts[m].Listeners(side)[j], s.accounts[m].Listeners(side);
      if j < |before| then c == before[j] else m == k && c == Handler(i) && j == Place(Registered(s, i, k), i, side)
  {
    RegisteredIs(args, s, i, k);
  }

  lemma RegisteredKeepsSub(args: seq<Argument>, s: WhenState, i: nat, k: nat, m: nat)
    requires HandlersInv(args, s) && i == s.visited < |args| && args[i] == Subordinate(k) && m < |s.subs|
    ensures var t := Registered(s, i, k); Shaped(args, t) && SubInv(args, t, m)
  {
    var t := Registered(s, i, k);
    RegisteredIs(args, s, i, k);
    assert SubInv(args, s, m);
    forall side: Side, j | 0 <= j < |t.accounts[m].Listeners(side)| && IsHandler(args, t.accounts[m].Listeners(side)[j])
      ensures var h := t.accounts[m].Listeners(side)[j] - 3;
        h < t.visited && args[h] == Subordinate(m) && j == Place(t, h, side)
    {
      RegisteredEntry(args, s, i, k, m, side, j);
    }
  }

  lemma NewHandlerTold(args: seq<Argument>, s: WhenState, i: nat, k: nat)
    requires HandlersInv(args, s) && i == s.visited < |args| && args[i] == Subordinate(k)
    ensures var t := Registered(s, i, k); Shaped(args, t) && InPlace(args, t, i) && ToldRight(args, t, i)
  {
    var a := s.accounts[k];
    RegisteredIs(args, s, i, k);
    assert ToldRight(args, s, i) && SubInv(args, s, k);
    assert |INTERNALS| <= |a.done| && |INTERNALS| <= |a.fail|;
    assert (a.done + [Handler(i)])[|a.done|] == Handler(i) && (a.fail + [Handler(i)])[|a.fail|] == Handler(i);
  }

  lemma RegisteredExtends(args: seq<Argument>, s: WhenState, i: nat, k: nat, m: nat, side: Side)
    requires HandlersInv(args, s) && i == s.visited < |args| && args[i] == Subordinate(k) && m < |s.subs|
    ensures m < |Registered(s, i, k).accounts| &&
      s.accounts[m].Listeners(side) <= Registered(s, i, k).accounts[m].Listeners(side)
  {
    RegisteredIs(args, s, i, k);
  }

  lemma OldHandlerInPlace(args: seq<Argument>, s: WhenState, i: nat, k: nat, h: nat)
    requires HandlersInv(args, s) && i == s.visited < |args| && args[i] == Subordinate(k) && h < i
    ensures var t := Registered(s, i, k); Shaped(args, t) && InPlace(args, t, h)
  {
    var t := Registered(s, i, k);
    RegisteredIs(args, s, i, k);
    assert InPlace(args, s, h);
    if args[h].Subordinate? {
      forall side: Side ensures s.accounts[args[h].k].Listeners(side) <= t.accounts[args[h].k].Listeners(side) {
        RegisteredExtends(args, s, i, k, args[h].k, side);
      }
    }
  }

  lemma OldHandlerTold(args: seq<Argument>, s: WhenState, i: nat, k: nat, h: nat)
    requires HandlersInv(args, s) && i == s.visited < |args| && args[i] == Subordinate(k) && h < i &&
      args[h] == Subordinate(k)
    ensures var t := Registered(s, i, k); Shaped(args, t) && ToldRight(args, t, h)
  {
    RegisteredIs(args, s, i, k);
    assert InPlace(args, s, h) && ToldRight(args, s, h) && SubInv(args, s, k);
    if s.accounts[k].first.By? {
      assert Place(s, h, s.accounts[k].first.side) < |s.accounts[k].Listeners(s.accounts[k].first.side)|;
    }
  }

  lemma RegisteredKeepsTold(args: seq<Argument>, s: WhenState, i: nat, k: nat, h: nat)
    requires HandlersInv(args, s) && i == s.visited < |args| && args[i] == Subordinate(k) && h < |args|
    ensures var t := Registered(s, i, k); Shaped(args, t) && InPlace(args, t, h) && ToldRight(args, t, h)
  {
    if h == i {
      NewHandlerTold(args, s, i, k);
    } else if h < i {
      OldHandlerInPlace(args, s, i, k, h);
      if args[h] == Subordinate(k) {
        OldHandlerTold(args, s, i, k, h);
      } else {
        OtherHandlerTold(args, s, i, k, h);
      }
    } else {
      OtherHandlerTold(args, s, i, k, h);
    }
  }

  lemma OtherHandlerTold(args: seq<Argument>, s: WhenState, i: nat, k: nat, h: nat)
    requires HandlersInv(args, s) && i == s.visited < |args| && args[i] == Subordinate(k)
    requires h < |args| && h != i && (h < i ==> args[h] != Subordinate(k))
    ensures var t := Registered(s, i, k); Shaped(args, t) && ToldRight(args, t, h)
  {
    RegisteredIs(args, s, i, k);
    assert ToldRight(args, s, h);
  }

  lemma RegisteredKeeps(args: seq<Argument>, s: WhenState, i: nat, k: nat)
    requires HandlersInv(args, s) && i == s.visited < |args| && args[i] == Subordinate(k)
    ensures HandlersInv(args, Registered(s, i, k))
  {
    var t := Registered(s, i, k);
    RegisteredIs(args, s, i, k);
    forall m | 0 <= m < |t.subs| ensures SubInv(args, t, m) {
      RegisteredKeepsSub(args, s, i, k, m);
    }
    forall h | 0 <= h < |args| ensures InPlace(args, t, h) && ToldRight(args, t, h) {
      RegisteredKeepsTold(args, s, i, k, h);
    }
  }

  /** A handler that gets its turn has not run before: it is one listener, and a listener has one
      turn. */
  lemma FirstTime(args: seq<Argument>, s: WhenState, k: nat)
    requires HandlersInv(args, s) && Enabled(args, s, Work(k))
    ensures var i := RunningHandler(args, s.accounts[k]);
      i < s.visited && args[i] == Subordinate(k) && !s.told[i] &&
        Place(s, i, s.accounts[k].first.side) == s.accounts[k].over
  {
    var a := s.accounts[k];
    var i := RunningHandler(args, a);
    assert SubInv(args, s, k) && ToldRight(args, s, i);
    assert IsHandler(args, a.Listeners(a.first.side)[a.over]);
  }

  lemma WorkedKeepsTold(args: seq<Argument>, s: WhenState, k: nat, h: nat)
    requires HandlersInv(args, s) && Enabled(args, s, Work(k)) && h < |args|
    ensures var t := Worked(s, k, RunningHandler(args, s.accounts[k]));
      Shaped(args, t) && InPlace(args, t, h) && ToldRight(args, t, h)
  {
    FirstTime(args, s, k);
    assert InPlace(args, s, h) && ToldRight(args, s, h) && SubInv(args, s, k);
    var a := s.accounts[k];
    if h < s.visited && args[h] == Subordinate(k) {
      assert a.Listeners(a.first.side)[Place(s, h, a.first.side)] == Handler(h);
    }
  }

  lemma WorkedKeeps(args: seq<Argument>, s: WhenState, k: nat)
    requires HandlersInv(args, s) && Enabled(args, s, Work(k))
    ensures HandlersInv(args, Worked(s, k, RunningHandler(args, s.accounts[k])))
  {
    var t := Worked(s, k, RunningHandler(args, s.accounts[k]));
    forall m | 0 <= m < |t.subs| ensures SubInv(args, t, m) {
      assert SubInv(args, s, m);
    }
    forall h | 0 <= h < |args| ensures InPlace(args, t, h) && ToldRight(args, t, h) {
      WorkedKeepsTold(args, s, k, h);
    }
  }

  /** Fields that the handlers' invariant does not look at. */
  lemma OtherFields(args: seq<Argument>, s: WhenState, t: WhenState)
    requires HandlersInv(args, s) && Shaped(args, t) && t.accounts == s.accounts && t.entered == s.entered
    requires t.told == s.told && t.places == s.places && |t.subs| == |s.subs|
    requires t.visited == s.visited || (t.visited == s.visited + 1 && args[s.visited].Plain?)
    ensures HandlersInv(args, t)
  {
    forall m | 0 <= m < |t.subs| ensures SubInv(args, t, m) {
      assert SubInv(args, s, m);
    }
    forall h | 0 <= h < |args| ensures InPlace(args, t, h) && ToldRight(args, t, h) {
      assert InPlace(args, s, h) && ToldRight(args, s, h);
    }
  }

  lemma HandlersKept(args: seq<Argument>, s: WhenState, e: Event)
    requires HandlersInv(args, s)
    ensures HandlersInv(args, Step(args, s, e))
  {
    if Enabled(args, s, e) {
      var t := Step(args, s, e);
      match e
      case Visit =>
        if args[s.visited].Plain? {
          OtherFields(args, s, t);
        } else {
          RegisteredKeeps(args, s, s.visited, args[s.visited].k);
        }
      case End => OtherFields(args, s, t);
      case Work(k) =>
        WorkedKeeps(args, s, k);
        OtherFields(args, Worked(s, k, RunningHandler(args, s.accounts[k])), t);
      case On(k, call) => CalledKeeps(args, s, k, call);
      case OnMaster(_) => OtherFields(args, s, t);
    }
  }

  /* ---- The countdown ---- */

  /** What the handler of an argument has been told. */
  datatype Outcome = Waiting | Done(args: Args) | Failed(args: Args)

  function OutcomeOf(args: seq<Argument>, s: WhenState, i: nat): Outcome
    requires Shaped(args, s) && i < |args|
  {
    if args[i].Plain? || !s.told[i] then Waiting
    else match s.accounts[args[i].k].first
      case Nobody => Waiting
      case By(DoneSide, told) => Done(told)
      case By(FailSide, told) => Failed(told)
  }

  /** Argument `i` still holds the master back. */
  predicate Open(args: seq<Argument>, s: WhenState, i: nat)
    requires Shaped(args, s) && i < |args|
  {
    i >= s.visited || (args[i].Subordinate? && !OutcomeOf(args, s, i).Done?)
  }

  function CountOpen(args: seq<Argument>, s: WhenState, n: nat): nat
    requires Shaped(args, s) && n <= |args|
  {
    if n == 0 then 0 else CountOpen(args, s, n - 1) + if Open(args, s, n - 1) then 1 else 0
  }

  /** The values in argument order, where they are known. */
  ghost predicate RightValues(args: seq<Argument>, s: WhenState)
    requires Shaped(args, s)
  {
    forall i :: 0 <= i < |args| ==>
      (args[i].Plain? ==> s.values[i] == args[i].value) &&
      (OutcomeOf(args, s, i).Done? ==> s.values[i] == ValueOf(OutcomeOf(args, s, i).args))
  }

  ghost predicate AnyFailed(args: seq<Argument>, s: WhenState)
    requires Shaped(args, s)
  {
    exists i :: 0 <= i < |args| && OutcomeOf(args, s, i).Failed?
  }

  /** What has been done to the master. */
  ghost predicate MasterInv(args: seq<Argument>, s: WhenState)
    requires Shaped(args, s)
  {
    match FirstSettle(s.master)
    case Nobody => !AnyFailed(args, s) && (s.ended ==> s.remaining != 0)
    case By(DoneSide, values) => s.remaining == 0 && values == s.values
    case By(FailSide, told) => exists i :: 0 <= i < |args| && OutcomeOf(args, s, i) == Failed(told)
  }

  ghost predicate ResultsInv(args: seq<Argument>, s: WhenState) {
    Shaped(args, s) && s.remaining == CountOpen(args, s, |args|) && RightValues(args, s) && MasterInv(args, s)
  }

  lemma {:induction false} CountSame(args: seq<Argument>, s: WhenState, t: WhenState, n: nat)
    requires Shaped(args, s) && Shaped(args, t) && n <= |args|
    requires forall i: nat :: i < n ==> Open(args, s, i) == Open(args, t, i)
    ensures CountOpen(args, s, n) == CountOpen(args, t, n)
    decreases n
  {
    if n > 0 {
      CountSame(args, s, t, n - 1);
    }
  }

  lemma {:induction false} CountOneLess(args: seq<Argument>, s: WhenState, t: WhenState, k: nat, n: nat)
    requires Shaped(args, s) && Shaped(args, t) && k < n <= |args| && Open(args, s, k) && !Open(args, t, k)
    requires forall i: nat :: i < n && i != k ==> Open(args, s, i) == Open(args, t, i)
    ensures CountOpen(args, s, n) == CountOpen(args, t, n) + 1
    decreases n
  {
    if k < n - 1 {
      CountOneLess(args, s, t, k, n - 1);
    } else {
      CountSame(args, s, t, n - 1);
    }
  }

  lemma {:induction false} CountAll(args: seq<Argument>, s: WhenState, n: nat)
    requires Shaped(args, s) && n <= |args|
    ensures CountOpen(args, s, n) == 0 <==> forall i: nat :: i < n ==> !Open(args, s, i)
    decreases n
  {
    if n > 0 {
      CountAll(args, s, n - 1);
    }
  }

  lemma {:induction false} CountUnvisited(args: seq<Argument>, s: WhenState, n: nat)
    requires Shaped(args, s) && n <= |args| && s.visited == 0
    ensures CountOpen(args, s, n) == n
    decreases n
  {
    if n > 0 {
      CountUnvisited(args, s, n - 1);
    }
  }

  /** A step that tells no handler anything and settles nothing. */
  lemma SameResults(args: seq<Argument>, s: WhenState, t: WhenState)
    requires ResultsInv(args, s) && Shaped(args, t) && t.remaining == s.remaining && t.values == s.values &&
      t.ended == s.ended
    requires FirstSettle(t.master) == FirstSettle(s.master)
    requires forall i: nat :: i < |args| ==>
      OutcomeOf(args, t, i) == OutcomeOf(args, s, i) && Open(args, t, i) == Open(args, s, i)
    ensures ResultsInv(args, t)
  {
    CountSame(args, s, t, |args|);
    if FirstSettle(s.master).By? && FirstSettle(s.master).side == FailSide {
      var i :| 0 <= i < |args| && OutcomeOf(args, s, i) == Failed(FirstSettle(s.master).args);
      assert OutcomeOf(args, t, i) == Failed(FirstSettle(t.master).args);
    }
  }

  lemma CallResults(args: seq<Argument>, s: WhenState, k: nat, call: Call)
    requires HandlersInv(args, s) && ResultsInv(args, s) && Enabled(args, s, On(k, call))
    ensures ResultsInv(args, Called(s, k, call))
  {
    var t := Called(s, k, call);
    forall i: nat | i < |args| ensures OutcomeOf(args, t, i) == OutcomeOf(args, s, i) {
      assert ToldRight(args, s, i);
      CallKeepsPlaces(s.accounts[k], call, DoneSide);
    }
    SameResults(args, s, t);
  }

  lemma RegisteredResults(args: seq<Argument>, s: WhenState, i: nat, k: nat)
    requires HandlersInv(args, s) && ResultsInv(args, s) && i == s.visited < |args| && args[i] == Subordinate(k)
    ensures ResultsInv(args, Registered(s, i, k))
  {
    var t := Registered(s, i, k);
    RegisteredIs(args, s, i, k);
    forall h: nat | h < |args| ensures OutcomeOf(args, t, h) == OutcomeOf(args, s, h) {
    }
    assert ToldRight(args, s, i);
    SameResults(args, s, t);
  }

  lemma PlainResults(args: seq<Argument>, s: WhenState)
    requires ResultsInv(args, s) && s.visited < |args| && args[s.visited].Plain?
    ensures ResultsInv(args, s.(visited := s.visited + 1, remaining := s.remaining - 1))
  {
    var t := s.(visited := s.visited + 1, remaining := s.remaining - 1);
    assert forall i: nat :: i < |args| ==> OutcomeOf(args, t, i) == OutcomeOf(args, s, i);
    CountOneLess(args, s, t, s.visited, |args|);
    assert Open(args, s, s.visited);
    CountAll(args, s, |args|);
    SameMaster(args, s, t);
  }

  lemma SameMaster(args: seq<Argument>, s: WhenState, t: WhenState)
    requires Shaped(args, s) && Shaped(args, t) && MasterInv(args, s) && t.master == s.master && t.values == s.values
    requires s.remaining != 0 && s.ended == t.ended == false
    requires forall i: nat :: i < |args| ==> OutcomeOf(args, t, i) == OutcomeOf(args, s, i)
    ensures MasterInv(args, t)
  {
    if FirstSettle(s.master).By? && FirstSettle(s.master).side == FailSide {
      var i :| 0 <= i < |args| && OutcomeOf(args, s, i) == Failed(FirstSettle(s.master).args);
      assert OutcomeOf(args, t, i) == Failed(FirstSettle(t.master).args);
    }
  }

  lemma FirstSettleMore(calls: seq<Call>, call: Call)
    ensures FirstSettle(calls + [call]) == FirstAfter(FirstSettle(calls), call)
  {
    assert (calls + [call])[..|calls|] == calls;
  }

  lemma EndResults(args: seq<Argument>, s: WhenState)
    requires ResultsInv(args, s) && s.visited == |args| && !s.ended
    ensures ResultsInv(args, Resolving(s.(ended := true)))
  {
    var t := Resolving(s.(ended := true));
    FirstSettleMore(s.master, Settle(DoneSide, s.values));
    assert forall i: nat :: i < |args| ==> OutcomeOf(args, t, i) == OutcomeOf(args, s, i);
    CountSame(args, s, t, |args|);
    if FirstSettle(s.master).By? && FirstSettle(s.master).side == FailSide {
      var i :| 0 <= i < |args| && OutcomeOf(args, s, i) == Failed(FirstSettle(s.master).args);
      assert OutcomeOf(args, t, i) == Failed(FirstSettle(t.master).args);
    }
  }

  /** The outcomes after a handler has done its work. */
  lemma WorkedOutcomes(args: seq<Argument>, s: WhenState, k: nat, t: WhenState, h: nat)
    requires HandlersInv(args, s) && Enabled(args, s, Work(k)) && h < |args|
    requires t == Step(args, s, Work(k))
    ensures var i, a := RunningHandler(args, s.accounts[k]), s.accounts[k];
      Shaped(args, t) && OutcomeOf(args, t, h) ==
        if h != i then OutcomeOf(args, s, h)
        else if a.first.side == DoneSide then Done(a.first.args) else Failed(a.first.args)
  {
    FirstTime(args, s, k);
  }

  lemma WorkResults(args: seq<Argument>, s: WhenState, k: nat)
    requires HandlersInv(args, s) && ResultsInv(args, s) && Enabled(args, s, Work(k))
    ensures ResultsInv(args, Step(args, s, Work(k)))
  {
    if s.accounts[k].first.side == DoneSide {
      DoneResults(args, s, k);
    } else {
      FailedResults(args, s, k);
    }
  }

  lemma DoneResults(args: seq<Argument>, s: WhenState, k: nat)
    requires HandlersInv(args, s) && ResultsInv(args, s) && Enabled(args, s, Work(k)) &&
      s.accounts[k].first.side == DoneSide
    ensures ResultsInv(args, Step(args, s, Work(k)))
  {
    var t, i := Step(args, s, Work(k)), RunningHandler(args, s.accounts[k]);
    FirstTime(args, s, k);
    forall h: nat | h < |args|
      ensures OutcomeOf(args, t, h) == if h != i then OutcomeOf(args, s, h) else Done(s.accounts[k].first.args)
    {
      WorkedOutcomes(args, s, k, t, h);
    }
    assert Open(args, s, i);
    CountOneLess(args, s, t, i, |args|);
    CountAll(args, s, |args|);
    CountAll(args, t, |args|);
    DoneMaster(args, s, t, i);
  }

  lemma DoneMaster(args: seq<Argument>, s: WhenState, t: WhenState, i: nat)
    requires ResultsInv(args, s) && Shaped(args, t) && i < |args| && s.remaining != 0 && t.ended == s.ended &&
      OutcomeOf(args, s, i).Waiting?
    requires t.remaining == s.remaining - 1
    requires t.master == if t.remaining == 0 then s.master + [Settle(DoneSide, t.values)] else s.master
    requires forall h: nat :: h < |args| && h != i ==> OutcomeOf(args, t, h) == OutcomeOf(args, s, h)
    requires OutcomeOf(args, t, i).Done?
    requires t.remaining == 0 ==> forall h: nat :: h < |args| ==> !Open(args, t, h)
    ensures MasterInv(args, t)
  {
    FirstSettleMore(s.master, Settle(DoneSide, t.values));
    if FirstSettle(s.master).By? && FirstSettle(s.master).side == FailSide {
      var h :| 0 <= h < |args| && OutcomeOf(args, s, h) == Failed(FirstSettle(s.master).args);
      assert OutcomeOf(args, t, h) == Failed(FirstSettle(t.master).args);
    }
  }

  lemma FailedResults(args: seq<Argument>, s: WhenState, k: nat)
    requires HandlersInv(args, s) && ResultsInv(args, s) && Enabled(args, s, Work(k)) &&
      s.accounts[k].first.side == FailSide
    ensures ResultsInv(args, Step(args, s, Work(k)))
  {
    var t, i := Step(args, s, Work(k)), RunningHandler(args, s.accounts[k]);
    FirstTime(args, s, k);
    forall h: nat | h < |args|
      ensures OutcomeOf(args, t, h) == if h != i then OutcomeOf(args, s, h) else Failed(s.accounts[k].first.args)
    {
      WorkedOutcomes(args, s, k, t, h);
    }
    assert Open(args, s, i);
    CountSame(args, s, t, |args|);
    CountAll(args, s, |args|);
    FirstSettleMore(s.master, Settle(FailSide, s.accounts[k].first.args));
    assert OutcomeOf(args, t, i) == Failed(s.accounts[k].first.args);
    if FirstSettle(s.master).By? && FirstSettle(s.master).side == FailSide {
      var h :| 0 <= h < |args| && OutcomeOf(args, s, h) == Failed(FirstSettle(s.master).args);
      assert OutcomeOf(args, t, h) == Failed(FirstSettle(t.master).args);
    }
  }

  lemma PromiseResults(args: seq<Argument>, s: WhenState, call: Call)
    requires ResultsInv(args, s) && !call.Settle?
    ensures ResultsInv(args, s.(master := s.master + [call]))
  {
    FirstSettleMore(s.master, call);
    SameResults(args, s, s.(master := s.master + [call]));
  }

  lemma ResultsKept(args: seq<Argument>, s: WhenState, e: Event)
    requires HandlersInv(args, s) && ResultsInv(args, s)
    ensures ResultsInv(args, Step(args, s, e))
  {
    if Enabled(args, s, e) {
      match e
      case Visit =>
        if args[s.visited].Plain? {
          PlainResults(args, s);
        } else {
          RegisteredResults(args, s, s.visited, args[s.visited].k);
        }
      case End => EndResults(args, s);
      case Work(k) => WorkResults(args, s, k);
      case On(k, call) => CallResults(args, s, k, call);
      case OnMaster(call) => PromiseResults(args, s, call);
    }
  }

  /* ---- Every run ---- */

  ghost predicate Inv(args: seq<Argument>, s: WhenState) {
    HandlersInv(args, s) && ResultsInv(args, s) &&
    forall k :: 0 <= k < |s.subs| ==> s.accounts[k] == AccountOf(s.subs[k])
  }

  lemma CallAccount(s: WhenState, k: nat, call: Call, m: nat)
    requires k < |s.subs| == |s.accounts| == |s.entered| && m < |s.subs| && s.accounts[m] == AccountOf(s.subs[m])
    ensures Called(s, k, call).accounts[m] == AccountOf(Called(s, k, call).subs[m])
  {
    AccountMore(s.subs[k], call);
  }

  lemma RegisteredAccounts(s: WhenState, i: nat, k: nat, m: nat)
    requires k < |s.subs| == |s.accounts| == |s.entered| && m < |s.subs| && s.accounts[m] == AccountOf(s.subs[m]) &&
      i < |s.places|
    ensures Registered(s, i, k).accounts[m] == AccountOf(Registered(s, i, k).subs[m])
  {
    var first, second := Listen(DoneSide, [Handler(i)]), Listen(FailSide, [Handler(i)]);
    CallAccount(s, k, first, m);
    CallAccount(Called(s, k, first), k, second, m);
  }

  lemma AccountsKept(args: seq<Argument>, s: WhenState, e: Event)
    requires Shaped(args, s) && forall k :: 0 <= k < |s.subs| ==> s.accounts[k] == AccountOf(s.subs[k])
    ensures var t := Step(args, s, e);
      Shaped(args, t) && forall k :: 0 <= k < |t.subs| ==> t.accounts[k] == AccountOf(t.subs[k])
  {
    var t := Step(args, s, e);
    if Enabled(args, s, e) {
      forall m | 0 <= m < |t.subs| ensures t.accounts[m] == AccountOf(t.subs[m]) {
        if e.On? {
          CallAccount(s, e.k, e.call, m);
        } else if e.Visit? && args[s.visited].Subordinate? {
          RegisteredAccounts(s, s.visited, args[s.visited].k, m);
        }
      }
    }
  }

  lemma StepKeeps(args: seq<Argument>, s: WhenState, e: Event)
    requires Inv(args, s)
    ensures Inv(args, Step(args, s, e))
  {
    HandlersKept(args, s, e);
    ResultsKept(args, s, e);
    AccountsKept(args, s, e);
  }

  /** The arguments are among the `n` deferreds of the program. */
  predicate Fit(args: seq<Argument>, n: nat) {
    forall i :: 0 <= i < |args| && args[i].Subordinate? ==> args[i].k < n
  }

  lemma InitialInv(args: seq<Argument>, n: nat)
    requires Fit(args, n)
    ensures Inv(args, Initial(args, n))
  {
    var s := Initial(args, n);
    CountUnvisited(args, s, |args|);
    forall k | 0 <= k < |s.subs| ensures SubInv(args, s, k) && s.accounts[k] == AccountOf(s.subs[k]) {
      AccountIsSane([]);
    }
  }

  /** Where a sequence of events leads. */
  function RunFrom(args: seq<Argument>, s: WhenState, events: seq<Event>): WhenState {
    if events == [] then s else Step(args, RunFrom(args, s, events[..|events| - 1]), events[|events| - 1])
  }

  function Run(args: seq<Argument>, n: nat, events: seq<Event>): WhenState {
    RunFrom(args, Initial(args, n), events)
  }

  lemma {:induction false} RunFromKeeps(args: seq<Argument>, s: WhenState, events: seq<Event>)
    requires Inv(args, s)
    ensures Inv(args, RunFrom(args, s, events))
    decreases |events|
  {
    if events != [] {
      RunFromKeeps(args, s, events[..|events| - 1]);
      StepKeeps(args, RunFrom(args, s, events[..|events| - 1]), events[|events| - 1]);
    }
  }

  lemma RunKeeps(args: seq<Argument>, n: nat, events: seq<Event>)
    requires Fit(args, n)
    ensures Inv(args, Run(args, n, events))
  {
    InitialInv(args, n);
    RunFromKeeps(args, Initial(args, n), events);
  }

  /** The deferred of an argument after the run, and the master. */
  ghost function Sub(args: seq<Argument>, s: WhenState, i: nat): Deferred
    requires Shaped(args, s) && i < |args| && args[i].Subordinate?
  {
    Deferreds.Run(s.subs[args[i].k])
  }

  ghost function Master(s: WhenState): Deferred {
    Deferreds.Run(s.master)
  }

  ghost predicate AllResolved(args: seq<Argument>, s: WhenState)
    requires Shaped(args, s)
  {
    forall i :: 0 <= i < |args| && args[i].Subordinate? ==> Sub(args, s, i).state == Resolved
  }

  ghost predicate AnyRejected(args: seq<Argument>, s: WhenState)
    requires Shaped(args, s)
  {
    exists i :: 0 <= i < |args| && args[i].Subordinate? && Sub(args, s, i).state == Rejected
  }

  /** No callback of a subordinate is running. */
  ghost predicate Quiet(args: seq<Argument>, s: WhenState)
    requires Shaped(args, s)
  {
    forall i :: 0 <= i < |args| && args[i].Subordinate? ==> !Sub(args, s, i).done.firing && !Sub(args, s, i).fail.firing
  }

  /** The values that the master is to be resolved with: those of the arguments, in their order. */
  ghost predicate InOrder(args: seq<Argument>, s: WhenState, values: seq<Value>)
    requires Shaped(args, s)
  {
    |values| == |args| && forall i :: 0 <= i < |args| ==>
      match args[i]
      case Plain(value) => values[i] == value
      case Subordinate(k) => FirstSettle(s.subs[k]).By? && Contributes(FirstSettle(s.subs[k]).args, values[i])
  }

  /** Some subordinate is rejected, and what settled it settled the master too. */
  ghost predicate RejectedByOne(args: seq<Argument>, s: WhenState)
    requires Shaped(args, s)
  {
    exists i :: 0 <= i < |args| && args[i].Subordinate? && Settles(args, s, i)
  }

  ghost predicate Settles(args: seq<Argument>, s: WhenState, i: nat)
    requires Shaped(args, s) && i < |args| && args[i].Subordinate?
  {
    Sub(args, s, i).state == Rejected && FirstSettle(s.subs[args[i].k]).By? &&
      FirstSettle(s.subs[args[i].k]) == FirstSettle(s.master)
  }

  /** What the outcome of a handler says of its deferred. */
  lemma OutcomeMeans(args: seq<Argument>, s: WhenState, i: nat)
    requires Inv(args, s) && i < |args| && args[i].Subordinate?
    ensures match OutcomeOf(args, s, i)
      case Waiting => true
      case Done(told) => Sub(args, s, i).state == Resolved && FirstSettle(s.subs[args[i].k]) == By(DoneSide, told)
      case Failed(told) => Sub(args, s, i).state == Rejected && FirstSettle(s.subs[args[i].k]) == By(FailSide, told)
  {
    var k := args[i].k;
    AccountIsSane(s.subs[k]);
    AccountIsTrue(s.subs[k]);
  }

  /** A settled deferred that is quiet has told its handlers. */
  lemma QuietIsTold(args: seq<Argument>, s: WhenState, i: nat)
    requires Inv(args, s) && i < s.visited && args[i].Subordinate?
    requires !Sub(args, s, i).done.firing && !Sub(args, s, i).fail.firing && Sub(args, s, i).state != Pending
    ensures !OutcomeOf(args, s, i).Waiting?
  {
    var k := args[i].k;
    AccountIsSane(s.subs[k]);
    AccountIsTrue(s.subs[k]);
    assert InPlace(args, s, i) && ToldRight(args, s, i) && SubInv(args, s, k);
    var side := s.accounts[k].first.side;
    assert Place(s, i, side) < |s.accounts[k].Listeners(side)|;
  }

  lemma NothingOpen(args: seq<Argument>, s: WhenState)
    requires Inv(args, s) && s.ended
    ensures s.remaining == 0 <==> forall i :: 0 <= i < |args| && args[i].Subordinate? ==> OutcomeOf(args, s, i).Done?
  {
    CountAll(args, s, |args|);
    if forall i :: 0 <= i < |args| && args[i].Subordinate? ==> OutcomeOf(args, s, i).Done? {
      forall i: nat | i < |args| ensures !Open(args, s, i) {
      }
    } else {
      var i :| 0 <= i < |args| && args[i].Subordinate? && !OutcomeOf(args, s, i).Done?;
      assert Open(args, s, i);
    }
  }

  lemma MasterState(s: WhenState)
    ensures match FirstSettle(s.master)
      case Nobody => Master(s).state == Pending
      case By(side, _) => Master(s).state == Final(side)
  {
    Deferreds.EveryRun(s.master);
  }

  lemma ResolvedMeans(args: seq<Argument>, s: WhenState)
    requires Inv(args, s) && s.ended && Master(s).state == Resolved
    ensures FirstSettle(s.master).By? && InOrder(args, s, FirstSettle(s.master).args) && AllResolved(args, s)
  {
    MasterState(s);
    NothingOpen(args, s);
    forall i | 0 <= i < |args| && args[i].Subordinate?
      ensures Sub(args, s, i).state == Resolved && FirstSettle(s.subs[args[i].k]).By?
      ensures Contributes(FirstSettle(s.subs[args[i].k]).args, s.values[i])
    {
      OutcomeMeans(args, s, i);
      ValueMeans(FirstSettle(s.subs[args[i].k]).args);
    }
  }

  lemma RejectedMeans(args: seq<Argument>, s: WhenState)
    requires Inv(args, s) && Master(s).state == Rejected
    ensures RejectedByOne(args, s)
  {
    MasterState(s);
    var i :| 0 <= i < |args| && OutcomeOf(args, s, i) == Failed(FirstSettle(s.master).args);
    OutcomeMeans(args, s, i);
    assert Settles(args, s, i);
  }

  lemma AllResolvedMeans(args: seq<Argument>, s: WhenState)
    requires Inv(args, s) && s.ended && Quiet(args, s) && AllResolved(args, s)
    ensures Master(s).state == Resolved
  {
    forall i | 0 <= i < |args| && args[i].Subordinate? ensures OutcomeOf(args, s, i).Done? {
      QuietIsTold(args, s, i);
      OutcomeMeans(args, s, i);
    }
    NothingOpen(args, s);
    MasterState(s);
    if Master(s).state == Rejected {
      RejectedMeans(args, s);
    }
  }

  lemma AnyRejectedMeans(args: seq<Argument>, s: WhenState)
    requires Inv(args, s) && s.ended && Quiet(args, s) && AnyRejected(args, s)
    ensures Master(s).state == Rejected
  {
    var i :| 0 <= i < |args| && args[i].Subordinate? && Sub(args, s, i).state == Rejected;
    QuietIsTold(args, s, i);
    OutcomeMeans(args, s, i);
    assert OutcomeOf(args, s, i).Failed?;
    MasterState(s);
    if Master(s).state == Resolved {
      ResolvedMeans(args, s);
    }
  }

  /** What the master's state means: it is resolved only when all subordinates are, with their values
      in argument order, and rejected only when one is, with that one's arguments. When no callback
      of a subordinate is running, the converse holds as well. */
  ghost predicate MasterMeans(args: seq<Argument>, s: WhenState)
    requires Shaped(args, s)
  {
    && (Master(s).state == Resolved ==>
         AllResolved(args, s) && FirstSettle(s.master).By? && InOrder(args, s, FirstSettle(s.master).args))
    && (Master(s).state == Rejected ==> RejectedByOne(args, s))
    && (Quiet(args, s) ==>
         (Master(s).state == Resolved <==> AllResolved(args, s)) &&
           (Master(s).state == Rejected <==> AnyRejected(args, s)))
  }

  lemma InvMeans(args: seq<Argument>, s: WhenState)
    requires Inv(args, s) && s.ended
    ensures MasterMeans(args, s)
  {
    if Master(s).state == Resolved {
      ResolvedMeans(args, s);
    }
    if Master(s).state == Rejected {
      RejectedMeans(args, s);
    }
    if Quiet(args, s) && AllResolved(args, s) {
      AllResolvedMeans(args, s);
    }
    if Quiet(args, s) && AnyRejected(args, s) {
      AnyRejectedMeans(args, s);
    }
  }

  /** Over every run, once `when` has returned. */
  lemma EveryRun(args: seq<Argument>, n: nat, events: seq<Event>)
    requires Fit(args, n) && Run(args, n, events).ended
    ensures Shaped(args, Run(args, n, events)) && MasterMeans(args, Run(args, n, events))
  {
    RunKeeps(args, n, events);
    InvMeans(args, Run(args, n, events));
  }

  /* ---- Once ---- */

  lemma NextRun(args: seq<Argument>, s: WhenState, events: seq<Event>, e: Event)
    ensures RunFrom(args, s, events + [e]) == Step(args, RunFrom(args, s, events), e)
  {
    assert (events + [e])[..|events|] == events;
  }

  lemma {:induction false} RunOn(args: seq<Argument>, s: WhenState, events: seq<Event>, more: seq<Event>)
    ensures RunFrom(args, s, events + more) == RunFrom(args, RunFrom(args, s, events), more)
    decreases |more|
  {
    if more == [] {
      NothingAfter(events);
    } else {
      var before, e := more[..|more| - 1], more[|more| - 1];
      RunOn(args, s, events, before);
      SplitLast(events, more);
      NextRun(args, s, events + before, e);
    }
  }

  lemma MasterGrows(args: seq<Argument>, s: WhenState, e: Event)
    ensures s.master <= Step(args, s, e).master
  {
  }

  lemma {:induction false} MasterOnlyGrows(args: seq<Argument>, s: WhenState, more: seq<Event>)
    ensures s.master <= RunFrom(args, s, more).master
    decreases |more|
  {
    if more != [] {
      MasterOnlyGrows(args, s, more[..|more| - 1]);
      MasterGrows(args, RunFrom(args, s, more[..|more| - 1]), more[|more| - 1]);
    }
  }

  lemma SettledPrefix(early: seq<Call>, late: seq<Call>)
    requires early <= late && Deferreds.Run(early).state != Pending
    ensures Deferreds.Run(late).state == Deferreds.Run(early).state
  {
    assert late == early + late[|early|..];
    SettlesOnce(early, late[|early|..]);
  }

  /** The master settles at most once: more than one call may be made to settle it, but it is a
      deferred, and the first one counts. */
  lemma MasterSettlesOnce(args: seq<Argument>, n: nat, events: seq<Event>, more: seq<Event>)
    requires Master(Run(args, n, events)).state != Pending
    ensures Master(Run(args, n, events + more)).state == Master(Run(args, n, events)).state
  {
    RunOn(args, Initial(args, n), events, more);
    MasterOnlyGrows(args, Run(args, n, events), more);
    SettledPrefix(Run(args, n, events).master, Run(args, n, events + more).master);
  }

  /** No handler of an argument does its work twice, and never both of them: at its turn it has not
      been told yet, because its deferred gives each listener one turn, on one side. */
  lemma HandlersRunOnce(args: seq<Argument>, n: nat, events: seq<Event>, k: nat)
    requires Fit(args, n) && Enabled(args, Run(args, n, events), Work(k))
    ensures var s := Run(args, n, events); var i := RunningHandler(args, s.accounts[k]);
      args[i] == Subordinate(k) && !s.told[i] && Step(args, s, Work(k)).told == s.told[i := true]
  {
    RunKeeps(args, n, events);
    FirstTime(args, Run(args, n, events), k);
  }

  /** That a handler has its turn is so of the deferred itself: the callback that runs on its settled
      list is the handler, called with the arguments of the settling call. */
  lemma TurnIsReal(args: seq<Argument>, s: WhenState, k: nat, i: nat)
    requires Inv(args, s) && k < |s.subs| && HandlerRuns(args, s.accounts[k]) &&
      i == RunningHandler(args, s.accounts[k])
    ensures s.accounts[k].first.By? &&
      TurnOf(Deferreds.Run(s.subs[k]).List(s.accounts[k].first.side), Handler(i), s.accounts[k].first.args)
  {
    TurnIsTrue(s.subs[k], s.accounts[k]);
  }
}
