/** What a group of matchers picks out of a list of elements: the elements that some element
    matcher accepts, and those that a set matcher takes from what is left over. */
module GroupMatcher {
  import opened Dom
  import opened Matchers
  import opened Wrappers

  /** A set matcher looks at the whole list of unmatched entries (an entry is `None` once it
      has been matched) and says which positions it accepts. */
  type SetMatcher = seq<Option<Node>> -> set<nat>

  /** Positions a set matcher can move: those still holding an entry. */
  function Taken(m: SetMatcher, unmatched: seq<Option<Node>>): set<nat> {
    set i | i in m(unmatched) && i < |unmatched| && unmatched[i].Some?
  }

  function Without(unmatched: seq<Option<Node>>, taken: set<nat>): (left: seq<Option<Node>>)
    ensures |left| == |unmatched|
  {
    seq(|unmatched|, i requires 0 <= i < |unmatched| => if i in taken then None else unmatched[i])
  }

  /** All positions the set matchers take, one matcher after the other. */
  function AllTaken(ms: seq<SetMatcher>, unmatched: seq<Option<Node>>): set<nat> {
    if ms == [] then {} else
      var taken := Taken(ms[0], unmatched);
      taken + AllTaken(ms[1..], Without(unmatched, taken))
  }

  predicate AcceptedByAny(s: Setting, ms: seq<Matcher>, n: Node) {
    exists j :: 0 <= j < |ms| && Accepts(s, ms[j], n)
  }

  /** The entries that no element matcher accepts. */
  function Leftover(s: Setting, ms: seq<Matcher>, elems: seq<Node>): (left: seq<Option<Node>>)
    ensures |left| == |elems|
  {
    seq(|elems|, i requires 0 <= i < |elems| => if AcceptedByAny(s, ms, elems[i]) then None else Some(elems[i]))
  }

  /** The elements at the positions of `keep`, in order. */
  ghost function Pick(elems: seq<Node>, keep: iset<nat>): seq<Node> {
    if elems == [] then [] else
      var k: nat := |elems| - 1;
      Pick(elems[..k], keep) + (if k in keep then [elems[k]] else [])
  }

  ghost function MatchedAt(s: Setting, ms: seq<Matcher>, elems: seq<Node>): iset<nat> {
    iset i | 0 <= i < |elems| && AcceptedByAny(s, ms, elems[i])
  }

  ghost function TakenAt(sets: seq<SetMatcher>, unmatched: seq<Option<Node>>): iset<nat> {
    iset i | i in AllTaken(sets, unmatched)
  }

  /** The result of a group on a list of elements. */
  ghost function Chosen(s: Setting, ms: seq<Matcher>, sets: seq<SetMatcher>, elems: seq<Node>): seq<Node> {
    Pick(elems, MatchedAt(s, ms, elems) + TakenAt(sets, Leftover(s, ms, elems)))
  }

  lemma {:induction false} PickSame(elems: seq<Node>, a: iset<nat>, b: iset<nat>)
    requires forall i: nat :: i < |elems| ==> (i in a <==> i in b)
    ensures Pick(elems, a) == Pick(elems, b)
    decreases |elems|
  {
    if elems != [] {
      PickSame(elems[..|elems| - 1], a, b);
    }
  }

  lemma {:induction false} TakenWasLeft(sets: seq<SetMatcher>, unmatched: seq<Option<Node>>, i: nat)
    requires i in AllTaken(sets, unmatched)
    ensures i < |unmatched| && unmatched[i].Some?
    decreases |sets|
  {
    if i !in Taken(sets[0], unmatched) {
      TakenWasLeft(sets[1..], Without(unmatched, Taken(sets[0], unmatched)), i);
    }
  }

  lemma {:induction false} NothingPicked(elems: seq<Node>, keep: iset<nat>)
    requires Pick(elems, keep) == []
    ensures forall k: nat :: k < |elems| ==> k !in keep
    decreases |elems|
  {
    if elems != [] {
      NothingPicked(elems[..|elems| - 1], keep);
    }
  }

  lemma {:induction false} AllPicked(elems: seq<Node>, keep: iset<nat>)
    ensures |Pick(elems, keep)| <= |elems|
    ensures |Pick(elems, keep)| == |elems| ==> forall k: nat :: k < |elems| ==> k in keep
    decreases |elems|
  {
    if elems != [] {
      AllPicked(elems[..|elems| - 1], keep);
    }
  }

  /** Without set matchers, or when every element is matched already, the set matchers take nothing. */
  lemma NothingTaken(s: Setting, ms: seq<Matcher>, sets: seq<SetMatcher>, elems: seq<Node>)
    ensures var matches := MatchedAt(s, ms, elems);
      sets == [] || |Pick(elems, matches)| == |elems| ==> Chosen(s, ms, sets, elems) == Pick(elems, matches)
  {
    var matches, left := MatchedAt(s, ms, elems), Leftover(s, ms, elems);
    AllPicked(elems, matches);
    if sets == [] || |Pick(elems, matches)| == |elems| {
      forall k: nat | k < |elems| ensures k !in AllTaken(sets, left) {
        if sets != [] {
          assert k in matches;
          if k in AllTaken(sets, left) {
            TakenWasLeft(sets, left, k);
          }
        }
      }
      PickSame(elems, matches, matches + TakenAt(sets, left));
    }
  }

  lemma PickLast(elems: seq<Node>, i: nat, keep: iset<nat>)
    requires 0 < i <= |elems|
    ensures Pick(elems[..i], keep) == Pick(elems[..i - 1], keep) + if i - 1 in keep then [elems[i - 1]] else []
  {
    assert elems[..i][..i - 1] == elems[..i - 1];
  }

  /* ---- What the set matchers take, told by their own answers ---- */

  /** Each set matcher finds the list that the ones before it have left, and clears what it accepts. */
  ghost predicate Chain(sets: seq<SetMatcher>, entries: seq<Option<Node>>, lists: seq<seq<Option<Node>>>) {
    && |lists| == |sets| + 1 && lists[0] == entries
    && forall j :: 0 <= j < |sets| ==> Cleared(sets[j](lists[j]), lists[j], lists[j + 1])
  }

  ghost predicate Cleared(accepted: set<nat>, list: seq<Option<Node>>, next: seq<Option<Node>>) {
    |next| == |list| && forall k :: 0 <= k < |list| ==> next[k] == if k in accepted then None else list[k]
  }

  lemma {:induction false} ChainExists(sets: seq<SetMatcher>, entries: seq<Option<Node>>)
    returns (lists: seq<seq<Option<Node>>>)
    ensures Chain(sets, entries, lists)
    decreases |sets|
  {
    if sets == [] {
      lists := [entries];
    } else {
      var next := Without(entries, Taken(sets[0], entries));
      var rest := ChainExists(sets[1..], next);
      lists := [entries] + rest;
      forall j | 0 <= j < |sets| ensures Cleared(sets[j](lists[j]), lists[j], lists[j + 1]) {
        if j > 0 {
          assert Cleared(sets[1..][j - 1](rest[j - 1]), rest[j - 1], rest[j]);
        }
      }
    }
  }

  /** A place is taken just when there is an entry and some set matcher accepts the place, on the list
      that it finds. */
  lemma {:induction false} TakenInTurn(sets: seq<SetMatcher>, entries: seq<Option<Node>>,
    lists: seq<seq<Option<Node>>>, k: nat)
    requires Chain(sets, entries, lists) && k < |entries|
    ensures k in AllTaken(sets, entries) <==>
      entries[k].Some? && exists j :: 0 <= j < |sets| && k in sets[j](lists[j])
    decreases |sets|
  {
    if sets != [] {
      var next := lists[1];
      assert Cleared(sets[0](lists[0]), lists[0], next);
      assert next == Without(entries, Taken(sets[0], entries));
      forall j | 0 <= j < |sets| - 1
        ensures Cleared(sets[1..][j](lists[1..][j]), lists[1..][j], lists[1..][j + 1])
      {
        assert Cleared(sets[j + 1](lists[j + 1]), lists[j + 1], lists[j + 2]);
      }
      TakenInTurn(sets[1..], next, lists[1..], k);
      LaterOnes(sets, lists, k);
    }
  }

  lemma LaterOnes(sets: seq<SetMatcher>, lists: seq<seq<Option<Node>>>, k: nat)
    requires sets != [] && |lists| == |sets| + 1
    ensures (exists j :: 0 <= j < |sets| && k in sets[j](lists[j])) <==>
      k in sets[0](lists[0]) || exists j :: 0 <= j < |sets[1..]| && k in sets[1..][j](lists[1..][j])
  {
    if j :| 0 < j < |sets| && k in sets[j](lists[j]) {
      assert sets[1..][j - 1] == sets[j] && lists[1..][j - 1] == lists[j];
    }
    if j :| 0 <= j < |sets[1..]| && k in sets[1..][j](lists[1..][j]) {
      assert sets[1..][j] == sets[j + 1] && lists[1..][j] == lists[j + 1];
    }
  }

  /** With one set matcher the group chooses the elements that an element matcher accepts, and of the
      others those whose places the set matcher accepts. */
  lemma OneSetMatcher(s: Setting, ms: seq<Matcher>, m: SetMatcher, elems: seq<Node>)
    ensures var left := Leftover(s, ms, elems);
      Chosen(s, ms, [m], elems) ==
        Pick(elems, iset k: nat | k < |elems| && (AcceptedByAny(s, ms, elems[k]) || k in m(left)))
  {
    var left := Leftover(s, ms, elems);
    var picked := iset k: nat | k < |elems| && (AcceptedByAny(s, ms, elems[k]) || k in m(left));
    forall k: nat | k < |elems| ensures k in MatchedAt(s, ms, elems) + TakenAt([m], left) <==> k in picked {
      TakenByOne(m, left, k);
    }
    PickSame(elems, MatchedAt(s, ms, elems) + TakenAt([m], left), picked);
  }

  lemma TakenByOne(m: SetMatcher, left: seq<Option<Node>>, k: nat)
    requires k < |left|
    ensures k in AllTaken([m], left) <==> left[k].Some? && k in m(left)
  {
    var lists := ChainExists([m], left);
    TakenInTurn([m], left, lists, k);
    assert [m][0](lists[0]) == m(left);
  }

  /** These places, in increasing order, are the places of `keep`. */
  ghost predicate ArePlaces(places: seq<nat>, keep: iset<nat>, n: nat) {
    && (forall j :: 0 <= j < |places| ==> places[j] < n && places[j] in keep)
    && (forall i, j :: 0 <= i < j < |places| ==> places[i] < places[j])
    && forall k: nat :: k < n && k in keep ==> k in places
  }

  /** What is picked are the elements at these places, in their order. */
  lemma {:induction false} PickMeans(elems: seq<Node>, keep: iset<nat>) returns (places: seq<nat>)
    ensures ArePlaces(places, keep, |elems|) && |Pick(elems, keep)| == |places|
    ensures forall j :: 0 <= j < |places| ==> Pick(elems, keep)[j] == elems[places[j]]
    decreases |elems|
  {
    if elems == [] {
      places := [];
    } else {
      var k: nat := |elems| - 1;
      var before := PickMeans(elems[..k], keep);
      places := before + if k in keep then [k] else [];
      assert forall m :: m in before ==> m in places;
    }
  }
}
