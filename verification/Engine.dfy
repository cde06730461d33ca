/** Matching with the combinator cache. Every node has one slot per direction, and all slots
    passed on one walk share a single cell, so a result written once is seen at each of them. */
module Engine {
  import opened Dom
  import opened Matchers
  import opened Selectors
  import opened GroupMatcher
  import opened NthChild
  import opened Wrappers

  /** The array `[ dirruns, doneName, result ]`. */
  class Cell {
    const run: nat
    const done: nat
    var result: bool

    constructor (run: nat, done: nat)
      ensures this.run == run && this.done == done && !result
    {
      this.run, this.done, result := run, done, false;
    }
  }

  type Slot = (Node, Direction)

  ghost predicate SelectedByAny(s: Setting, groups: seq<seq<Token>>, n: Node) {
    exists g :: 0 <= g < |groups| && Selects(s, groups[g], n)
  }

  ghost function SelectedAt(s: Setting, groups: seq<seq<Token>>, elems: seq<Node>): iset<nat> {
    iset i | 0 <= i < |elems| && SelectedByAny(s, groups, elems[i])
  }

  /** The matchers of a group, compiled last one first, accept what its selectors select. */
  lemma GroupSelects(s: Setting, groups: seq<seq<Token>>, ms: seq<Matcher>, n: Node)
    requires WellFormed(s.tree) && Has(s.tree, n)
    requires |ms| == |groups|
    requires forall j :: 0 <= j < |ms| ==> IsCompiled(ms[j], groups[|groups| - 1 - j])
    ensures AcceptedByAny(s, ms, n) <==> SelectedByAny(s, groups, n)
  {
    forall j | 0 <= j < |ms| ensures Accepts(s, ms[j], n) <==> Selects(s, groups[|groups| - 1 - j], n) {
      var d: nat :| ms[j] == Compiled(groups[|groups| - 1 - j], d);
      CompiledSelects(s, groups[|groups| - 1 - j], d, n);
    }
    if g :| 0 <= g < |groups| && Selects(s, groups[g], n) {
      assert Accepts(s, ms[|groups| - 1 - g], n);
    }
  }

  class Sizzle {
    var dirruns: nat
    var done: nat
    var cache: map<Slot, Cell>
    /** What `:nth-child` remembers on the parents, under the same run number. */
    const index: ChildIndex
    /** The combinators made so far, by number. */
    ghost var registry: map<nat, Matcher>

    /** Between runs the slots may hold anything, so long as no cell carries the number of a
        run still to come. Nothing is assumed of the document: it may have changed. */
    ghost predicate Valid()
      reads this, cache.Values, index
    {
      index.dirruns == dirruns && index.Past() &&
      (forall slot :: slot in cache ==> cache[slot].run <= dirruns) && (forall d :: d in registry ==> d < done)
    }

    constructor ()
      ensures Valid() && cache == map[] && registry == map[] && fresh(index)
    {
      dirruns, done, cache, registry := 0, 0, map[], map[];
      index := new ChildIndex();
    }

    /** The invariant of the cache: outside the walks still `open`, each entry of this run
        tells whether its node, or any later one in that direction, matches. */
    ghost predicate Sound(verdicts: Verdicts, open: set<Cell>)
      reads this, cache.Values
    {
      forall slot :: slot in cache ==>
        var cell := cache[slot];
        cell.run <= dirruns &&
        (cell.run == dirruns && cell !in open ==> cell.result == verdicts(cell.done, slot.0))
    }

    /** A walk may close its cell once the result is right for every slot that shares it. */
    lemma Closing(verdicts: Verdicts, open: set<Cell>, cell: Cell)
      requires Sound(verdicts, open + {cell})
      requires forall slot :: slot in cache && cache[slot] == cell ==> cell.result == verdicts(cell.done, slot.0)
      ensures Sound(verdicts, open)
    {
    }

    /** The slots hold what they held in `before`, or cells that are newer. */
    twostate predicate OnlyNewCells()
      reads this
    {
      forall slot :: slot in cache ==> fresh(cache[slot]) || (slot in old(cache) && cache[slot] == old(cache)[slot])
    }

    method Match(s: Setting, m: Matcher, n: Node, ghost verdicts: Verdicts, ghost bound: nat, ghost open: set<Cell>)
      returns (b: bool)
      requires Numbered(s, m, bound, verdicts)
      requires Sound(verdicts, open) && index.Sound(s.tree) && Has(s.tree, n)
      requires forall c :: c in open ==> c.done >= bound
      modifies this`cache, index`cache
      ensures b == Accepts(s, m, n)
      ensures Sound(verdicts, open) && index.Sound(s.tree)
      ensures OnlyNewCells()
      decreases m, 0
    {
      match m
      case Test(f) =>
        match f {
          case Pure(test) => b := test(s.tree, n);
          case Nth(first, last) => b := index.Matches(s.tree, n, s.xml, first, last);
        }
      case IsContext => b := s.context == One(n);
      case InContexts => b := s.context.Many? && n in s.context.nodes;
      case All(ms) =>
        var i := |ms|;
        while i > 0
          invariant 0 <= i <= |ms|
          invariant forall j :: i <= j < |ms| ==> Accepts(s, ms[j], n)
          invariant Sound(verdicts, open) && index.Sound(s.tree)
          invariant OnlyNewCells()
        {
          i := i - 1;
          var each := Match(s, ms[i], n, verdicts, bound, open);
          if !each {
            return false;
          }
        }
        b := true;
      case Combinator(rel, base, _, inner) =>
        if rel.First() || s.xml {
          b := WalkPlainly(s, m, n, verdicts, bound, open);
        } else {
          b := WalkCached(s, m, n, verdicts, bound, open);
        }
      case Start(leading, one, any) =>
        if leading.None? && (s.xml || !s.outermost) {
          b := true;
        } else if s.context.One? {
          b := Match(s, one, n, verdicts, bound, open);
        } else {
          b := Match(s, any, n, verdicts, bound, open);
        }
    }

    /** The walks that leave no trace: to the closest node, or through an XML document. */
    method WalkPlainly(s: Setting, m: Matcher, n: Node, ghost verdicts: Verdicts, ghost bound: nat,
      ghost open: set<Cell>)
      returns (b: bool)
      requires m.Combinator? && (m.rel.First() || s.xml)
      requires Numbered(s, m, bound, verdicts)
      requires Sound(verdicts, open) && index.Sound(s.tree) && Has(s.tree, n)
      requires forall c :: c in open ==> c.done >= bound
      modifies this`cache, index`cache
      ensures b == Accepts(s, m, n)
      ensures Sound(verdicts, open) && index.Sound(s.tree)
      ensures OnlyNewCells()
      decreases m.inner, 1
    {
      var dir := m.rel.Dir();
      var elem := n;
      while Follow(dir, elem).Some?
        invariant if m.rel.First()
          then Nearest(s, m.rel, m.base, m.inner, n) == Nearest(s, m.rel, m.base, m.inner, elem)
          else Beyond(s, m.rel, m.base, m.inner, n) == Beyond(s, m.rel, m.base, m.inner, elem)
        invariant Sound(verdicts, open) && index.Sound(s.tree) && Has(s.tree, elem)
        invariant OnlyNewCells()
        decreases Distance(dir, elem)
      {
        FollowInTree(s.tree, dir, elem);
        elem := Follow(dir, elem).value;
        if Eligible(s, m.rel, m.base, elem) {
          b := Match(s, m.inner, elem, verdicts, m.done, open);
          if m.rel.First() || b {
            return;
          }
        }
      }
      b := false;
    }

    /** The slots that share `cell` were all passed before `elem` on one walk, and their
        nodes all have the verdict `answer`. */
    ghost predicate Shared(cell: Cell, dir: Direction, elem: Node, verdicts: Verdicts, answer: bool)
      reads this
    {
      forall slot :: slot in cache && cache[slot] == cell ==>
        slot.1 == dir && Distance(dir, elem) <= Distance(dir, slot.0) && verdicts(cell.done, slot.0) == answer
    }

    /** The walk through the slots of one direction, writing the shared cell. */
    method WalkCached(s: Setting, m: Matcher, n: Node, ghost verdicts: Verdicts, ghost bound: nat,
      ghost open: set<Cell>)
      returns (b: bool)
      requires m.Combinator? && !m.rel.First() && !s.xml
      requires Numbered(s, m, bound, verdicts)
      requires Sound(verdicts, open) && index.Sound(s.tree) && Has(s.tree, n)
      requires forall c :: c in open ==> c.done >= bound
      modifies this`cache, index`cache
      ensures b == Accepts(s, m, n)
      ensures Sound(verdicts, open) && index.Sound(s.tree)
      ensures OnlyNewCells()
      decreases m.inner, 2
    {
      var dir := m.rel.Dir();
      var newCache := new Cell(dirruns, m.done);
      var elem := n;
      ghost var answer := Beyond(s, m.rel, m.base, m.inner, n);
      while Follow(dir, elem).Some?
        invariant !newCache.result
        invariant Beyond(s, m.rel, m.base, m.inner, elem) == answer
        invariant Sound(verdicts, open + {newCache}) && index.Sound(s.tree) && Has(s.tree, elem)
        invariant Shared(newCache, dir, elem, verdicts, answer)
        invariant OnlyNewCells()
        decreases Distance(dir, elem)
      {
        FollowInTree(s.tree, dir, elem);
        elem := Follow(dir, elem).value;
        if Eligible(s, m.rel, m.base, elem) {
          var known := Visit(s, m, elem, newCache, verdicts, bound, open, answer);
          if known {
            Closing(verdicts, open, newCache);
            return newCache.result;
          }
        }
      }
      Closing(verdicts, open, newCache);
      b := false;
    }

    /** One eligible node of a cached walk: take over an answer already in its slot, or put
        the walk's cell there and ask the matcher. */
    method Visit(s: Setting, m: Matcher, elem: Node, newCache: Cell, ghost verdicts: Verdicts, ghost bound: nat,
                 ghost open: set<Cell>, ghost answer: bool)
      returns (known: bool)
      requires m.Combinator? && !m.rel.First()
      requires Numbered(s, m, bound, verdicts)
      requires Sound(verdicts, open + {newCache}) && index.Sound(s.tree) && Has(s.tree, elem)
      requires forall c :: c in open ==> c.done >= bound
      requires newCache.run == dirruns && newCache.done == m.done && !newCache.result && newCache !in open
      requires Eligible(s, m.rel, m.base, elem)
      requires From(s, m.rel, m.base, m.inner, elem) == answer
      requires forall slot :: slot in cache && cache[slot] == newCache ==> slot != (elem, m.rel.Dir())
      requires Shared(newCache, m.rel.Dir(), elem, verdicts, answer)
      modifies this`cache, newCache, index`cache
      ensures Sound(verdicts, open + {newCache}) && index.Sound(s.tree)
      ensures Shared(newCache, m.rel.Dir(), elem, verdicts, answer)
      ensures forall slot :: slot in cache ==>
        fresh(cache[slot]) || cache[slot] == newCache || (slot in old(cache) && cache[slot] == old(cache)[slot])
      ensures known ==> newCache.result == answer
      ensures !known ==> !newCache.result && Beyond(s, m.rel, m.base, m.inner, elem) == answer
      decreases m.inner, 1
    {
      var slot := (elem, m.rel.Dir());
      if slot in cache && cache[slot].run == dirruns && cache[slot].done == m.done {
        newCache.result := cache[slot].result;
        return true;
      }
      cache := cache[slot := newCache];
      known := Match(s, m.inner, elem, verdicts, m.done, open + {newCache});
      newCache.result := known;
    }

    /* ---- Compiling ---- */

    static ghost predicate Extends(before: map<nat, Matcher>, after: map<nat, Matcher>) {
      forall d :: d in before ==> d in after && after[d] == before[d]
    }

    method AddCombinator(inner: Matcher, rel: Relative, base: bool) returns (m: Matcher)
      requires Valid() && Registered(inner, done, registry)
      modifies this`done, this`registry
      ensures Valid() && Registered(m, done, registry)
      ensures m == Combinator(rel, base, old(done), inner) && done == old(done) + 1
      ensures registry == old(registry)[old(done) := m]
    {
      m := Combinator(rel, base, done, inner);
      RegisteredLater(inner, done, registry, done, registry[done := m]);
      registry := registry[done := m];
      done := done + 1;
    }

    /** The foundational matcher: elements must be reachable from the context. */
    method Foundation(leading: Option<Relative>) returns (m: Matcher)
      requires Valid()
      modifies this`done, this`registry
      ensures Valid() && Extends(old(registry), registry) && Registered(m, done, registry)
      ensures [m] == MatchersFor(leading, [], old(done)) && done == old(done) + 2
    {
      var implicit := if leading.Some? then leading.value else Descendant;
      var matchContext := AddCombinator(IsContext, implicit, true);
      ghost var early := registry;
      var matchAnyContext := AddCombinator(InContexts, implicit, true);
      RegisteredLater(matchContext, old(done) + 1, early, done, registry);
      m := Start(leading, matchContext, matchAnyContext);
    }

    /** Compiles one complex selector; `tokens` is never empty. */
    method MatcherFromTokens(tokens: seq<Token>) returns (m: Matcher)
      requires Valid() && tokens != []
      modifies this`done, this`registry
      ensures Valid() && Registered(m, done, registry) && done >= old(done)
      ensures Extends(old(registry), registry)
      ensures m == Compiled(tokens, old(done))
    {
      var leading := if tokens[0].Relation? then Some(tokens[0].rel) else None;
      var first := if leading.Some? then 1 else 0;
      ghost var body := Body(tokens);
      var start := Foundation(leading);
      var matchers := [start];
      var i := first;
      assert body[..0] == [];
      while i < |tokens|
        invariant first <= i <= |tokens| == first + |body|
        invariant Valid() && Extends(old(registry), registry)
        invariant Progress(matchers, leading, body[..i - first], old(done))
      {
        ghost var before := body[..i - first];
        matchers := AddToken(matchers, tokens[i], leading, before, old(done));
        assert before + [tokens[i]] == body[..i + 1 - first];
        i := i + 1;
      }
      assert body[..|body|] == body;
      m := ElementMatcher(matchers);
    }

    /** `matchers` is right for the tokens read so far, and so is the numbering. */
    ghost predicate Progress(matchers: seq<Matcher>, leading: Option<Relative>, body: seq<Token>, start: nat)
      reads this
    {
      && matchers == MatchersFor(leading, body, start) && done == start + 2 + |Rels(body)|
      && Registered(All(matchers), done, registry)
    }

    method AddToken(matchers: seq<Matcher>, token: Token, ghost leading: Option<Relative>, ghost body: seq<Token>,
      ghost start: nat)
      returns (more: seq<Matcher>)
      requires Valid() && Progress(matchers, leading, body, start)
      modifies this`done, this`registry
      ensures Valid() && Extends(old(registry), registry) && done >= old(done)
      ensures Progress(more, leading, body + [token], start)
    {
      NextToken(leading, body, token, start);
      if token.Relation? {
        var m := AddCombinator(ElementMatcher(matchers), token.rel, false);
        more := [m];
      } else {
        more := matchers + [Test(token.filter)];
      }
    }

    /* ---- Running a group ---- */

    /** Hands the unmatched entries to each set matcher; what it accepts moves to the same
        place in `setMatched`. */
    method RunSetMatchers(setMatchers: seq<SetMatcher>, entries: seq<Option<Node>>)
      returns (unmatched: seq<Option<Node>>, setMatched: seq<Option<Node>>)
      ensures |unmatched| == |setMatched| == |entries|
      ensures forall k :: 0 <= k < |entries| ==>
        var taken := k in AllTaken(setMatchers, entries);
        setMatched[k] == (if taken then entries[k] else None) && unmatched[k] == (if taken then None else entries[k])
    {
      unmatched, setMatched := entries, seq(|entries|, _ => None);
      var j := 0;
      while j < |setMatchers|
        invariant 0 <= j <= |setMatchers|
        invariant |unmatched| == |setMatched| == |entries|
        invariant forall k :: 0 <= k < |entries| ==>
          (k in AllTaken(setMatchers, entries) <==> setMatched[k].Some? || k in AllTaken(setMatchers[j..], unmatched))
        invariant forall k :: 0 <= k < |entries| ==> setMatched[k] == entries[k] || setMatched[k] == None
        invariant forall k :: 0 <= k < |entries| ==> unmatched[k] == if setMatched[k].Some? then None else entries[k]
      {
        var taken := Taken(setMatchers[j], unmatched);
        assert setMatchers[j..][1..] == setMatchers[j + 1..];
        setMatched := seq(|entries|, k requires 0 <= k < |entries| =>
          if k in taken then unmatched[k] else setMatched[k]);
        unmatched := Without(unmatched, taken);
        j := j + 1;
      }
    }

    /** Drops the placeholders. */
    method Condense(list: seq<Option<Node>>, ghost elems: seq<Node>, ghost keep: iset<nat>)
      returns (condensed: seq<Node>)
      requires |list| == |elems|
      requires forall k: nat :: k < |list| ==> list[k] == if k in keep then Some(elems[k]) else None
      ensures condensed == Pick(elems, keep)
    {
      condensed := [];
      var i := 0;
      while i < |list|
        invariant 0 <= i <= |list|
        invariant condensed == Pick(elems[..i], keep)
      {
        assert elems[..i + 1][..i] == elems[..i];
        if list[i].Some? {
          condensed := condensed + [list[i].value];
        }
        i := i + 1;
      }
      assert elems[..i] == elems;
    }

    /** Tries each element in turn; what matches goes to the results, and for set matchers the rest is
        kept. The count is off by the number of elements, as in the source. */
    method MatchElements(s: Setting, elementMatchers: seq<Matcher>, bySet: bool, elems: seq<Node>, results: NodeList)
      returns (unmatched: seq<Option<Node>>, matchedCount: int)
      requires forall i :: 0 <= i < |elems| ==> Has(s.tree, elems[i])
      requires forall j :: 0 <= j < |elementMatchers| ==> Registered(elementMatchers[j], done, registry)
      requires Sound(VerdictsOf(s, registry), {}) && index.Sound(s.tree)
      modifies this`cache, index`cache, results
      ensures Sound(VerdictsOf(s, registry), {}) && index.Sound(s.tree)
      ensures results.items == old(results.items) + Pick(elems, MatchedAt(s, elementMatchers, elems))
      ensures bySet ==> unmatched == Leftover(s, elementMatchers, elems)
      ensures bySet ==> matchedCount + |elems| == |Pick(elems, MatchedAt(s, elementMatchers, elems))|
    {
      ghost var verdicts, matches := VerdictsOf(s, registry), MatchedAt(s, elementMatchers, elems);
      ghost var left := Leftover(s, elementMatchers, elems);
      unmatched, matchedCount := [], 0;
      var i := 0;
      while i < |elems|
        invariant 0 <= i <= |elems|
        invariant Sound(verdicts, {}) && index.Sound(s.tree)
        invariant results.items == old(results.items) + Pick(elems[..i], matches)
        invariant bySet ==> unmatched == left[..i] && matchedCount + i == |Pick(elems[..i], matches)|
      {
        var matched := MatchAny(s, elementMatchers, elems[i], verdicts);
        assert elems[..i + 1] == elems[..i] + [elems[i]];
        if matched {
          results.items := results.items + [elems[i]];
        }
        if bySet {
          matchedCount := if matched then matchedCount else matchedCount - 1;
          unmatched := unmatched + [if matched then None else Some(elems[i])];
        }
        i := i + 1;
      }
      assert elems[..i] == elems;
    }

    /** The outermost matcher of a group. Set matchers are run on a seed only. */
    method SuperMatcher(s: Setting, elementMatchers: seq<Matcher>, setMatchers: seq<SetMatcher>, elems: seq<Node>,
      results: NodeList)
      requires Valid() && forall i :: 0 <= i < |elems| ==> Has(s.tree, elems[i])
      requires forall j :: 0 <= j < |elementMatchers| ==> Registered(elementMatchers[j], done, registry)
      modifies this`dirruns, this`cache, index, results
      ensures Valid()
      ensures results.items == old(results.items) + Chosen(s, elementMatchers, setMatchers, elems)
    {
      dirruns := dirruns + 1;
      index.NewRun(s.tree);
      var bySet := setMatchers != [];
      var unmatched, matchedCount := MatchElements(s, elementMatchers, bySet, elems, results);
      NothingTaken(s, elementMatchers, setMatchers, elems);
      matchedCount := matchedCount + |elems|;
      // With no elements the counters are the strings "0" and "00", which differ.
      if bySet && (elems == [] || |elems| != matchedCount) {
        Integrate(setMatchers, elems, unmatched, matchedCount > 0, results, old(results.items),
          MatchedAt(s, elementMatchers, elems));
      }
    }

    /** Runs the set matchers and puts the earlier matches back in their places, taking them
        off the end of `results` while walking backwards. */
    method Integrate(setMatchers: seq<SetMatcher>, elems: seq<Node>, entries: seq<Option<Node>>, someMatched: bool,
                     results: NodeList, ghost before: seq<Node>, ghost matches: iset<nat>)
      requires |entries| == |elems|
      requires forall k: nat :: k < |elems| ==> entries[k] == if k in matches then None else Some(elems[k])
      requires results.items == before + Pick(elems, matches)
      requires someMatched <==> Pick(elems, matches) != []
      modifies results
      ensures results.items == before + Pick(elems, matches + TakenAt(setMatchers, entries))
    {
      var unmatched, setMatched := RunSetMatchers(setMatchers, entries);
      ghost var taken := TakenAt(setMatchers, entries);
      forall k | k in taken ensures k < |elems| && k !in matches {
        TakenWasLeft(setMatchers, entries, k);
      }
      if someMatched {
        setMatched := PopBack(elems, unmatched, setMatched, results, before, matches, taken);
      } else {
        NothingPicked(elems, matches);
      }
      var condensed := Condense(setMatched, elems, matches + taken);
      results.items := results.items + condensed;
    }

    /** The backward loop: each element matched earlier is the last of `results` when its turn comes. */
    method PopBack(elems: seq<Node>, unmatched: seq<Option<Node>>, setMatched: seq<Option<Node>>, results: NodeList,
                   ghost before: seq<Node>, ghost matches: iset<nat>, ghost taken: iset<nat>)
      returns (filled: seq<Option<Node>>)
      requires |unmatched| == |setMatched| == |elems|
      requires forall k: nat :: k < |elems| ==> setMatched[k] == if k in taken then Some(elems[k]) else None
      requires forall k: nat :: k < |elems| ==>
        (unmatched[k].None? && setMatched[k].None? <==> k in matches && k !in taken)
      requires forall k :: k in taken ==> k !in matches
      requires results.items == before + Pick(elems, matches)
      modifies results
      ensures results.items == before && |filled| == |elems|
      ensures forall k: nat :: k < |elems| ==> filled[k] == if k in taken || k in matches then Some(elems[k]) else None
    {
      filled := setMatched;
      var i: nat := |elems|;
      assert elems[..i] == elems;
      while i > 0
        invariant 0 <= i <= |elems| == |filled|
        invariant results.items == before + Pick(elems[..i], matches)
        invariant forall k: nat :: k < |elems| ==>
          filled[k] == if k in taken || (i <= k && k in matches) then Some(elems[k]) else None
      {
        PickLast(elems, i, matches);
        i := i - 1;
        if unmatched[i].None? && filled[i].None? {
          assert results.items == (before + Pick(elems[..i], matches)) + [elems[i]];
          filled := filled[i := Some(results.items[|results.items| - 1])];
          results.items := results.items[..|results.items| - 1];
        }
      }
    }

    /** Compiles every selector of a group, the last one first. */
    method Compile(groups: seq<seq<Token>>) returns (matchers: seq<Matcher>)
      requires Valid() && forall g :: 0 <= g < |groups| ==> groups[g] != []
      modifies this`done, this`registry
      ensures Valid() && |matchers| == |groups|
      ensures forall j :: 0 <= j < |matchers| ==> Registered(matchers[j], done, registry)
      ensures forall j :: 0 <= j < |matchers| ==> IsCompiled(matchers[j], groups[|groups| - 1 - j])
    {
      matchers := [];
      var i := |groups|;
      while i > 0
        invariant 0 <= i <= |groups| && |matchers| == |groups| - i
        invariant Valid()
        invariant forall j :: 0 <= j < |matchers| ==> Registered(matchers[j], done, registry)
        invariant forall j :: 0 <= j < |matchers| ==> IsCompiled(matchers[j], groups[|groups| - 1 - j])
      {
        i := i - 1;
        ghost var done0, registry0 := done, registry;
        var m := MatcherFromTokens(groups[i]);
        forall j | 0 <= j < |matchers| ensures Registered(matchers[j], done, registry) {
          RegisteredLater(matchers[j], done0, registry0, done, registry);
        }
        matchers := matchers + [m];
      }
    }

    /** Compiles a group and matches a list of elements with it: the result is exactly the
        elements that the standard says are selected, in the order given. */
    method Select(s: Setting, groups: seq<seq<Token>>, elems: seq<Node>, results: NodeList)
      requires Valid() && forall g :: 0 <= g < |groups| ==> groups[g] != []
      requires WellFormed(s.tree) && forall i :: 0 <= i < |elems| ==> Has(s.tree, elems[i])
      modifies this, index, results
      ensures Valid()
      ensures results.items == old(results.items) + Pick(elems, SelectedAt(s, groups, elems))
    {
      var matchers := Compile(groups);
      SuperMatcher(s, matchers, [], elems, results);
      forall i: nat | i < |elems| ensures AcceptedByAny(s, matchers, elems[i]) <==> SelectedByAny(s, groups, elems[i]) {
        GroupSelects(s, groups, matchers, elems[i]);
      }
      NothingTaken(s, matchers, [], elems);
      PickSame(elems, MatchedAt(s, matchers, elems), SelectedAt(s, groups, elems));
    }

    /** Tries the element matchers in turn, up to the first that accepts. */
    method MatchAny(s: Setting, elementMatchers: seq<Matcher>, elem: Node, ghost verdicts: Verdicts)
      returns (matched: bool)
      requires verdicts == VerdictsOf(s, registry)
      requires forall j :: 0 <= j < |elementMatchers| ==> Registered(elementMatchers[j], done, registry)
      requires Sound(verdicts, {}) && index.Sound(s.tree) && Has(s.tree, elem)
      modifies this`cache, index`cache
      ensures Sound(verdicts, {}) && index.Sound(s.tree)
      ensures matched == AcceptedByAny(s, elementMatchers, elem)
    {
      var j := 0;
      while j < |elementMatchers|
        invariant 0 <= j <= |elementMatchers|
        invariant Sound(verdicts, {}) && index.Sound(s.tree)
        invariant forall k :: 0 <= k < j ==> !Accepts(s, elementMatchers[k], elem)
      {
        RegisteredIsNumbered(s, elementMatchers[j], done, registry);
        matched := Match(s, elementMatchers[j], elem, verdicts, done, {});
        if matched {
          return;
        }
        j := j + 1;
      }
      matched := false;
    }
  }
}
