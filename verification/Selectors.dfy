/** What a complex selector means (section 8 of Selectors Level 3), stated without matchers:
    an element is selected when nodes can be assigned to the compound selectors so that every
    filter holds, neighbouring nodes are related as the combinators say, and the first node
    lies where the context requires. The compiler is proved to agree. */
module Selectors {
  import opened Dom
  import opened Matchers
  import opened Sequences
  import opened Wrappers

  type Compound = seq<Filter>

  /** `leading` is the combinator a selector may start with; `rels[i]` joins compound `i` to `i + 1`. */
  datatype Selector = Selector(leading: Option<Relative>, compounds: seq<Compound>, rels: seq<Relative>)

  function Leading(tokens: seq<Token>): Option<Relative> {
    if tokens != [] && tokens[0].Relation? then Some(tokens[0].rel) else None
  }

  function Body(tokens: seq<Token>): seq<Token> {
    if Leading(tokens).Some? then tokens[1..] else tokens
  }

  function Rels(body: seq<Token>): seq<Relative> {
    if body == [] then [] else
      var before := Rels(body[..|body| - 1]);
      match body[|body| - 1]
      case Relation(rel) => before + [rel]
      case Simple(_) => before
  }

  function Compounds(body: seq<Token>): (cs: seq<Compound>)
    ensures |cs| == |Rels(body)| + 1
  {
    if body == [] then [[]] else
      var before := Compounds(body[..|body| - 1]);
      match body[|body| - 1]
      case Relation(_) => before + [[]]
      case Simple(f) => before[|before| - 1 := before[|before| - 1] + [f]]
  }

  function Parse(tokens: seq<Token>): Selector {
    Selector(Leading(tokens), Compounds(Body(tokens)), Rels(Body(tokens)))
  }

  /* A selector is read back from the tokens that write it. */

  function FiltersOf(c: Compound): (tokens: seq<Token>)
    ensures |tokens| == |c|
  {
    if c == [] then [] else FiltersOf(c[..|c| - 1]) + [Simple(c[|c| - 1])]
  }

  /** The compounds with the combinators between them. */
  function BodyOf(compounds: seq<Compound>, rels: seq<Relative>): seq<Token>
    requires |compounds| == |rels| + 1
    decreases |rels|
  {
    var k := |rels|;
    if k == 0 then FiltersOf(compounds[0])
    else BodyOf(compounds[..k], rels[..k - 1]) + [Relation(rels[k - 1])] + FiltersOf(compounds[k])
  }

  /** A selector as it is written. */
  function TokensOf(sel: Selector): seq<Token>
    requires |sel.compounds| == |sel.rels| + 1
  {
    (if sel.leading.Some? then [Relation(sel.leading.value)] else []) + BodyOf(sel.compounds, sel.rels)
  }

  /** A last simple selector belongs to the last compound. */
  lemma BodyOfSimple(compounds: seq<Compound>, rels: seq<Relative>, f: Filter)
    requires |compounds| == |rels| + 1
    ensures BodyOf(compounds[|rels| := compounds[|rels|] + [f]], rels) == BodyOf(compounds, rels) + [Simple(f)]
  {
    var k := |rels|;
    var c := compounds[k];
    var more := compounds[k := c + [f]];
    assert (c + [f])[..|c|] == c && more[..k] == compounds[..k];
    assert FiltersOf(c + [f]) == FiltersOf(c) + [Simple(f)];
    if k > 0 {
      Assoc(BodyOf(compounds[..k], rels[..k - 1]) + [Relation(rels[k - 1])], FiltersOf(c), [Simple(f)]);
    }
  }

  lemma BodyOfRelation(compounds: seq<Compound>, rels: seq<Relative>, rel: Relative)
    requires |compounds| == |rels| + 1
    ensures BodyOf(compounds + [[]], rels + [rel]) == BodyOf(compounds, rels) + [Relation(rel)]
  {
    assert (compounds + [[]])[..|compounds|] == compounds && (rels + [rel])[..|rels|] == rels;
    NothingAfter(BodyOf(compounds, rels) + [Relation(rel)]);
  }

  lemma {:induction false} BodyReadsBack(body: seq<Token>)
    ensures BodyOf(Compounds(body), Rels(body)) == body
    decreases |body|
  {
    if body != [] {
      var before, token := body[..|body| - 1], body[|body| - 1];
      BodyReadsBack(before);
      match token
      case Simple(f) => BodyOfSimple(Compounds(before), Rels(before), f);
      case Relation(rel) => BodyOfRelation(Compounds(before), Rels(before), rel);
    }
  }

  /** Every list of tokens is what its selector is written as. */
  lemma ParseThenWrite(tokens: seq<Token>)
    ensures TokensOf(Parse(tokens)) == tokens
  {
    BodyReadsBack(Body(tokens));
    if Leading(tokens).Some? {
      assert tokens == [tokens[0]] + tokens[1..];
    } else {
      NothingBefore(tokens);
    }
  }

  lemma ReadsSimple(body: seq<Token>, f: Filter)
    ensures Rels(body + [Simple(f)]) == Rels(body)
    ensures var cs := Compounds(body); Compounds(body + [Simple(f)]) == cs[|cs| - 1 := cs[|cs| - 1] + [f]]
  {
    assert (body + [Simple(f)])[..|body|] == body;
  }

  lemma {:induction false} ReadsFilters(body: seq<Token>, c: Compound)
    requires Compounds(body)[|Rels(body)|] == []
    ensures Rels(body + FiltersOf(c)) == Rels(body)
    ensures Compounds(body + FiltersOf(c)) == Compounds(body)[|Rels(body)| := c]
    decreases |c|
  {
    if c == [] {
      NothingAfter(body);
    } else {
      var before, f := c[..|c| - 1], c[|c| - 1];
      ReadsFilters(body, before);
      ReadsSimple(body + FiltersOf(before), f);
      Assoc(body, FiltersOf(before), [Simple(f)]);
      assert before + [f] == c;
    }
  }

  lemma ReadsRelation(body: seq<Token>, rel: Relative)
    ensures Rels(body + [Relation(rel)]) == Rels(body) + [rel]
    ensures Compounds(body + [Relation(rel)]) == Compounds(body) + [[]]
  {
    assert (body + [Relation(rel)])[..|body|] == body;
  }

  lemma {:induction false} WrittenReadsBack(compounds: seq<Compound>, rels: seq<Relative>)
    requires |compounds| == |rels| + 1
    ensures Compounds(BodyOf(compounds, rels)) == compounds && Rels(BodyOf(compounds, rels)) == rels
    decreases |rels|
  {
    var k := |rels|;
    if k == 0 {
      ReadsFilters([], compounds[0]);
      NothingBefore(FiltersOf(compounds[0]));
    } else {
      var before := BodyOf(compounds[..k], rels[..k - 1]);
      WrittenReadsBack(compounds[..k], rels[..k - 1]);
      ReadsRelation(before, rels[k - 1]);
      ReadsFilters(before + [Relation(rels[k - 1])], compounds[k]);
      assert rels == rels[..k - 1] + [rels[k - 1]];
    }
  }

  /** Without a leading combinator, a selector begins with a simple selector, if there is anything. */
  lemma {:induction false} BeginsSimple(compounds: seq<Compound>, rels: seq<Relative>)
    requires |compounds| == |rels| + 1 && (compounds[0] != [] || rels == [])
    ensures BodyOf(compounds, rels) != [] ==> BodyOf(compounds, rels)[0].Simple?
    ensures compounds[0] != [] ==> BodyOf(compounds, rels) != []
    decreases |rels|
  {
    if rels == [] {
      FiltersAreSimple(compounds[0]);
    } else {
      BeginsSimple(compounds[..|rels|], rels[..|rels| - 1]);
    }
  }

  lemma {:induction false} FiltersAreSimple(c: Compound)
    ensures forall i :: 0 <= i < |c| ==> FiltersOf(c)[i] == Simple(c[i])
    decreases |c|
  {
    if c != [] {
      FiltersAreSimple(c[..|c| - 1]);
    }
  }

  /** Every selector is read from the tokens that write it; one without a leading combinator has to
      begin with a simple selector, since a combinator in front would be leading. */
  lemma WriteThenParse(sel: Selector)
    requires |sel.compounds| == |sel.rels| + 1
    requires sel.leading.None? ==> sel.compounds[0] != [] || sel.rels == []
    ensures Parse(TokensOf(sel)) == sel
  {
    var body := BodyOf(sel.compounds, sel.rels);
    WrittenReadsBack(sel.compounds, sel.rels);
    if sel.leading.Some? {
      assert TokensOf(sel)[1..] == body;
    } else {
      BeginsSimple(sel.compounds, sel.rels);
      NothingBefore(body);
    }
  }

  ghost predicate Satisfies(t: Tree, c: Compound, n: Node) {
    forall i :: 0 <= i < |c| ==> c[i].Holds(t, n)
  }

  /** `a rel n` as the standard defines the four combinators, among nodes that qualify. */
  ghost predicate Related(t: Tree, rel: Relative, a: Node, n: Node) {
    match rel
    case Descendant => Ancestor(a, n)
    case Child => Ancestor(a, n) && |n| == |a| + 1
    case Sibling => EarlierSibling(a, n)
    case Adjacent =>
      EarlierSibling(a, n) && forall b :: EarlierSibling(b, n) && IsElement(t, b) ==> b == a || EarlierSibling(b, a)
  }

  ghost predicate InContext(c: Context, n: Node) {
    if c.One? then n == c.node else n in c.nodes
  }

  /** A leading combinator relates the first node to the context. Without one, the first node
      must lie below the context, but only when that is the outermost context of an HTML
      search. Ancestors in the context need not be elements; siblings must be. */
  ghost predicate Placed(s: Setting, leading: Option<Relative>, x: Node) {
    (leading.None? && (s.xml || !s.outermost)) ||
    var rel := if leading.Some? then leading.value else Descendant;
    exists a :: InContext(s.context, a) && Related(s.tree, rel, a, x) &&
      (rel.Dir() == ParentNode || IsElement(s.tree, a))
  }

  ghost predicate Assigned(s: Setting, sel: Selector, xs: seq<Node>, n: Node)
    requires |sel.compounds| == |sel.rels| + 1
  {
    && |xs| == |sel.compounds| && xs[|xs| - 1] == n
    && Placed(s, sel.leading, xs[0])
    && (forall i :: 0 <= i < |xs| ==> Satisfies(s.tree, sel.compounds[i], xs[i]))
    && (forall i :: 0 <= i < |sel.rels| ==>
         Related(s.tree, sel.rels[i], xs[i], xs[i + 1]) && IsElement(s.tree, xs[i]))
  }

  ghost predicate Selects(s: Setting, tokens: seq<Token>, n: Node) {
    exists xs :: Assigned(s, Parse(tokens), xs, n)
  }

  /* ---- The compiler ---- */

  function ElementMatcher(ms: seq<Matcher>): Matcher
    requires ms != []
  {
    if |ms| > 1 then All(ms) else ms[0]
  }

  /** One turn of the compiler's loop. */
  function Extended(ms: seq<Matcher>, token: Token, done: nat): (more: seq<Matcher>)
    requires ms != []
    ensures more != []
  {
    match token
    case Relation(rel) => [Combinator(rel, false, done, ElementMatcher(ms))]
    case Simple(f) => ms + [Test(f)]
  }

  /** The list `matchers` after the tokens of `body`; combinators are numbered from `done`. */
  function MatchersFor(leading: Option<Relative>, body: seq<Token>, done: nat): (ms: seq<Matcher>)
    ensures ms != []
  {
    if body == [] then
      var implicit := if leading.Some? then leading.value else Descendant;
      [Start(leading, Combinator(implicit, true, done, IsContext), Combinator(implicit, true, done + 1, InContexts))]
    else
      var before := MatchersFor(leading, body[..|body| - 1], done);
      Extended(before, body[|body| - 1], done + 2 + |Rels(body[..|body| - 1])|)
  }

  ghost predicate IsCompiled(m: Matcher, tokens: seq<Token>) {
    exists done: nat :: m == Compiled(tokens, done)
  }

  lemma NextToken(leading: Option<Relative>, body: seq<Token>, token: Token, done: nat)
    ensures MatchersFor(leading, body + [token], done) ==
      Extended(MatchersFor(leading, body, done), token, done + 2 + |Rels(body)|)
    ensures |Rels(body + [token])| == |Rels(body)| + if token.Relation? then 1 else 0
  {
    assert (body + [token])[..|body|] == body;
  }

  function Compiled(tokens: seq<Token>, done: nat): Matcher {
    ElementMatcher(MatchersFor(Leading(tokens), Body(tokens), done))
  }

  /* ---- Walks reach what the standard relates ---- */

  lemma AllAheadStep(dir: Direction, n: Node)
    ensures forall a :: Ahead(dir, a, n) <==>
      Follow(dir, n).Some? && (a == Follow(dir, n).value || Ahead(dir, a, Follow(dir, n).value))
  {
    forall a ensures Ahead(dir, a, n) <==>
      Follow(dir, n).Some? && (a == Follow(dir, n).value || Ahead(dir, a, Follow(dir, n).value)) {
      AheadStep(dir, a, n);
    }
  }

  lemma {:induction false} BeyondMeans(s: Setting, rel: Relative, base: bool, inner: Matcher, n: Node)
    ensures Beyond(s, rel, base, inner, n) <==>
      exists a :: Ahead(rel.Dir(), a, n) && Eligible(s, rel, base, a) && Accepts(s, inner, a)
    decreases Distance(rel.Dir(), n)
  {
    AllAheadStep(rel.Dir(), n);
    if Follow(rel.Dir(), n).Some? {
      BeyondMeans(s, rel, base, inner, Follow(rel.Dir(), n).value);
    }
  }

  /** `a` is the first eligible node on the walk. */
  ghost predicate Closest(s: Setting, rel: Relative, base: bool, a: Node, n: Node) {
    && Ahead(rel.Dir(), a, n) && Eligible(s, rel, base, a)
    && forall b :: Ahead(rel.Dir(), b, n) && Eligible(s, rel, base, b) ==> b == a || Ahead(rel.Dir(), b, a)
  }

  /** The next node on the walk is the closest, if it is eligible. */
  lemma ClosestIsNext(s: Setting, rel: Relative, base: bool, p: Node, n: Node)
    requires Follow(rel.Dir(), n).Some? && Follow(rel.Dir(), n).value == p && Eligible(s, rel, base, p)
    ensures forall a :: Closest(s, rel, base, a, n) <==> a == p
  {
    AllAheadStep(rel.Dir(), n);
    AllAheadStep(rel.Dir(), p);
    assert Ahead(rel.Dir(), p, n);
  }

  /** And otherwise the closest is that of the next node. */
  lemma ClosestIsLater(s: Setting, rel: Relative, base: bool, p: Node, n: Node)
    requires Follow(rel.Dir(), n).Some? && Follow(rel.Dir(), n).value == p && !Eligible(s, rel, base, p)
    ensures forall a :: Closest(s, rel, base, a, n) <==> Closest(s, rel, base, a, p)
  {
    AllAheadStep(rel.Dir(), n);
  }

  lemma {:induction false} NearestMeans(s: Setting, rel: Relative, base: bool, inner: Matcher, n: Node)
    ensures Nearest(s, rel, base, inner, n) <==> exists a :: Closest(s, rel, base, a, n) && Accepts(s, inner, a)
    decreases Distance(rel.Dir(), n)
  {
    if Follow(rel.Dir(), n).None? {
      AllAheadStep(rel.Dir(), n);
    } else {
      var p := Follow(rel.Dir(), n).value;
      if Eligible(s, rel, base, p) {
        ClosestIsNext(s, rel, base, p, n);
        assert Closest(s, rel, base, p, n);
      } else {
        ClosestIsLater(s, rel, base, p, n);
        NearestMeans(s, rel, base, inner, p);
      }
    }
  }

  /** In a document, the closest element ancestor is the parent. */
  lemma ClosestIsRelated(s: Setting, rel: Relative, base: bool, a: Node, n: Node)
    requires WellFormed(s.tree) && Has(s.tree, n) && rel.First()
    ensures Closest(s, rel, base, a, n) <==> Related(s.tree, rel, a, n) && Eligible(s, rel, base, a)
  {
    if rel.Child? && n != [] {
      var p := Init(n);
      assert Ahead(ParentNode, p, n);
      if p != [] {
        AncestorInTree(s.tree, p, n);
        assert Eligible(s, rel, base, p);
      }
      forall b | Ancestor(b, n) ensures b == p || Ancestor(b, p) {
        assert |b| < |p| ==> p[..|b|] == n[..|b|];
      }
    } else if rel.Adjacent? {
      forall b ensures Ahead(rel.Dir(), b, n) && Eligible(s, rel, base, b) <==>
        EarlierSibling(b, n) && IsElement(s.tree, b) {}
    }
  }

  lemma WalkMeans(s: Setting, rel: Relative, base: bool, done: nat, inner: Matcher, n: Node)
    requires WellFormed(s.tree) && Has(s.tree, n)
    ensures Accepts(s, Combinator(rel, base, done, inner), n) <==>
      exists a :: Related(s.tree, rel, a, n) && Eligible(s, rel, base, a) && Accepts(s, inner, a)
  {
    if rel.First() {
      NearestMeans(s, rel, base, inner, n);
      forall a ensures Closest(s, rel, base, a, n) <==> Related(s.tree, rel, a, n) && Eligible(s, rel, base, a) {
        ClosestIsRelated(s, rel, base, a, n);
      }
    } else {
      BeyondMeans(s, rel, base, inner, n);
    }
  }

  lemma RelatedInTree(t: Tree, rel: Relative, a: Node, n: Node)
    requires Has(t, n) && Related(t, rel, a, n)
    ensures Has(t, a)
  {
    if rel.Dir() == ParentNode {
      AncestorInTree(t, a, n);
    }
  }

  lemma StartMeans(s: Setting, leading: Option<Relative>, done: nat, n: Node)
    requires WellFormed(s.tree) && Has(s.tree, n)
    ensures Accepts(s, ElementMatcher(MatchersFor(leading, [], done)), n) <==> Placed(s, leading, n)
  {
    var rel := if leading.Some? then leading.value else Descendant;
    assert ElementMatcher(MatchersFor(leading, [], done)) ==
      Start(leading, Combinator(rel, true, done, IsContext), Combinator(rel, true, done + 1, InContexts));
    if s.context.One? {
      WalkMeans(s, rel, true, done, IsContext, n);
      forall a ensures Accepts(s, IsContext, a) <==> InContext(s.context, a) {}
    } else {
      WalkMeans(s, rel, true, done + 1, InContexts, n);
      forall a ensures Accepts(s, InContexts, a) <==> InContext(s.context, a) {}
    }
    forall a ensures Eligible(s, rel, true, a) <==> rel.Dir() == ParentNode || IsElement(s.tree, a) {}
  }

  lemma AddedTest(s: Setting, ms: seq<Matcher>, f: Filter, n: Node)
    requires ms != []
    ensures Accepts(s, ElementMatcher(ms + [Test(f)]), n) <==> Accepts(s, ElementMatcher(ms), n) && f.Holds(s.tree, n)
  {
    var more := ms + [Test(f)];
    assert Accepts(s, ElementMatcher(ms), n) <==> forall i :: 0 <= i < |ms| ==> Accepts(s, ms[i], n);
    assert Accepts(s, ElementMatcher(more), n) <==> forall i :: 0 <= i < |more| ==> Accepts(s, more[i], n);
    assert Accepts(s, more[|ms|], n) <==> f.Holds(s.tree, n);
    assert forall i :: 0 <= i < |ms| ==> more[i] == ms[i];
  }

  ghost function Prefix(leading: Option<Relative>, body: seq<Token>): Selector {
    Selector(leading, Compounds(body), Rels(body))
  }

  /** Some assignment to the compounds read so far ends in `n`. */
  ghost predicate Reaches(s: Setting, leading: Option<Relative>, body: seq<Token>, n: Node) {
    exists xs :: Assigned(s, Prefix(leading, body), xs, n)
  }

  /** A simple selector narrows the last compound and leaves the assignment alone. */
  lemma {:induction false} SimpleStep(s: Setting, leading: Option<Relative>, body: seq<Token>, f: Filter, xs: seq<Node>,
    n: Node)
    ensures Assigned(s, Prefix(leading, body + [Simple(f)]), xs, n) <==>
      Assigned(s, Prefix(leading, body), xs, n) && f.Holds(s.tree, n)
  {
    assert (body + [Simple(f)])[..|body|] == body;
    var cs, cs' := Compounds(body), Compounds(body + [Simple(f)]);
    var k := |cs| - 1;
    assert cs'[k] == cs[k] + [f];
    assert Satisfies(s.tree, cs'[k], n) <==> Satisfies(s.tree, cs[k], n) && f.Holds(s.tree, n) by {
      if Satisfies(s.tree, cs'[k], n) {
        assert cs'[k][|cs[k]|].Holds(s.tree, n);
        forall i | 0 <= i < |cs[k]| ensures cs[k][i].Holds(s.tree, n) {
          assert cs'[k][i] == cs[k][i];
        }
      }
    }
  }

  /** A combinator starts a compound that any node satisfies, and adds one node to the assignment. */
  lemma {:induction false} RelationStep(s: Setting, leading: Option<Relative>, body: seq<Token>, rel: Relative,
    xs: seq<Node>, n: Node)
    requires |xs| == |Compounds(body)|
    ensures Assigned(s, Prefix(leading, body + [Relation(rel)]), xs + [n], n) <==>
      Assigned(s, Prefix(leading, body), xs, xs[|xs| - 1]) && Related(s.tree, rel, xs[|xs| - 1], n) &&
        IsElement(s.tree, xs[|xs| - 1])
  {
    assert (body + [Relation(rel)])[..|body|] == body;
    var a, sel, sel', xs' := xs[|xs| - 1], Prefix(leading, body), Prefix(leading, body + [Relation(rel)]), xs + [n];
    if Assigned(s, sel', xs', n) {
      assert sel'.rels[|xs| - 1] == rel;
      forall i | 0 <= i < |xs| ensures Satisfies(s.tree, sel.compounds[i], xs[i]) {
        assert Satisfies(s.tree, sel'.compounds[i], xs'[i]);
      }
      forall i | 0 <= i < |sel.rels|
        ensures Related(s.tree, sel.rels[i], xs[i], xs[i + 1]) && IsElement(s.tree, xs[i])
      {
        assert Related(s.tree, sel'.rels[i], xs'[i], xs'[i + 1]) && IsElement(s.tree, xs'[i]);
      }
    }
  }

  /** Compiler correctness, by induction on the tokens read so far. */
  lemma {:induction false} MatchersMean(s: Setting, leading: Option<Relative>, body: seq<Token>, done: nat, n: Node)
    requires WellFormed(s.tree) && Has(s.tree, n)
    ensures Accepts(s, ElementMatcher(MatchersFor(leading, body, done)), n) <==> Reaches(s, leading, body, n)
    decreases |body|
  {
    if body == [] {
      StartMeans(s, leading, done, n);
      if Placed(s, leading, n) {
        assert Assigned(s, Prefix(leading, body), [n], n);
      }
    } else {
      var before, last := body[..|body| - 1], body[|body| - 1];
      assert body == before + [last];
      if last.Simple? {
        MatchersMean(s, leading, before, done, n);
        SimpleMeans(s, leading, before, last.filter, done, n);
      } else {
        var inner := ElementMatcher(MatchersFor(leading, before, done));
        WalkMeans(s, last.rel, false, done + 2 + |Rels(before)|, inner, n);
        forall a | Related(s.tree, last.rel, a, n)
          ensures Accepts(s, inner, a) <==> Reaches(s, leading, before, a)
        {
          RelatedInTree(s.tree, last.rel, a, n);
          MatchersMean(s, leading, before, done, a);
        }
        RelationMeans(s, leading, before, last.rel, n);
      }
    }
  }

  lemma {:induction false} SimpleMeans(s: Setting, leading: Option<Relative>, before: seq<Token>, f: Filter, done: nat,
    n: Node)
    requires Accepts(s, ElementMatcher(MatchersFor(leading, before, done)), n) <==> Reaches(s, leading, before, n)
    ensures Accepts(s, ElementMatcher(MatchersFor(leading, before + [Simple(f)], done)), n) <==>
      Reaches(s, leading, before + [Simple(f)], n)
  {
    var ms := MatchersFor(leading, before, done);
    NextToken(leading, before, Simple(f), done);
    assert MatchersFor(leading, before + [Simple(f)], done) == ms + [Test(f)];
    AddedTest(s, ms, f, n);
    forall xs ensures Assigned(s, Prefix(leading, before + [Simple(f)]), xs, n) <==>
      Assigned(s, Prefix(leading, before), xs, n) && f.Holds(s.tree, n) {
      SimpleStep(s, leading, before, f, xs, n);
    }
  }

  lemma {:induction false} Lengthen(s: Setting, leading: Option<Relative>, before: seq<Token>, rel: Relative, a: Node,
    n: Node)
    requires Related(s.tree, rel, a, n) && IsElement(s.tree, a) && Reaches(s, leading, before, a)
    ensures Reaches(s, leading, before + [Relation(rel)], n)
  {
    var xs :| Assigned(s, Prefix(leading, before), xs, a);
    RelationStep(s, leading, before, rel, xs, n);
  }

  lemma {:induction false} Shorten(s: Setting, leading: Option<Relative>, before: seq<Token>, rel: Relative, n: Node)
    returns (a: Node)
    requires Reaches(s, leading, before + [Relation(rel)], n)
    ensures Related(s.tree, rel, a, n) && IsElement(s.tree, a) && Reaches(s, leading, before, a)
  {
    var ys :| Assigned(s, Prefix(leading, before + [Relation(rel)]), ys, n);
    assert |ys| == |Compounds(before)| + 1 by {
      assert (before + [Relation(rel)])[..|before|] == before;
    }
    var xs := ys[..|ys| - 1];
    assert ys == xs + [n];
    a := xs[|xs| - 1];
    RelationStep(s, leading, before, rel, xs, n);
  }

  /** An assignment that ends in `n` is one that ends in a related element, followed by `n`. */
  lemma {:induction false} RelationMeans(s: Setting, leading: Option<Relative>, before: seq<Token>, rel: Relative,
    n: Node)
    ensures Reaches(s, leading, before + [Relation(rel)], n) <==>
      exists a :: Related(s.tree, rel, a, n) && IsElement(s.tree, a) && Reaches(s, leading, before, a)
  {
    if a :| Related(s.tree, rel, a, n) && IsElement(s.tree, a) && Reaches(s, leading, before, a) {
      Lengthen(s, leading, before, rel, a, n);
    }
    if Reaches(s, leading, before + [Relation(rel)], n) {
      var a := Shorten(s, leading, before, rel, n);
    }
  }

  lemma CompiledSelects(s: Setting, tokens: seq<Token>, done: nat, n: Node)
    requires WellFormed(s.tree) && Has(s.tree, n)
    ensures Accepts(s, Compiled(tokens, done), n) <==> Selects(s, tokens, n)
  {
    MatchersMean(s, Leading(tokens), Body(tokens), done, n);
    assert Parse(tokens) == Prefix(Leading(tokens), Body(tokens));
    assert Selects(s, tokens, n) <==> Reaches(s, Leading(tokens), Body(tokens), n);
  }
}
