/** The engine as a program uses it: elements are found by selectors, told without their tokens. */
module SizzleUse {
  import opened Dom
  import opened Engine
  import opened GroupMatcher
  import opened Matchers
  import opened Selectors
  import opened Wrappers

  /** A selector that can be written: there is something, and a combinator in front is a leading one. */
  predicate Writable(sel: Selector) {
    |sel.compounds| == |sel.rels| + 1 &&
    (sel.leading.None? ==> sel.compounds[0] != [])
  }

  /** The element is one that the selector stands for. */
  ghost predicate StandsFor(s: Setting, sel: Selector, n: Node)
    requires Writable(sel)
  {
    exists xs :: Assigned(s, sel, xs, n)
  }

  ghost predicate FoundByAny(s: Setting, sels: seq<Selector>, n: Node)
    requires forall g :: 0 <= g < |sels| ==> Writable(sels[g])
  {
    exists g :: 0 <= g < |sels| && StandsFor(s, sels[g], n)
  }

  lemma SomethingWritten(sel: Selector)
    requires Writable(sel)
    ensures TokensOf(sel) != [] && Parse(TokensOf(sel)) == sel
  {
    WriteThenParse(sel);
    if sel.leading.None? {
      BeginsSimple(sel.compounds, sel.rels);
    }
  }

  /** A group of selectors, as it is written, finds exactly the elements that one of them stands for. */
  method FindAll(engine: Sizzle, s: Setting, sels: seq<Selector>, elems: seq<Node>, results: NodeList)
    requires engine.Valid() && forall g :: 0 <= g < |sels| ==> Writable(sels[g])
    requires WellFormed(s.tree) && forall i :: 0 <= i < |elems| ==> Has(s.tree, elems[i])
    modifies engine, engine.index, results
    ensures engine.Valid()
    ensures results.items ==
      old(results.items) + Pick(elems, iset i: nat | i < |elems| && FoundByAny(s, sels, elems[i]))
  {
    var groups := seq(|sels|, g requires 0 <= g < |sels| => TokensOf(sels[g]));
    forall g | 0 <= g < |sels| ensures groups[g] != [] && Parse(groups[g]) == sels[g] {
      SomethingWritten(sels[g]);
    }
    engine.Select(s, groups, elems, results);
    forall i: nat | i < |elems| ensures SelectedByAny(s, groups, elems[i]) <==> FoundByAny(s, sels, elems[i]) {
      SameSelected(s, groups, sels, elems[i]);
    }
    PickSame(elems, SelectedAt(s, groups, elems), iset i: nat | i < |elems| && FoundByAny(s, sels, elems[i]));
  }

  lemma SameSelected(s: Setting, groups: seq<seq<Token>>, sels: seq<Selector>, n: Node)
    requires |groups| == |sels|
    requires forall g :: 0 <= g < |sels| ==> Writable(sels[g]) && Parse(groups[g]) == sels[g]
    ensures SelectedByAny(s, groups, n) <==> FoundByAny(s, sels, n)
  {
    forall g | 0 <= g < |sels| ensures Selects(s, groups[g], n) <==> StandsFor(s, sels[g], n) {
    }
  }

  /* ---- Short selectors ---- */

  /** A selector of one compound stands for the nodes in their place that satisfy it. */
  lemma OneCompound(s: Setting, leading: Option<Relative>, c: Compound, n: Node)
    requires leading.None? ==> c != []
    ensures StandsFor(s, Selector(leading, [c], []), n) <==> Placed(s, leading, n) && Satisfies(s.tree, c, n)
  {
    var sel := Selector(leading, [c], []);
    if Placed(s, leading, n) && Satisfies(s.tree, c, n) {
      assert Assigned(s, sel, [n], n);
    }
    if xs :| Assigned(s, sel, xs, n) {
      assert xs[0] == n && sel.compounds[0] == c;
    }
  }

  /** One of two compounds stands for the nodes that satisfy the second and are related, as the combinator
      says, to an element in its place that satisfies the first. */
  lemma TwoCompounds(s: Setting, leading: Option<Relative>, c: Compound, rel: Relative, d: Compound, n: Node)
    requires leading.None? ==> c != []
    ensures StandsFor(s, Selector(leading, [c, d], [rel]), n) <==>
      Satisfies(s.tree, d, n) && exists a :: FirstOf(s, leading, c, rel, a, n)
  {
    var sel := Selector(leading, [c, d], [rel]);
    if xs :| Assigned(s, sel, xs, n) {
      assert sel.compounds[0] == c && sel.compounds[1] == d && sel.rels[0] == rel;
      assert FirstOf(s, leading, c, rel, xs[0], n);
    }
    if Satisfies(s.tree, d, n) {
      if a :| FirstOf(s, leading, c, rel, a, n) {
        assert Assigned(s, sel, [a, n], n);
      }
    }
  }

  ghost predicate FirstOf(s: Setting, leading: Option<Relative>, c: Compound, rel: Relative, a: Node, n: Node) {
    Placed(s, leading, a) && Satisfies(s.tree, c, a) && Related(s.tree, rel, a, n) && IsElement(s.tree, a)
  }

  /** With a leading combinator and one context node, this is where a node may lie. */
  lemma PlacedAt(s: Setting, rel: Relative, c: Node, n: Node)
    requires s.context == One(c)
    ensures Placed(s, Some(rel), n) <==>
      match rel
      case Child => n != [] && Init(n) == c
      case Descendant => |c| < |n| && n[..|c|] == c
      case Sibling => EarlierSibling(c, n) && IsElement(s.tree, c)
      case Adjacent => Related(s.tree, Adjacent, c, n) && IsElement(s.tree, c)
  {
    assert InContext(s.context, c);
    if Placed(s, Some(rel), n) {
      var a :| InContext(s.context, a) && Related(s.tree, rel, a, n) &&
        (rel.Dir() == ParentNode || IsElement(s.tree, a));
      assert a == c;
    }
  }

  /** Without one, a node may lie anywhere in an XML document and where the context is not the outermost
      one, and otherwise below a node of the context. */
  lemma PlacedWithout(s: Setting, n: Node)
    ensures s.xml || !s.outermost ==> Placed(s, None, n)
    ensures !s.xml && s.outermost ==>
      (Placed(s, None, n) <==> exists k :: 0 <= k < |n| && IsContextNode(s.context, n[..k]))
  {
    if k :| 0 <= k < |n| && IsContextNode(s.context, n[..k]) {
      assert InContext(s.context, n[..k]) && Related(s.tree, Descendant, n[..k], n);
    }
  }

  ghost predicate IsContextNode(c: Context, n: Node) {
    c == One(n) || (c.Many? && n in c.nodes)
  }

  /* ---- Searches ---- */

  /** Whatever has children is an element. */
  predicate Proper(t: Tree) {
    forall i :: 0 <= i < |t.children| ==>
      (t.children[i].kind == Element || t.children[i].children == []) && Proper(t.children[i])
  }

  lemma {:induction false} ProperBelow(t: Tree, n: Node)
    requires Proper(t) && Has(t, n)
    ensures Proper(Dom.Find(t, n).value)
    ensures n != [] && Dom.Find(t, n).value.children != [] ==> IsElement(t, n)
    decreases |n|
  {
    if n != [] {
      ProperBelow(t, Init(n));
    }
  }

  lemma ProperIsWellFormed(t: Tree)
    requires Proper(t)
    ensures WellFormed(t)
  {
    forall n {:trigger Dom.Find(t, n)} | n != [] && Has(t, n) && Dom.Find(t, n).value.children != []
      ensures IsElement(t, n)
    {
      ProperBelow(t, n);
    }
  }

  lemma PickTwo(a: Node, b: Node, keep: iset<nat>)
    ensures Pick([a, b], keep) == (if 0 in keep then [a] else []) + (if 1 in keep then [b] else [])
  {
    assert [a, b][..1] == [a] && [a][..0] == [];
    assert Pick([a], keep) == Pick([], keep) + if 0 in keep then [a] else [];
  }

  const LEAF := Branch(Element, [])

  /** Three elements, one inside the other. */
  const NESTED := Branch(Document, [Branch(Element, [Branch(Element, [LEAF])])])

  /** Four siblings, the second of them a text. */
  const ROW := Branch(Document, [Branch(Element, [LEAF, Branch(Kind.Other, []), LEAF, LEAF])])

  lemma InNested()
    ensures Proper(NESTED) && Has(NESTED, [0, 0]) && Has(NESTED, [0, 0, 0])
  {
    assert Init([0]) == [] && Init([0, 0]) == [0] && Init([0, 0, 0]) == [0, 0];
    assert Dom.Find(NESTED, [0]) == Some(Branch(Element, [Branch(Element, [LEAF])]));
    assert Dom.Find(NESTED, [0, 0]) == Some(Branch(Element, [LEAF]));
    assert Proper(LEAF) && Proper(Branch(Element, [LEAF])) && Proper(Branch(Element, [Branch(Element, [LEAF])]));
  }

  lemma InRow()
    ensures Proper(ROW) && Has(ROW, [0, 2]) && Has(ROW, [0, 3])
    ensures IsElement(ROW, [0, 0]) && !IsElement(ROW, [0, 1]) && IsElement(ROW, [0, 2])
  {
    assert Init([0]) == [];
    forall k: nat | k < 4 ensures Init([0, k]) == [0] {
    }
    assert Dom.Find(ROW, [0]) == Some(Branch(Element, [LEAF, Branch(Kind.Other, []), LEAF, LEAF]));
  }

  const ANY := Pure((t, n) => true)
  const LIST := Pure((t, n) => n == [0, 0])

  /** `find( "> *" )`: of a child of the context and its own child, the first. */
  method FindChildren() returns (found: seq<Node>)
    ensures found == [[0, 0]]
  {
    var engine := new Sizzle();
    var results := new NodeList();
    var s := Setting(NESTED, One([0]), false, true);
    var sel := Selector(Some(Child), [[ANY]], []);
    InNested();
    ProperIsWellFormed(NESTED);
    FindAll(engine, s, [sel], [[0, 0], [0, 0, 0]], results);
    found := results.items;
    forall n ensures FoundByAny(s, [sel], n) <==> n != [] && Init(n) == [0] {
      OneFound(s, sel, n);
      OneCompound(s, Some(Child), [ANY], n);
      PlacedAt(s, Child, [0], n);
    }
    PickTwo([0, 0], [0, 0, 0], iset i: nat | i < 2 && FoundByAny(s, [sel], [[0, 0], [0, 0, 0]][i]));
  }

  lemma OneFound(s: Setting, sel: Selector, n: Node)
    requires Writable(sel)
    ensures FoundByAny(s, [sel], n) <==> StandsFor(s, sel, n)
  {
    if StandsFor(s, sel, n) {
      assert [sel][0] == sel;
    }
  }

  lemma AfterFirst(s: Setting, rel: Relative, n: Node)
    requires s == Setting(ROW, One([]), false, true) && rel in {Adjacent, Sibling}
    ensures StandsFor(s, Selector(None, [[LIST], [ANY]], [rel]), n) <==> Related(ROW, rel, [0, 0], n)
  {
    InRow();
    TwoCompounds(s, None, [LIST], rel, [ANY], n);
    assert InContext(s.context, []) && Related(ROW, Descendant, [], [0, 0]);
    if Related(ROW, rel, [0, 0], n) {
      assert FirstOf(s, None, [LIST], rel, [0, 0], n);
    }
    if a :| FirstOf(s, None, [LIST], rel, a, n) {
      assert [LIST][0].Holds(ROW, a);
    }
  }

  lemma InRowRelated()
    ensures Related(ROW, Sibling, [0, 0], [0, 2]) && Related(ROW, Sibling, [0, 0], [0, 3])
    ensures Related(ROW, Adjacent, [0, 0], [0, 2]) && !Related(ROW, Adjacent, [0, 0], [0, 3])
  {
    InRow();
    assert Init([0, 0]) == [0] && Init([0, 2]) == [0] && Init([0, 3]) == [0];
    forall b | EarlierSibling(b, [0, 2]) && IsElement(ROW, b) ensures b == [0, 0] {
      assert b == [0, Last(b)];
    }
    assert EarlierSibling([0, 2], [0, 3]);
  }

  /** `list + *` and `list ~ *`, for the first element of a row: the text is passed over, and the last
      element follows, but not at once. */
  method FindAfter(rel: Relative) returns (found: seq<Node>)
    requires rel in {Adjacent, Sibling}
    ensures found == if rel == Adjacent then [[0, 2]] else [[0, 2], [0, 3]]
  {
    var engine := new Sizzle();
    var results := new NodeList();
    var s := Setting(ROW, One([]), false, true);
    var sel := Selector(None, [[LIST], [ANY]], [rel]);
    InRow();
    InRowRelated();
    ProperIsWellFormed(ROW);
    FindAll(engine, s, [sel], [[0, 2], [0, 3]], results);
    found := results.items;
    forall n ensures FoundByAny(s, [sel], n) <==> Related(ROW, rel, [0, 0], n) {
      OneFound(s, sel, n);
      AfterFirst(s, rel, n);
    }
    PickTwo([0, 2], [0, 3], iset i: nat | i < 2 && FoundByAny(s, [sel], [[0, 2], [0, 3]][i]));
  }

  /** A set matcher alone, such as that of `:first`, picks the elements at the places that it accepts. */
  method FindFirst(engine: Sizzle, s: Setting, a: Node, b: Node) returns (found: seq<Node>)
    requires engine.Valid() && Has(s.tree, a) && Has(s.tree, b)
    modifies engine, engine.index
    ensures engine.Valid() && found == [a]
  {
    var results := new NodeList();
    var first: SetMatcher := unmatched => {0};
    engine.SuperMatcher(s, [], [first], [a, b], results);
    found := results.items;
    OneSetMatcher(s, [], first, [a, b]);
    PickTwo(a, b, iset k: nat | k < 2 && (AcceptedByAny(s, [], [a, b][k]) || k in first(Leftover(s, [], [a, b]))));
  }
}
