/** `:nth-child(an+b)` on HTML documents: the position of an element among its element
    siblings is sought from an index that an earlier query left on the parent. */
module NthChild {
  import opened Arithmetic
  import opened Dom
  import opened Wrappers

  /** The array `[ dirruns, nodeIndex, diff ]`. */
  datatype Entry = Entry(run: nat, index: nat, count: nat)

  /** How many of the children up to and including position `k` are elements. */
  function Elements(children: seq<Tree>, k: nat): nat
    requires k < |children|
  {
    (if k == 0 then 0 else Elements(children, k - 1)) + (if children[k].kind == Element then 1 else 0)
  }

  function Siblings(t: Tree, n: Node): seq<Tree>
    requires n != [] && Has(t, n)
  {
    Find(t, Init(n)).value.children
  }

  /** 1 + the number of preceding element siblings. */
  ghost function Position(t: Tree, elem: Node): nat
    requires elem != [] && Has(t, elem)
  {
    1 + |set k: nat | k < Last(elem) && Siblings(t, elem)[k].kind == Element|
  }

  lemma {:induction false} ElementsCount(children: seq<Tree>, k: nat)
    requires k < |children|
    ensures Elements(children, k) == |set i: nat | i <= k && children[i].kind == Element|
    decreases k
  {
    var here := set i: nat | i <= k && children[i].kind == Element;
    if k == 0 {
      assert here == if children[0].kind == Element then {0} else {};
    } else {
      ElementsCount(children, k - 1);
      var before := set i: nat | i <= k - 1 && children[i].kind == Element;
      assert here == before + if children[k].kind == Element then {k} else {};
    }
  }

  lemma PositionIsElements(t: Tree, elem: Node)
    requires elem != [] && IsElement(t, elem)
    ensures Elements(Siblings(t, elem), Last(elem)) == Position(t, elem)
  {
    var children, k := Siblings(t, elem), Last(elem);
    assert children[k].kind == Element;
    ElementsCount(children, k);
    var upTo := set i: nat | i <= k && children[i].kind == Element;
    var before := set i: nat | i < k && children[i].kind == Element;
    assert upTo == before + {k};
  }

  /** JavaScript's remainder by a non-zero divisor takes the sign of the dividend. */
  function Remainder(d: int, a: int): int
    requires a != 0
  {
    var size := (if d < 0 then -d else d) % (if a < 0 then -a else a);
    if d < 0 then -size else size
  }

  /** `diff === first || ( diff % first === 0 && diff / first >= 0 )`; a remainder by 0 is NaN. */
  predicate OnCycle(d: int, a: int) {
    d == a || (a != 0 && Remainder(d, a) == 0 && d / a >= 0)
  }

  lemma DividesEitherSign(d: int, a: int)
    requires a != 0
    ensures Remainder(d, a) == 0 <==> d % a == 0
  {
    var positive := if a < 0 then -a else a;
    SignOfDivisor(d, a);
    if d < 0 {
      SignOfDividend(-d, positive);
    }
  }

  lemma SignOfDivisor(d: int, a: int)
    requires a != 0
    ensures d % a == 0 <==> d % (if a < 0 then -a else a) == 0
  {
    if a < 0 {
      Division(d, a);
      Division(d, -a);
      if d % a == 0 {
        Multiple(d, -a, -(d / a));
      }
      if d % -a == 0 {
        Multiple(d, a, -(d / -a));
      }
    }
  }

  lemma SignOfDividend(d: int, a: int)
    requires a > 0
    ensures -d % a == 0 <==> d % a == 0
  {
    Division(d, a);
    Division(-d, a);
    if d % a == 0 {
      Multiple(-d, a, -(d / a));
    }
    if -d % a == 0 {
      Multiple(d, a, -(-d / a));
    }
  }

  lemma Multiple(d: int, a: int, q: int)
    requires a != 0 && d == a * q
    ensures d % a == 0 && d / a == q
  {
    QuotientIsUnique(d, a, q, 0);
  }

  /** Section 6.6.5.2 of Selectors Level 3, for coefficients of any sign and for a = 0. */
  lemma OnCycleMeans(position: int, a: int, b: int)
    ensures OnCycle(position - b, a) <==> exists n: nat :: a * n + b == position
  {
    var d := position - b;
    if a != 0 {
      DividesEitherSign(d, a);
      if d % a == 0 && d / a >= 0 {
        assert a * (d / a) + b == position;
      }
    }
    if d == a {
      assert a * 1 + b == position;
    }
    if n: nat :| a * n + b == position {
      if a == 0 {
        assert a * n == 0;
      } else {
        Multiple(d, a, n);
      }
    }
  }

  /** What the filter made for `:nth-child(an+b)` answers. Only elements have a position; the shortcut
      for `n` asks for a parent alone. */
  predicate IsNth(t: Tree, n: Node, a: int, b: int) {
    n != [] && Has(t, n) &&
    ((a == 1 && b == 0) || OnCycle((if IsElement(t, n) then Elements(Siblings(t, n), Last(n)) else 0) - b, a))
  }

  /** For an element, this is what the standard says. */
  lemma IsNthMeans(t: Tree, elem: Node, a: int, b: int)
    requires IsElement(t, elem)
    ensures IsNth(t, elem, a, b) <==> elem != [] && exists n: nat :: a * n + b == Position(t, elem)
  {
    if elem != [] {
      PositionIsElements(t, elem);
      OnCycleMeans(Position(t, elem), a, b);
      if a == 1 && b == 0 {
        assert 1 * Position(t, elem) + 0 == Position(t, elem);
      }
    }
  }

  class ChildIndex {
    var dirruns: nat
    var cache: map<Node, Entry>

    constructor ()
      ensures dirruns == 0 && cache == map[]
    {
      dirruns, cache := 0, map[];
    }

    ghost predicate Past()
      reads this
    {
      forall p :: p in cache ==> cache[p].run <= dirruns
    }

    /** Each entry of the current run gives a child of its parent and the number of elements
        up to that child. */
    ghost predicate Sound(t: Tree)
      reads this
    {
      Past() && forall p :: p in cache && cache[p].run == dirruns ==>
        Has(t, p) && cache[p].index < |Find(t, p).value.children| &&
        cache[p].count == Elements(Find(t, p).value.children, cache[p].index)
    }

    /** Seeks `elem` from the cached index, and once more from the start if that runs out. A node that
        is no element is never met. */
    method Seek(t: Tree, elem: Node) returns (diff: nat, ghost passes: nat)
      requires Sound(t) && elem != [] && Has(t, elem)
      modifies `cache
      ensures Sound(t)
      ensures diff == if IsElement(t, elem) then Elements(Siblings(t, elem), Last(elem)) else 0
      ensures passes <= 2
    {
      var parent, k := Init(elem), Last(elem);
      var children := Find(t, parent).value.children;
      var nodeIndex, node := 0, None;
      diff := 0;
      if parent in cache && cache[parent].run == dirruns {
        nodeIndex := cache[parent].index;
        // An index of 0 is falsy, and so are the values derived from it.
        if nodeIndex != 0 {
          diff := cache[parent].count;
          node := Some(nodeIndex);
        }
      }
      var start := true;
      passes := 1;
      while true
        invariant cache == old(cache)
        invariant passes == if start then 1 else 2
        invariant node.Some? ==>
          node.value < |children| && nodeIndex == node.value && diff == Elements(children, node.value)
        invariant !start ==> node.Some? && (children[k].kind == Element ==> node.value < k)
        decreases start, |children| - (if node.Some? then node.value else 0)
      {
        nodeIndex := nodeIndex + 1;
        if node.Some? && node.value + 1 < |children| {
          node := Some(node.value + 1);
        } else {
          diff, nodeIndex := 0, 0;
          if !start {
            break;
          }
          start, node, passes := false, Some(0), passes + 1;
        }
        if children[node.value].kind == Element {
          diff := diff + 1;
          if node.value == k {
            cache := cache[parent := Entry(dirruns, nodeIndex, diff)];
            break;
          }
        }
      }
    }

    /** The search in XML documents, which leaves nothing behind. */
    method SeekPlainly(t: Tree, elem: Node) returns (diff: nat)
      requires elem != [] && Has(t, elem)
      ensures diff == if IsElement(t, elem) then Elements(Siblings(t, elem), Last(elem)) else 0
    {
      var k, node := Last(elem), 0;
      var children := Find(t, Init(elem)).value.children;
      diff := 0;
      while node < |children|
        invariant 0 <= node <= |children| && diff == if node == 0 then 0 else Elements(children, node - 1)
        invariant children[k].kind == Element ==> node <= k
      {
        if children[node].kind == Element {
          diff := diff + 1;
          if node == k {
            return;
          }
        }
        node := node + 1;
      }
      diff := 0;
    }

    method Matches(t: Tree, elem: Node, xml: bool, a: int, b: int) returns (matched: bool)
      requires Sound(t) && Has(t, elem)
      modifies `cache
      ensures Sound(t)
      ensures matched == IsNth(t, elem, a, b)
    {
      if a == 1 && b == 0 {
        return elem != [];
      }
      if elem == [] {
        return false;
      }
      var diff;
      if xml {
        diff := SeekPlainly(t, elem);
      } else {
        ghost var passes;
        diff, passes := Seek(t, elem);
      }
      matched := OnCycle(diff - b, a);
    }

    /** A new run makes every entry stale, whatever happened to the document. */
    method NewRun(t: Tree)
      requires Past()
      modifies this`dirruns
      ensures Sound(t) && dirruns == old(dirruns) + 1
    {
      dirruns := dirruns + 1;
    }
  }
}
