/** Comparing nodes of one document by their ancestors, and removing duplicates from a sorted list. */
module DocumentOrder {
  import opened Dom
  import opened Wrappers

  /* ---- Preorder, the reference order ---- */

  function Under(i: nat, nodes: seq<Node>): (under: seq<Node>)
    ensures |under| == |nodes|
  {
    seq(|nodes|, k requires 0 <= k < |nodes| => [i] + nodes[k])
  }

  /** All nodes of a tree, each before its children and the children in order. */
  function Preorder(t: Tree): seq<Node>
    decreases t, |t.children| + 1
  {
    [[]] + Below(t, 0)
  }

  function Below(t: Tree, i: nat): seq<Node>
    requires i <= |t.children|
    decreases t, |t.children| - i
  {
    if i == |t.children| then [] else Under(i, Preorder(t.children[i])) + Below(t, i + 1)
  }

  ghost predicate Before(a: Node, b: Node) {
    b != [] && (a == [] || a[0] < b[0] || (a[0] == b[0] && Before(a[1..], b[1..])))
  }

  ghost predicate Sorted(nodes: seq<Node>) {
    forall i, j :: 0 <= i < j < |nodes| ==> Before(nodes[i], nodes[j])
  }

  lemma {:induction false} FindFromTop(t: Tree, n: Node)
    requires n != []
    ensures Find(t, n) == if n[0] < |t.children| then Find(t.children[n[0]], n[1..]) else None
    decreases |n|
  {
    if |n| == 1 {
      assert Init(n) == [];
    } else {
      FindFromTop(t, Init(n));
      assert Init(n)[1..] == Init(n[1..]);
    }
  }

  lemma {:induction false} PreorderLists(t: Tree, n: Node)
    ensures n in Preorder(t) <==> Has(t, n)
    decreases t, |t.children| + 1
  {
    BelowLists(t, 0, n);
    if n != [] {
      FindFromTop(t, n);
    }
  }

  lemma {:induction false} BelowLists(t: Tree, i: nat, n: Node)
    requires i <= |t.children|
    ensures n in Below(t, i) <==> n != [] && i <= n[0] < |t.children| && Has(t.children[n[0]], n[1..])
    decreases t, |t.children| - i
  {
    if i < |t.children| {
      BelowLists(t, i + 1, n);
      var list := Preorder(t.children[i]);
      if n != [] {
        PreorderLists(t.children[i], n[1..]);
        if n[0] == i && n[1..] in list {
          var k :| 0 <= k < |list| && list[k] == n[1..];
          assert Under(i, list)[k] == n;
        }
      }
    }
  }

  lemma {:induction false} PreorderSorted(t: Tree)
    ensures Sorted(Preorder(t))
    decreases t, |t.children| + 1
  {
    BelowSorted(t, 0);
  }

  lemma {:induction false} BelowSorted(t: Tree, i: nat)
    requires i <= |t.children|
    ensures Sorted(Below(t, i))
    ensures forall k :: 0 <= k < |Below(t, i)| ==> Below(t, i)[k] != [] && Below(t, i)[k][0] >= i
    decreases t, |t.children| - i
  {
    if i < |t.children| {
      PreorderSorted(t.children[i]);
      BelowSorted(t, i + 1);
      var list := Preorder(t.children[i]);
      forall j, k | 0 <= j < k < |list| ensures Before(Under(i, list)[j], Under(i, list)[k]) {
        assert Before(list[j], list[k]);
        assert ([i] + list[j])[1..] == list[j] && ([i] + list[k])[1..] == list[k];
      }
    }
  }

  lemma {:induction false} NotBoth(a: Node, b: Node)
    ensures !(Before(a, b) && Before(b, a)) && !Before(a, a)
    decreases |a|
  {
    if a != [] {
      NotBoth(a[1..], if b == [] then [] else b[1..]);
    }
  }

  /** The place of a node in the document. */
  ghost function Place(t: Tree, n: Node): (i: nat)
    requires Has(t, n)
    ensures i < |Preorder(t)| && Preorder(t)[i] == n
  {
    PreorderLists(t, n);
    var i :| 0 <= i < |Preorder(t)| && Preorder(t)[i] == n;
    i
  }

  lemma BeforeIsPlace(t: Tree, a: Node, b: Node)
    requires Has(t, a) && Has(t, b)
    ensures Before(a, b) <==> Place(t, a) < Place(t, b)
    ensures a == b <==> Place(t, a) == Place(t, b)
  {
    PreorderSorted(t);
    NotBoth(a, b);
    if Place(t, a) < Place(t, b) {
      assert Before(Preorder(t)[Place(t, a)], Preorder(t)[Place(t, b)]);
    } else if Place(t, b) < Place(t, a) {
      assert Before(Preorder(t)[Place(t, b)], Preorder(t)[Place(t, a)]);
    }
  }

  lemma {:induction false} BeforeAfterPrefix(a: Node, b: Node, k: nat)
    requires k <= |a| && k <= |b| && a[..k] == b[..k]
    ensures Before(a, b) <==> Before(a[k..], b[k..])
    decreases k
  {
    if k > 0 {
      assert a[0] == a[..k][0] == b[..k][0] == b[0];
      assert a[1..][..k - 1] == a[..k][1..] == b[..k][1..] == b[1..][..k - 1];
      BeforeAfterPrefix(a[1..], b[1..], k - 1);
      assert a[1..][k - 1..] == a[k..] && b[1..][k - 1..] == b[k..];
    }
  }

  /** At place `k` the two paths part, and `a` goes to the earlier child. */
  ghost predicate PartsEarlier(a: Node, b: Node, k: nat) {
    k < |a| && k < |b| && a[..k] == b[..k] && a[k] < b[k]
  }

  lemma AncestorTail(a: Node, b: Node)
    requires a != [] && b != [] && a[0] == b[0]
    ensures Ancestor(a, b) <==> Ancestor(a[1..], b[1..])
  {
    if |a| < |b| {
      assert b[..|a|] == [b[0]] + b[1..][..|a| - 1] && a == [a[0]] + a[1..];
      assert b[..|a|][1..] == b[1..][..|a| - 1];
    }
  }

  lemma {:induction false} BeforeParts(a: Node, b: Node) returns (k: nat)
    requires Before(a, b) && !Ancestor(a, b) && a != []
    ensures PartsEarlier(a, b, k)
    decreases |a|
  {
    if a[0] < b[0] {
      k := 0;
    } else {
      AncestorTail(a, b);
      var m := BeforeParts(a[1..], b[1..]);
      k := m + 1;
      assert a[..k] == [a[0]] + a[1..][..m] && b[..k] == [b[0]] + b[1..][..m];
    }
  }

  /** A node comes before another in the document just when it is an ancestor of the other, or when the
      first difference of their paths leads to an earlier child. */
  lemma PlaceMeans(t: Tree, a: Node, b: Node)
    requires Has(t, a) && Has(t, b)
    ensures Place(t, a) < Place(t, b) <==> Ancestor(a, b) || exists k: nat :: PartsEarlier(a, b, k)
  {
    BeforeIsPlace(t, a, b);
    if Ancestor(a, b) {
      BeforeAfterPrefix(a, b, |a|);
    } else if k: nat :| PartsEarlier(a, b, k) {
      BeforeAfterPrefix(a, b, k);
    } else if Before(a, b) && a != [] {
      var k := BeforeParts(a, b);
    }
  }

  /* ---- The comparator ---- */

  lemma SiblingInTree(t: Tree, a: Node, b: Node)
    requires a != [] && b != [] && Init(a) == Init(b) && Last(a) < Last(b) && Has(t, b)
    ensures Next(t, a).Some?
  {
    assert Init(Init(a) + [Last(a) + 1]) == Init(a);
  }

  /** Without `sourceIndex`; a node that is `None` is undefined. */
  method SiblingCheck(t: Tree, a: Option<Node>, b: Option<Node>) returns (order: int)
    requires a.Some? || b.Some?
    requires a.Some? && b.Some? ==>
      Has(t, a.value) && Has(t, b.value) && a.value != [] && b.value != [] && a != b && Init(a.value) == Init(b.value)
    ensures order == if b.None? || (a.Some? && Last(a.value) > Last(b.value)) then 1 else -1
  {
    if a.Some? && b.Some? {
      var cur := a.value;
      var children := Find(t, Init(cur)).value.children;
      assert a.value == Init(cur) + [Last(a.value)] && b.value == Init(cur) + [Last(b.value)];
      while Next(t, cur).Some?
        invariant cur != [] && Init(cur) == Init(a.value) && Has(t, cur)
        invariant Last(a.value) <= Last(cur) && (Last(a.value) < Last(b.value) ==> Last(cur) < Last(b.value))
        decreases |children| - Last(cur)
      {
        cur := Next(t, cur).value;
        if cur == b.value {
          return -1;
        }
        assert cur == Init(cur) + [Last(cur)];
      }
      if Last(a.value) < Last(b.value) {
        SiblingInTree(t, cur, b.value);
      }
    }
    order := if a.Some? then 1 else -1;
  }

  /** The ancestors of a node from the root down, and the node itself. */
  method Ancestry(n: Node) returns (path: seq<Node>)
    ensures |path| == |n| + 1 && forall k :: 0 <= k <= |n| ==> path[k] == n[..k]
  {
    var cur := n;
    path := [n];
    while Parent(cur).Some?
      invariant |cur| <= |n| && cur == n[..|cur|]
      invariant |path| == |n| + 1 - |cur| && forall k :: 0 <= k < |path| ==> path[k] == n[..|cur| + k]
      decreases |cur|
    {
      cur := Parent(cur).value;
      path := [cur] + path;
    }
  }

  /** The root of the tree is `document`. */
  method SortOrder(t: Tree, a: Node, b: Node) returns (order: int)
    requires Has(t, a) && Has(t, b)
    ensures order == 0 <==> a == b
    ensures order < 0 <==> Place(t, a) < Place(t, b)
  {
    BeforeIsPlace(t, a, b);
    if a == b {
      return 0;
    }
    var aup, bup := Parent(a), Parent(b);
    if aup.None? || bup.None? {
      return if a == [] then -1 else 1;
    }
    if aup == bup {
      BeforeAfterPrefix(a, b, |a| - 1);
      order := SiblingCheck(t, Some(a), Some(b));
      assert a == Init(a) + [Last(a)] && b == Init(b) + [Last(b)];
      return;
    }
    order := CompareAncestry(t, a, b);
  }

  lemma FirstDifference(t: Tree, a: Node, b: Node, k: nat)
    requires Has(t, a) && Has(t, b) && a != b
    requires k <= |a| && k <= |b| && a[..k] == b[..k]
    requires k < |a| && k < |b| ==> a[..k + 1] != b[..k + 1]
    ensures Before(a, b) <==> k == |a| || (k < |b| && a[k] < b[k])
    ensures k < |a| ==> Has(t, a[..k + 1]) && Init(a[..k + 1]) == a[..k]
    ensures k < |b| ==> Has(t, b[..k + 1]) && Init(b[..k + 1]) == b[..k]
    ensures k < |a| && k < |b| ==> a[k] != b[k]
  {
    BeforeAfterPrefix(a, b, k);
    PrefixInTree(t, a, k);
    PrefixInTree(t, b, k);
    if k < |a| && k < |b| {
      assert a[..k + 1] == a[..k] + [a[k]] && b[..k + 1] == b[..k] + [b[k]];
    }
  }

  lemma PrefixInTree(t: Tree, n: Node, k: nat)
    requires Has(t, n) && k <= |n|
    ensures k < |n| ==> Has(t, n[..k + 1]) && Init(n[..k + 1]) == n[..k]
  {
    if k + 1 < |n| {
      AncestorInTree(t, n[..k + 1], n);
    } else if k + 1 == |n| {
      assert n[..k + 1] == n;
    }
  }

  /** Walks down the two lists of ancestors to the first place where they differ. */
  method CompareAncestry(t: Tree, a: Node, b: Node) returns (order: int)
    requires Has(t, a) && Has(t, b) && a != b
    ensures order == if Before(a, b) then -1 else 1
  {
    var ap := Ancestry(a);
    var bp := Ancestry(b);
    var i := 0;
    while i < |ap| && i < |bp| && ap[i] == bp[i]
      invariant 0 <= i <= |ap| && i <= |bp|
      invariant i > 0 ==> a[..i - 1] == b[..i - 1]
    {
      i := i + 1;
    }
    assert a[..|a|] == a && b[..|b|] == b;
    assert i > 0;
    FirstDifference(t, a, b, i - 1);
    order := SiblingCheck(t, if i < |ap| then Some(ap[i]) else None, if i < |bp| then Some(bp[i]) else None);
  }

  /* ---- Removing duplicates ---- */

  ghost predicate InOrder(t: Tree, nodes: seq<Node>) {
    (forall i :: 0 <= i < |nodes| ==> Has(t, nodes[i])) &&
    forall i, j :: 0 <= i < j < |nodes| ==> Place(t, nodes[i]) <= Place(t, nodes[j])
  }

  ghost predicate StrictlyInOrder(t: Tree, nodes: seq<Node>) {
    (forall i :: 0 <= i < |nodes| ==> Has(t, nodes[i])) &&
    forall i, j :: 0 <= i < j < |nodes| ==> Place(t, nodes[i]) < Place(t, nodes[j])
  }

  ghost predicate RepeatAt(nodes: seq<Node>, k: nat) {
    0 < k < |nodes| && nodes[k] == nodes[k - 1]
  }

  ghost predicate Increasing(ks: seq<nat>) {
    forall p, q :: 0 <= p < q < |ks| ==> ks[p] < ks[q]
  }

  /** `duplicates` are, in increasing order, the places that repeat the node before. */
  ghost predicate Repeats(nodes: seq<Node>, duplicates: seq<nat>) {
    && Increasing(duplicates)
    && (forall p :: 0 <= p < |duplicates| ==> RepeatAt(nodes, duplicates[p]))
    && (forall k: nat :: RepeatAt(nodes, k) ==> k in duplicates)
  }

  /** `sorted` is what `results.sort( sortOrder )` leaves in the array; duplicates are assumed. */
  method UniqueSort(t: Tree, results: NodeList, sorted: seq<Node>)
    requires multiset(sorted) == multiset(results.items) && InOrder(t, sorted)
    modifies results
    ensures StrictlyInOrder(t, results.items)
    ensures SameNodes(results.items, old(results.items))
  {
    assert forall n :: n in sorted <==> n in multiset(sorted);
    assert forall n :: n in results.items <==> n in multiset(results.items);
    results.items := sorted;
    var duplicates := FindRepeats(results.items);
    RemoveAt(t, results, duplicates);
    StrictWhenNoRepeats(t, results.items);
  }

  ghost predicate SameNodes(a: seq<Node>, b: seq<Node>) {
    forall n :: n in a <==> n in b
  }

  /** The loop that splices the collected indices, going down. */
  method RemoveAt(t: Tree, results: NodeList, duplicates: seq<nat>)
    requires Repeats(results.items, duplicates) && InOrder(t, results.items)
    modifies results
    ensures Repeats(results.items, []) && InOrder(t, results.items)
    ensures SameNodes(results.items, old(results.items))
  {
    var j := |duplicates|;
    assert duplicates[..j] == duplicates;
    while j > 0
      invariant 0 <= j <= |duplicates|
      invariant Repeats(results.items, duplicates[..j])
      invariant InOrder(t, results.items)
      invariant SameNodes(results.items, old(results.items))
    {
      j := j - 1;
      ghost var repeats := duplicates[..j + 1];
      SpliceRepeat(t, results.items, repeats);
      assert repeats[..j] == duplicates[..j] && repeats[j] == duplicates[j];
      results.items := Spliced(results.items, duplicates[j]);
    }
    assert duplicates[..0] == [];
  }

  /** The loop that collects the indices to remove, going up. */
  method FindRepeats(items: seq<Node>) returns (duplicates: seq<nat>)
    ensures Repeats(items, duplicates)
  {
    duplicates := [];
    var i: nat := 0;
    while i < |items|
      invariant 0 <= i <= |items|
      invariant Increasing(duplicates)
      invariant forall p :: 0 <= p < |duplicates| ==> duplicates[p] <= i && RepeatAt(items, duplicates[p])
      invariant forall k: nat :: k <= i && RepeatAt(items, k) ==> k in duplicates
    {
      var elem := items[i];
      i := i + 1;
      if i < |items| && elem == items[i] {
        assert RepeatAt(items, i);
        duplicates := duplicates + [i];
      }
    }
  }

  /** `results.splice( k, 1 )` */
  function Spliced(nodes: seq<Node>, k: nat): seq<Node>
    requires k < |nodes|
  {
    nodes[..k] + nodes[k + 1..]
  }

  /** Removing the last repeated node leaves the earlier indices valid. */
  lemma SpliceRepeat(t: Tree, nodes: seq<Node>, duplicates: seq<nat>)
    requires Repeats(nodes, duplicates) && duplicates != [] && InOrder(t, nodes)
    ensures var last := duplicates[|duplicates| - 1];
      0 < last < |nodes| && Repeats(Spliced(nodes, last), duplicates[..|duplicates| - 1])
      && InOrder(t, Spliced(nodes, last)) && SameNodes(Spliced(nodes, last), nodes)
  {
    RepeatsAfterSplice(nodes, duplicates);
    var last := duplicates[|duplicates| - 1];
    var less := nodes[..last] + nodes[last + 1..];
    assert RepeatAt(nodes, last);
    assert less[last - 1] == nodes[last];
    assert nodes == nodes[..last] + [nodes[last]] + nodes[last + 1..];
  }

  lemma RepeatsAfterSplice(nodes: seq<Node>, duplicates: seq<nat>)
    requires Repeats(nodes, duplicates) && duplicates != []
    ensures var last := duplicates[|duplicates| - 1];
      0 < last < |nodes| && Repeats(Spliced(nodes, last), duplicates[..|duplicates| - 1])
  {
    var j := |duplicates| - 1;
    var last := duplicates[j];
    assert RepeatAt(nodes, last);
    var less := nodes[..last] + nodes[last + 1..];
    forall p | 0 <= p < j ensures RepeatAt(less, duplicates[p]) {
      assert RepeatAt(nodes, duplicates[p]) && duplicates[p] < last;
    }
    forall k: nat | RepeatAt(less, k) ensures k in duplicates[..j] {
      if k < last {
        assert RepeatAt(nodes, k);
        var p :| 0 <= p < |duplicates| && duplicates[p] == k;
        assert duplicates[..j][p] == k;
      } else {
        assert RepeatAt(nodes, k + 1);
        var p :| 0 <= p < |duplicates| && duplicates[p] == k + 1;
        assert false;
      }
    }
  }

  lemma StrictWhenNoRepeats(t: Tree, nodes: seq<Node>)
    requires InOrder(t, nodes) && Repeats(nodes, [])
    ensures StrictlyInOrder(t, nodes)
  {
    forall i, j: nat | 0 <= i < j < |nodes| ensures Place(t, nodes[i]) < Place(t, nodes[j]) {
      assert !RepeatAt(nodes, j);
      BeforeIsPlace(t, nodes[j - 1], nodes[j]);
      assert Place(t, nodes[j - 1]) < Place(t, nodes[j]);
      assert i < j - 1 ==> Place(t, nodes[i]) <= Place(t, nodes[j - 1]);
    }
  }
}
