/** A finite ordered document tree. A node is named by its position: the child indices on
    the way down from the root. The tree does not change while selectors are matched on it. */
module Dom {

  import opened Wrappers

  /** `nodeType` 1, 9, and every other value. */
  datatype Kind = Element | Document | Other

  datatype Tree = Branch(kind: Kind, children: seq<Tree>)

  type Node = seq<nat>

  /** The two links that combinators follow: `parentNode` and `previousSibling`. */
  datatype Direction = ParentNode | PreviousSibling

  function Init(n: Node): Node
    requires n != []
  {
    n[..|n| - 1]
  }

  function Last(n: Node): nat
    requires n != []
  {
    n[|n| - 1]
  }

  /** The subtree at a position, if the tree has one there. */
  function Find(t: Tree, n: Node): Option<Tree>
  {
    if n == [] then Some(t) else
      match Find(t, Init(n))
      case None => None
      case Some(parent) => if Last(n) < |parent.children| then Some(parent.children[Last(n)]) else None
  }

  predicate Has(t: Tree, n: Node) {
    Find(t, n).Some?
  }

  predicate IsElement(t: Tree, n: Node) {
    Find(t, n).Some? && Find(t, n).value.kind == Element
  }

  function Parent(n: Node): Option<Node> {
    if n == [] then None else Some(Init(n))
  }

  function Previous(n: Node): Option<Node> {
    if n == [] || Last(n) == 0 then None else Some(Init(n) + [Last(n) - 1])
  }

  function Next(t: Tree, n: Node): Option<Node> {
    if n != [] && Has(t, Init(n) + [Last(n) + 1]) then Some(Init(n) + [Last(n) + 1]) else None
  }

  function Follow(dir: Direction, n: Node): Option<Node> {
    if dir == ParentNode then Parent(n) else Previous(n)
  }

  /** How many more links a walk in this direction can follow. */
  function Distance(dir: Direction, n: Node): (d: nat)
    ensures Follow(dir, n).Some? <==> d > 0
  {
    if n == [] then 0 else if dir == ParentNode then |n| else Last(n)
  }

  ghost predicate Ancestor(a: Node, n: Node) {
    |a| < |n| && a == n[..|a|]
  }

  ghost predicate EarlierSibling(a: Node, n: Node) {
    a != [] && n != [] && Init(a) == Init(n) && Last(a) < Last(n)
  }

  /** Only the root may be something other than an element and still have children. */
  ghost predicate WellFormed(t: Tree) {
    forall n {:trigger Find(t, n)} :: n != [] && Has(t, n) && Find(t, n).value.children != [] ==> IsElement(t, n)
  }

  lemma {:induction false} AncestorInTree(t: Tree, a: Node, n: Node)
    requires Has(t, n) && Ancestor(a, n)
    ensures Has(t, a) && Find(t, a).value.children != []
    decreases |n|
  {
    if |a| < |n| - 1 {
      assert Init(n)[..|a|] == n[..|a|];
      AncestorInTree(t, a, Init(n));
    }
  }

  /** What a walk in one direction can reach. */
  ghost predicate Ahead(dir: Direction, a: Node, n: Node) {
    if dir == ParentNode then Ancestor(a, n) else EarlierSibling(a, n)
  }

  lemma AheadStep(dir: Direction, a: Node, n: Node)
    ensures Ahead(dir, a, n) <==>
      Follow(dir, n).Some? && (a == Follow(dir, n).value || Ahead(dir, a, Follow(dir, n).value))
  {
    if n != [] {
      if dir == ParentNode {
        var p := Init(n);
        if |a| < |p| {
          assert p[..|a|] == n[..|a|];
        } else if |a| == |p| {
          assert n[..|a|] == p;
        }
      } else {
        if Last(n) > 0 {
          var p := Init(n) + [Last(n) - 1];
          assert Init(p) == Init(n);
          if a != [] && Init(a) == Init(n) && Last(a) == Last(n) - 1 {
            assert a == Init(a) + [Last(a)] == p;
          }
        }
      }
    }
  }

  /** A walk stays in the tree. */
  lemma FollowInTree(t: Tree, dir: Direction, n: Node)
    requires Has(t, n) && Follow(dir, n).Some?
    ensures Has(t, Follow(dir, n).value)
  {
    if dir == PreviousSibling {
      assert Init(Init(n) + [Last(n) - 1]) == Init(n);
    }
  }

  /** A JavaScript array of nodes that the caller and the matcher share. */
  class NodeList {
    var items: seq<Node>

    constructor ()
      ensures items == []
    {
      items := [];
    }
  }
}
