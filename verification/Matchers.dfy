/** The matchers that Sizzle compiles a selector into, as data, and what each one means
    when nothing is cached. The closures of the original become constructors; `done` is the
    serial number that every combinator is given when it is made. */
module Matchers {
  import opened Dom
  import opened NthChild
  import opened Wrappers

  /** A simple selector: `:nth-child(an+b)`, whose filter keeps a cache of its own, or a pure predicate
      of the document and a node. */
  datatype Filter = Pure(test: (Tree, Node) -> bool) | Nth(a: int, b: int) {
    predicate Holds(t: Tree, n: Node) {
      match this
      case Pure(test) => test(t, n)
      case Nth(a, b) => IsNth(t, n, a, b)
    }
  }

  datatype Relative = Child | Descendant | Adjacent | Sibling {
    function Dir(): Direction {
      if Child? || Descendant? then ParentNode else PreviousSibling
    }

    predicate First() {
      Child? || Adjacent?
    }
  }

  datatype Token = Relation(rel: Relative) | Simple(filter: Filter)

  /** A context is one node or a list of nodes. */
  datatype Context = One(node: Node) | Many(nodes: seq<Node>)

  /** What stays fixed while one set of elements is matched. `outermost` tells whether
      `context` is the outermost context. */
  datatype Setting = Setting(tree: Tree, context: Context, xml: bool, outermost: bool)

  datatype Matcher =
    | Test(filter: Filter)
    | IsContext
    | InContexts
    | All(matchers: seq<Matcher>)
    | Combinator(rel: Relative, base: bool, done: nat, inner: Matcher)
    | Start(leading: Option<Relative>, matchContext: Matcher, matchAnyContext: Matcher)

  /** `elem.nodeType === 1 || checkNonElements` */
  predicate Eligible(s: Setting, rel: Relative, base: bool, n: Node) {
    IsElement(s.tree, n) || (base && rel.Dir() == ParentNode)
  }

  /** The plain meaning of a matcher: every walk is made in full. */
  predicate Accepts(s: Setting, m: Matcher, n: Node)
    decreases m, 0
  {
    match m
    case Test(f) => f.Holds(s.tree, n)
    case IsContext => s.context == One(n)
    case InContexts => s.context.Many? && n in s.context.nodes
    case All(ms) => forall i :: 0 <= i < |ms| ==> Accepts(s, ms[i], n)
    case Combinator(rel, base, _, inner) =>
      if rel.First() then Nearest(s, rel, base, inner, n) else Beyond(s, rel, base, inner, n)
    case Start(leading, one, any) =>
      (leading.None? && (s.xml || !s.outermost)) ||
      if s.context.One? then Accepts(s, one, n) else Accepts(s, any, n)
  }

  /** The first eligible node on the walk from `n` is accepted. */
  predicate Nearest(s: Setting, rel: Relative, base: bool, inner: Matcher, n: Node)
    decreases inner, 1 + Distance(rel.Dir(), n)
  {
    match Follow(rel.Dir(), n)
    case None => false
    case Some(p) => if Eligible(s, rel, base, p) then Accepts(s, inner, p) else Nearest(s, rel, base, inner, p)
  }

  /** Some eligible node on the walk from `n` is accepted. */
  predicate Beyond(s: Setting, rel: Relative, base: bool, inner: Matcher, n: Node)
    decreases inner, 1 + Distance(rel.Dir(), n)
  {
    match Follow(rel.Dir(), n)
    case None => false
    case Some(p) => (Eligible(s, rel, base, p) && Accepts(s, inner, p)) || Beyond(s, rel, base, inner, p)
  }

  /** Some eligible node on the walk is accepted, counting `n` itself. */
  predicate From(s: Setting, rel: Relative, base: bool, inner: Matcher, n: Node) {
    (Eligible(s, rel, base, n) && Accepts(s, inner, n)) || Beyond(s, rel, base, inner, n)
  }

  /** For each combinator number and node: does the node, or one beyond it, match? */
  type Verdicts = (nat, Node) -> bool

  /** `verdicts` tells the truth about every combinator in `m`, all their numbers are below
      `bound`, and a combinator's number is above those of the combinators inside it. */
  ghost predicate Numbered(s: Setting, m: Matcher, bound: nat, verdicts: Verdicts) {
    match m
    case All(ms) => forall i :: 0 <= i < |ms| ==> Numbered(s, ms[i], bound, verdicts)
    case Combinator(rel, base, done, inner) =>
      done < bound && Numbered(s, inner, done, verdicts) &&
      forall p :: verdicts(done, p) == From(s, rel, base, inner, p)
    case Start(_, one, any) => Numbered(s, one, bound, verdicts) && Numbered(s, any, bound, verdicts)
    case _ => true
  }

  /** Every combinator in `m` is the one in the registry under its number, with the same order
      of numbers. This does not depend on a document. */
  ghost predicate Registered(m: Matcher, bound: nat, registry: map<nat, Matcher>) {
    match m
    case All(ms) => forall i :: 0 <= i < |ms| ==> Registered(ms[i], bound, registry)
    case Combinator(_, _, done, inner) =>
      done < bound && done in registry && registry[done] == m && Registered(inner, done, registry)
    case Start(_, one, any) => Registered(one, bound, registry) && Registered(any, bound, registry)
    case _ => true
  }

  ghost function VerdictsOf(s: Setting, registry: map<nat, Matcher>): Verdicts {
    (d, p) => d in registry && registry[d].Combinator? &&
      From(s, registry[d].rel, registry[d].base, registry[d].inner, p)
  }

  lemma {:induction false} RegisteredIsNumbered(s: Setting, m: Matcher, bound: nat, registry: map<nat, Matcher>)
    requires Registered(m, bound, registry)
    ensures Numbered(s, m, bound, VerdictsOf(s, registry))
    decreases m
  {
    match m
    case All(ms) =>
      forall i | 0 <= i < |ms| ensures Numbered(s, ms[i], bound, VerdictsOf(s, registry)) {
        RegisteredIsNumbered(s, ms[i], bound, registry);
      }
    case Combinator(_, _, done, inner) => RegisteredIsNumbered(s, inner, done, registry);
    case Start(_, one, any) =>
      RegisteredIsNumbered(s, one, bound, registry);
      RegisteredIsNumbered(s, any, bound, registry);
    case _ =>
  }

  /** Making more combinators leaves the registered ones as they are. */
  lemma {:induction false} RegisteredLater(m: Matcher, bound: nat, registry: map<nat, Matcher>, bound': nat,
    registry': map<nat, Matcher>)
    requires Registered(m, bound, registry) && bound <= bound'
    requires forall d :: d in registry ==> d in registry' && registry'[d] == registry[d]
    ensures Registered(m, bound', registry')
    decreases m
  {
    match m
    case All(ms) =>
      forall i | 0 <= i < |ms| ensures Registered(ms[i], bound', registry') {
        RegisteredLater(ms[i], bound, registry, bound', registry');
      }
    case Combinator(_, _, done, inner) => RegisteredLater(inner, done, registry, done, registry');
    case Start(_, one, any) =>
      RegisteredLater(one, bound, registry, bound', registry');
      RegisteredLater(any, bound, registry, bound', registry');
    case _ =>
  }
}
