/** `ClassUtil.TypeInfo`: the superclasses and interfaces of a type, arrays included, built
    recursively and remembered in a table. */
module TypeInfo {
  import opened Sequences
  import opened Wrappers

  datatype Primitive = Int | Long | Short | Byte | Float | Double | Boolean | Char | Void

  /** What an array is an array of, or the type itself; classes and interfaces are numbered. */
  datatype Base = Primitive(p: Primitive) | Named(n: nat)

  /** A Java type: `dim` pairs of brackets behind the base. */
  datatype Class = Class(base: Base, dim: nat)

  const OBJECT: nat := 0

  /** The classes of a program. `rank` shows that no class is its own ancestor. */
  datatype Hierarchy = Hierarchy(
    superOf: nat -> Option<nat>,
    interfacesOf: nat -> seq<nat>,
    isInterface: nat -> bool,
    wrapper: Primitive -> nat,
    rank: nat -> nat)

  /* The rules of the Java language. */

  ghost predicate SupersAreClasses(h: Hierarchy) {
    forall n :: match h.superOf(n)
      case Some(s) => n != OBJECT && !h.isInterface(n) && !h.isInterface(s) && h.rank(s) < h.rank(n)
      case None => n == OBJECT || h.isInterface(n)
  }

  ghost predicate InterfacesAreInterfaces(h: Hierarchy) {
    forall n, i :: 0 <= i < |h.interfacesOf(n)| ==>
      h.isInterface(h.interfacesOf(n)[i]) && h.rank(h.interfacesOf(n)[i]) < h.rank(n)
  }

  ghost predicate ObjectIsFirst(h: Hierarchy) {
    && !h.isInterface(OBJECT) && h.interfacesOf(OBJECT) == []
    && forall n :: n != OBJECT ==> h.rank(OBJECT) < h.rank(n)
  }

  ghost predicate WellFormed(h: Hierarchy) {
    SupersAreClasses(h) && InterfacesAreInterfaces(h) && ObjectIsFirst(h) && forall p :: !h.isInterface(h.wrapper(p))
  }

  /** There are no arrays of `void`. */
  predicate IsType(t: Class) {
    t.dim > 0 ==> t.base != Base.Primitive(Void)
  }

  /** `getNonPrimitiveType`, which leaves `void` without a class. */
  function Boxed(h: Hierarchy, b: Base): Option<nat> {
    match b
    case Named(n) => Some(n)
    case Primitive(p) => if p.Void? then None else Some(h.wrapper(p))
  }

  function Rank(h: Hierarchy, b: Base): nat {
    match Boxed(h, b)
    case Some(n) => h.rank(n)
    case None => 0
  }

  /* ---- What the constructor computes ---- */

  /** `Object[]`... with one pair of brackets less each time, down to `Object`. */
  function Objects(d: nat): (ts: seq<Class>)
    ensures |ts| == d
  {
    seq(d, i requires 0 <= i < d => Class(Named(OBJECT), d - 1 - i))
  }

  /** The superclass whose array class, or which itself, comes first. */
  function FirstSuper(h: Hierarchy, t: Class): (s: Option<nat>)
    requires WellFormed(h) && IsType(t)
    ensures s.Some? ==> h.rank(s.value) < Rank(h, t.base) && !h.isInterface(s.value)
  {
    match Boxed(h, t.base)
    case None => None
    case Some(c) => if t.dim > 0 && h.superOf(c).None? && c != OBJECT then Some(OBJECT) else h.superOf(c)
  }

  function Superclasses(h: Hierarchy, t: Class): seq<Class>
    requires WellFormed(h) && IsType(t)
    decreases Rank(h, t.base)
  {
    match FirstSuper(h, t)
    case Some(s) => [Class(Named(s), t.dim)] + Superclasses(h, Class(Named(s), t.dim))
    case None => Objects(t.dim)
  }

  function Dedupe(ts: seq<Class>): seq<Class> {
    if ts == [] then [] else
      var rest := Dedupe(ts[..|ts| - 1]);
      if ts[|ts| - 1] in rest then rest else rest + [ts[|ts| - 1]]
  }

  /** Types without brackets, below a rank. */
  ghost predicate Plain(h: Hierarchy, ts: seq<Class>, r: nat) {
    forall i :: 0 <= i < |ts| ==> ts[i].dim == 0 && ts[i].base.Named? && h.rank(ts[i].base.n) < r
  }

  lemma {:induction false} SuperclassesArePlain(h: Hierarchy, t: Class)
    requires WellFormed(h) && t.dim == 0
    ensures Plain(h, Superclasses(h, t), Rank(h, t.base))
    decreases Rank(h, t.base)
  {
    if FirstSuper(h, t).Some? {
      SuperclassesArePlain(h, Class(Named(FirstSuper(h, t).value), 0));
    }
  }

  function Plainly(ns: seq<nat>): (ts: seq<Class>)
    ensures |ts| == |ns|
  {
    seq(|ns|, i requires 0 <= i < |ns| => Class(Named(ns[i]), 0))
  }

  /** The interfaces of all of these, each before its own if `own` says so. */
  function Gather(h: Hierarchy, ts: seq<Class>, own: bool, ghost r: nat): seq<Class>
    requires WellFormed(h) && Plain(h, ts, r)
    decreases 0, 2 * r + 1, |ts|
  {
    if ts == [] then [] else
      var t := ts[|ts| - 1];
      Gather(h, ts[..|ts| - 1], own, r) + (if own then [t] else []) + Interfaces(h, t)
  }

  function Direct(h: Hierarchy, b: Base): seq<Class> {
    match Boxed(h, b)
    case None => []
    case Some(c) => Plainly(h.interfacesOf(c))
  }

  function Interfaces(h: Hierarchy, t: Class): seq<Class>
    requires WellFormed(h) && IsType(t)
    decreases t.dim, 2 * Rank(h, t.base) + 2, 0
  {
    if t.dim == 0 then
      SuperclassesArePlain(h, t);
      Dedupe(Gather(h, Direct(h, t.base), true, Rank(h, t.base)) +
        Gather(h, Superclasses(h, t), false, Rank(h, t.base)))
    else
      AtDimension(Interfaces(h, Class(Named(Boxed(h, t.base).value), 0)), t.dim)
  }

  /** `getArrayClass` of each. */
  function AtDimension(ts: seq<Class>, d: nat): (r: seq<Class>)
    ensures |r| == |ts|
  {
    seq(|ts|, i requires 0 <= i < |ts| => Class(ts[i].base, ts[i].dim + d))
  }

  /* ---- Superclasses ---- */

  /** The proper superclasses of a class, from the nearest on. */
  function Chain(h: Hierarchy, n: nat): seq<nat>
    requires WellFormed(h)
    decreases h.rank(n)
  {
    match h.superOf(n)
    case Some(s) => [s] + Chain(h, s)
    case None => []
  }

  function Arrays(ns: seq<nat>, d: nat): (ts: seq<Class>)
    ensures |ts| == |ns|
  {
    seq(|ns|, i requires 0 <= i < |ns| => Class(Named(ns[i]), d))
  }

  lemma {:induction false} ArraysCons(n: nat, ns: seq<nat>, d: nat)
    ensures Arrays([n] + ns, d) == [Class(Named(n), d)] + Arrays(ns, d)
  {
  }

  /** A class: its proper superclasses in as many dimensions, then the arrays of `Object` with
      fewer and fewer, down to `Object`. */
  lemma {:induction false} SuperclassesOfClass(h: Hierarchy, n: nat, d: nat)
    requires WellFormed(h) && !h.isInterface(n)
    ensures Superclasses(h, Class(Named(n), d)) == Arrays(Chain(h, n), d) + Objects(d)
    decreases h.rank(n)
  {
    match h.superOf(n)
    case Some(s) =>
      SuperclassesOfClass(h, s, d);
      ArraysCons(s, Chain(h, s), d);
      Assoc([Class(Named(s), d)], Arrays(Chain(h, s), d), Objects(d));
    case None =>
      assert Arrays([], d) == [] && [] + Objects(d) == Objects(d);
  }

  /** Every type, primitive and interface types included. */
  lemma {:induction false} SuperclassesAre(h: Hierarchy, t: Class)
    requires WellFormed(h) && IsType(t)
    ensures Superclasses(h, t) ==
      match Boxed(h, t.base)
      case None => []
      case Some(c) =>
        if !h.isInterface(c) then Arrays(Chain(h, c), t.dim) + Objects(t.dim)
        else if t.dim > 0 then [Class(Named(OBJECT), t.dim)] + Objects(t.dim)
        else []
  {
    match Boxed(h, t.base)
    case None =>
    case Some(c) =>
      if !h.isInterface(c) {
        SameAsBoxed(h, t, c);
        SuperclassesOfClass(h, c, t.dim);
      } else if t.dim > 0 {
        assert FirstSuper(h, t) == Some(OBJECT);
        assert FirstSuper(h, Class(Named(OBJECT), t.dim)) == None;
      }
  }

  lemma {:induction false} SameAsBoxed(h: Hierarchy, t: Class, c: nat)
    requires WellFormed(h) && IsType(t) && Boxed(h, t.base) == Some(c)
    ensures Superclasses(h, t) == Superclasses(h, Class(Named(c), t.dim))
  {
    assert FirstSuper(h, t) == FirstSuper(h, Class(Named(c), t.dim));
  }

  /** The superclasses of a class one by one. */
  lemma SuperclassAt(h: Hierarchy, n: nat, d: nat, i: nat)
    requires WellFormed(h) && !h.isInterface(n)
    ensures var ts := Superclasses(h, Class(Named(n), d));
      && |ts| == |Chain(h, n)| + d
      && (i < |Chain(h, n)| ==> ts[i] == Class(Named(Chain(h, n)[i]), d))
      && (i < d ==> ts[|Chain(h, n)| + i] == Class(Named(OBJECT), d - 1 - i))
  {
    SuperclassesOfClass(h, n, d);
  }

  ghost predicate NoRepeats<T>(s: seq<T>) {
    forall i, j :: 0 <= i < j < |s| ==> s[i] != s[j]
  }

  /** Ranks fall along the list until `Object` is reached, and then dimensions do. */
  ghost predicate Falling(h: Hierarchy, ts: seq<Class>, d: nat, r: nat) {
    && (forall i :: 0 <= i < |ts| ==>
          ts[i].base.Named? && (ts[i].dim < d || (ts[i].dim == d && h.rank(ts[i].base.n) < r)))
    && (forall i, j :: 0 <= i < j < |ts| ==>
          ts[j].base.Named? && ts[i].base.Named? &&
            (ts[j].dim < ts[i].dim || (ts[j].dim == ts[i].dim && h.rank(ts[j].base.n) < h.rank(ts[i].base.n))))
  }

  lemma {:induction false} SuperclassesFall(h: Hierarchy, t: Class)
    requires WellFormed(h) && IsType(t)
    ensures Falling(h, Superclasses(h, t), t.dim, Rank(h, t.base))
    decreases Rank(h, t.base)
  {
    match FirstSuper(h, t)
    case Some(s) =>
      SuperclassesFall(h, Class(Named(s), t.dim));
      FallingCons(h, s, Superclasses(h, Class(Named(s), t.dim)), t.dim, Rank(h, t.base));
    case None =>
  }

  lemma {:induction false} FallingCons(h: Hierarchy, s: nat, ts: seq<Class>, d: nat, r: nat)
    requires Falling(h, ts, d, h.rank(s)) && h.rank(s) < r
    ensures Falling(h, [Class(Named(s), d)] + ts, d, r)
  {
    var all := [Class(Named(s), d)] + ts;
    assert forall i :: 0 < i < |all| ==> all[i] == ts[i - 1];
  }

  lemma {:induction false} SuperclassesDoNotRepeat(h: Hierarchy, t: Class)
    requires WellFormed(h) && IsType(t)
    ensures NoRepeats(Superclasses(h, t)) && t !in Superclasses(h, t)
  {
    SuperclassesFall(h, t);
  }

  /* ---- Interfaces ---- */

  predicate Edge(h: Hierarchy, a: nat, b: nat) {
    h.superOf(a) == Some(b) || b in h.interfacesOf(a)
  }

  ghost predicate Path(h: Hierarchy, p: seq<nat>) {
    forall i :: 0 <= i < |p| - 1 ==> Edge(h, p[i], p[i + 1])
  }

  ghost predicate Connects(h: Hierarchy, p: seq<nat>, a: nat, b: nat) {
    |p| >= 2 && p[0] == a && p[|p| - 1] == b && Path(h, p)
  }

  /** One or more `extends` and `implements` lead from `a` to `b`. */
  ghost predicate Reaches(h: Hierarchy, a: nat, b: nat) {
    exists p :: Connects(h, p, a, b)
  }

  lemma {:induction false} ReachesStep(h: Hierarchy, a: nat, b: nat)
    requires Edge(h, a, b)
    ensures Reaches(h, a, b)
  {
    assert Connects(h, [a, b], a, b);
  }

  lemma {:induction false} ReachesOn(h: Hierarchy, a: nat, b: nat, c: nat)
    requires Edge(h, a, b) && Reaches(h, b, c)
    ensures Reaches(h, a, c)
  {
    var p :| Connects(h, p, b, c);
    var q := [a] + p;
    assert forall i :: 0 < i < |q| - 1 ==> q[i] == p[i - 1] && q[i + 1] == p[i];
    assert Connects(h, q, a, c);
  }

  lemma {:induction false} FirstEdge(h: Hierarchy, a: nat, c: nat) returns (b: nat)
    requires Reaches(h, a, c)
    ensures Edge(h, a, b) && (b == c || Reaches(h, b, c))
  {
    var p :| Connects(h, p, a, c);
    b := p[1];
    if |p| > 2 {
      var q := p[1..];
      assert forall i :: 0 <= i < |q| ==> q[i] == p[i + 1];
      assert Connects(h, q, b, c);
    }
  }

  lemma {:induction false} DedupeKeeps(ts: seq<Class>)
    ensures NoRepeats(Dedupe(ts)) && forall t :: t in Dedupe(ts) <==> t in ts
    decreases |ts|
  {
    if ts != [] {
      DedupeKeeps(ts[..|ts| - 1]);
      assert ts == ts[..|ts| - 1] + [ts[|ts| - 1]];
    }
  }

  ghost predicate Contributes(h: Hierarchy, t: Class, own: bool, x: Class)
    requires WellFormed(h) && t.dim == 0
  {
    (own && x == t) || x in Interfaces(h, t)
  }

  lemma {:induction false} GatherNext(h: Hierarchy, ts: seq<Class>, own: bool, r: nat, x: Class)
    requires WellFormed(h) && Plain(h, ts, r) && ts != []
    ensures Plain(h, ts[..|ts| - 1], r)
    ensures x in Gather(h, ts, own, r) <==>
      x in Gather(h, ts[..|ts| - 1], own, r) || Contributes(h, ts[|ts| - 1], own, x)
  {
    var t := ts[|ts| - 1];
    InThree(Gather(h, ts[..|ts| - 1], own, r), if own then [t] else [], Interfaces(h, t), x);
  }

  lemma {:induction false} InThree<T>(a: seq<T>, b: seq<T>, c: seq<T>, x: T)
    ensures x in a + b + c <==> x in a || x in b || x in c
  {
  }

  lemma {:induction false} InGather(h: Hierarchy, ts: seq<Class>, own: bool, r: nat, x: Class)
    requires WellFormed(h) && Plain(h, ts, r)
    ensures x in Gather(h, ts, own, r) <==> exists i :: 0 <= i < |ts| && Contributes(h, ts[i], own, x)
    decreases |ts|
  {
    if ts != [] {
      var n := |ts| - 1;
      GatherNext(h, ts, own, r, x);
      InGather(h, ts[..n], own, r, x);
      forall i | 0 <= i < n ensures Contributes(h, ts[..n][i], own, x) == Contributes(h, ts[i], own, x) {
        assert ts[..n][i] == ts[i];
      }
    }
  }

  /** A plain type's interfaces, as the constructor meets them. */
  lemma {:induction false} InInterfaces(h: Hierarchy, n: nat, x: Class)
    requires WellFormed(h)
    ensures var direct, supers := Plainly(h.interfacesOf(n)), Superclasses(h, Class(Named(n), 0));
      Plain(h, direct, h.rank(n)) && Plain(h, supers, h.rank(n)) &&
      (x in Interfaces(h, Class(Named(n), 0)) <==>
        (exists i :: 0 <= i < |direct| && Contributes(h, direct[i], true, x)) ||
        (exists i :: 0 <= i < |supers| && Contributes(h, supers[i], false, x)))
  {
    var t, r := Class(Named(n), 0), h.rank(n);
    SuperclassesArePlain(h, t);
    var direct, supers := Plainly(h.interfacesOf(n)), Superclasses(h, t);
    InGather(h, direct, true, r, x);
    InGather(h, supers, false, r, x);
    DedupeKeeps(Gather(h, direct, true, r) + Gather(h, supers, false, r));
  }

  predicate IsInterface(h: Hierarchy, x: Class) {
    x.dim == 0 && x.base.Named? && h.isInterface(x.base.n)
  }

  /** A class is connected with all its superclasses. */
  lemma {:induction false} ChainReached(h: Hierarchy, n: nat, i: nat)
    requires WellFormed(h) && i < |Chain(h, n)|
    ensures Reaches(h, n, Chain(h, n)[i]) && h.rank(Chain(h, n)[i]) < h.rank(n)
    decreases h.rank(n)
  {
    var s := h.superOf(n).value;
    ReachesStep(h, n, s);
    if i > 0 {
      ChainReached(h, s, i - 1);
      ReachesOn(h, n, s, Chain(h, n)[i]);
    }
  }

  lemma {:induction false} ReachesJoin(h: Hierarchy, a: nat, b: nat, c: nat)
    requires Reaches(h, a, b) && Reaches(h, b, c)
    ensures Reaches(h, a, c)
  {
    var p :| Connects(h, p, a, b);
    ReachesAlong(h, p, c);
  }

  lemma {:induction false} ReachesAlong(h: Hierarchy, p: seq<nat>, c: nat)
    requires |p| >= 1 && Path(h, p) && Reaches(h, p[|p| - 1], c)
    ensures Reaches(h, p[0], c)
    decreases |p|
  {
    if |p| > 1 {
      var q := p[1..];
      assert forall i :: 0 <= i < |q| ==> q[i] == p[i + 1];
      ReachesAlong(h, q, c);
      ReachesOn(h, p[0], p[1], c);
    }
  }

  /** Plain superclasses are the chain. */
  lemma {:induction false} PlainSuperclasses(h: Hierarchy, n: nat)
    requires WellFormed(h)
    ensures Superclasses(h, Class(Named(n), 0)) == Plainly(Chain(h, n))
  {
    SuperclassesAre(h, Class(Named(n), 0));
    assert Objects(0) == [];
    if h.isInterface(n) {
      assert h.superOf(n).None? && Chain(h, n) == [];
    }
  }

  /** What the list holds is an interface that is reached. */
  lemma {:induction false} ListedIsReached(h: Hierarchy, n: nat, x: Class)
    requires WellFormed(h) && x in Interfaces(h, Class(Named(n), 0))
    ensures IsInterface(h, x) && Reaches(h, n, x.base.n)
    decreases h.rank(n)
  {
    InInterfaces(h, n, x);
    PlainSuperclasses(h, n);
    var direct, supers := Plainly(h.interfacesOf(n)), Plainly(Chain(h, n));
    if i :| 0 <= i < |direct| && Contributes(h, direct[i], true, x) {
      var m := h.interfacesOf(n)[i];
      ReachesStep(h, n, m);
      if x != direct[i] {
        ListedIsReached(h, m, x);
        ReachesJoin(h, n, m, x.base.n);
      }
    } else {
      var i :| 0 <= i < |supers| && Contributes(h, supers[i], false, x);
      ChainReached(h, n, i);
      ListedIsReached(h, Chain(h, n)[i], x);
      ReachesJoin(h, n, Chain(h, n)[i], x.base.n);
    }
  }

  /** Every interface that is reached is in the list. */
  lemma {:induction false} ReachedIsListed(h: Hierarchy, n: nat, m: nat)
    requires WellFormed(h) && Reaches(h, n, m) && h.isInterface(m)
    ensures Class(Named(m), 0) in Interfaces(h, Class(Named(n), 0))
    decreases h.rank(n)
  {
    var x := Class(Named(m), 0);
    InInterfaces(h, n, x);
    PlainSuperclasses(h, n);
    var b := FirstEdge(h, n, m);
    if h.superOf(n) == Some(b) {
      ReachedIsListed(h, b, m);
      assert Chain(h, n)[0] == b;
      assert Contributes(h, Plainly(Chain(h, n))[0], false, x);
    } else {
      var i :| 0 <= i < |h.interfacesOf(n)| && h.interfacesOf(n)[i] == b;
      if b != m {
        ReachedIsListed(h, b, m);
      }
      assert Contributes(h, Plainly(h.interfacesOf(n))[i], true, x);
    }
  }

  /** The interfaces of a class or interface are exactly those that any number of `extends` and
      `implements` lead to, each once. */
  lemma {:induction false} InterfacesAreClosure(h: Hierarchy, n: nat, x: Class)
    requires WellFormed(h)
    ensures x in Interfaces(h, Class(Named(n), 0)) <==> IsInterface(h, x) && Reaches(h, n, x.base.n)
    ensures NoRepeats(Interfaces(h, Class(Named(n), 0)))
  {
    var t := Class(Named(n), 0);
    SuperclassesArePlain(h, t);
    DedupeKeeps(Gather(h, Direct(h, t.base), true, h.rank(n)) + Gather(h, Superclasses(h, t), false, h.rank(n)));
    if x in Interfaces(h, t) {
      ListedIsReached(h, n, x);
    } else if IsInterface(h, x) && Reaches(h, n, x.base.n) {
      ReachedIsListed(h, n, x.base.n);
    }
  }

  /** An array has the interfaces of its boxed base in its own dimension, each once; a primitive
      type has those of its wrapper. */
  lemma {:induction false} InterfacesOfAny(h: Hierarchy, t: Class, x: Class)
    requires WellFormed(h) && IsType(t)
    ensures x in Interfaces(h, t) <==>
      Boxed(h, t.base).Some? && x.dim == t.dim && x.base.Named? && h.isInterface(x.base.n) &&
        Reaches(h, Boxed(h, t.base).value, x.base.n)
    ensures NoRepeats(Interfaces(h, t))
  {
    match Boxed(h, t.base)
    case None =>
      assert Interfaces(h, t) == [];
    case Some(c) =>
      var plain := Class(Named(c), 0);
      InterfacesAreClosure(h, c, Class(x.base, 0));
      InterfacesInDimension(h, t, c, x);
  }

  lemma {:induction false} InterfacesInDimension(h: Hierarchy, t: Class, c: nat, x: Class)
    requires WellFormed(h) && IsType(t) && Boxed(h, t.base) == Some(c) && NoRepeats(Interfaces(h, Class(Named(c), 0)))
    ensures x in Interfaces(h, t) <==> x.dim == t.dim && Class(x.base, 0) in Interfaces(h, Class(Named(c), 0))
    ensures NoRepeats(Interfaces(h, t))
  {
    var plain := Interfaces(h, Class(Named(c), 0));
    forall y | y in plain ensures y.dim == 0 && y.base.Named? {
      ListedIsReached(h, c, y);
    }
    if t.dim == 0 {
      SameAsBoxed(h, t, c);
      assert Interfaces(h, t) == plain;
    } else {
      InDimension(plain, t.dim, x);
    }
  }

  lemma {:induction false} InDimension(ts: seq<Class>, d: nat, x: Class)
    requires NoRepeats(ts) && forall y :: y in ts ==> y.dim == 0
    ensures x in AtDimension(ts, d) <==> x.dim == d && Class(x.base, 0) in ts
    ensures NoRepeats(AtDimension(ts, d))
  {
    var r := AtDimension(ts, d);
    assert forall i :: 0 <= i < |ts| ==> ts[i] in ts && r[i] == Class(ts[i].base, d);
    if x.dim == d && Class(x.base, 0) in ts {
      var i :| 0 <= i < |ts| && ts[i] == Class(x.base, 0);
      assert r[i] == x;
    }
    forall i, j | 0 <= i < j < |r| ensures r[i] != r[j] {
      assert ts[i] in ts && ts[j] in ts && ts[i] != ts[j];
    }
  }

  /* ---- The table ---- */

  datatype Info = Info(component: Option<Class>, dimension: nat, superclasses: seq<Class>, interfaces: seq<Class>)

  function InfoOf(h: Hierarchy, t: Class): Info
    requires WellFormed(h) && IsType(t)
  {
    Info(if t.dim > 0 then Some(Class(t.base, 0)) else None, t.dim, Superclasses(h, t), Interfaces(h, t))
  }

  lemma {:induction false} GatherGrows(h: Hierarchy, ts: seq<Class>, own: bool, r: nat, i: nat)
    requires WellFormed(h) && Plain(h, ts, r) && i < |ts|
    ensures Gather(h, ts[..i + 1], own, r) ==
      Gather(h, ts[..i], own, r) + (if own then [ts[i]] else []) + Interfaces(h, ts[i])
  {
    assert ts[..i + 1][..i] == ts[..i];
  }

  /** The chain of superclasses goes from each class to its own superclass, and on until there is none. */
  lemma {:induction false} ChainMeans(h: Hierarchy, n: nat, i: nat)
    requires WellFormed(h) && i <= |Chain(h, n)|
    ensures h.superOf(if i == 0 then n else Chain(h, n)[i - 1]) ==
      if i < |Chain(h, n)| then Some(Chain(h, n)[i]) else None
    decreases h.rank(n)
  {
    if h.superOf(n).Some? && i > 0 {
      ChainMeans(h, h.superOf(n).value, i - 1);
    }
  }

  /** A primitive type, and an array of one, has what its own wrapper has; `void` has nothing. */
  lemma PrimitiveMeans(h: Hierarchy, p: Primitive, d: nat, x: Class)
    requires WellFormed(h) && IsType(Class(Primitive(p), d))
    ensures var info := InfoOf(h, Class(Primitive(p), d));
      if p == Void then info.superclasses == [] && info.interfaces == []
      else
        && info.superclasses == Arrays(Chain(h, h.wrapper(p)), d) + Objects(d)
        && (x in info.interfaces <==>
             x.dim == d && x.base.Named? && h.isInterface(x.base.n) && Reaches(h, h.wrapper(p), x.base.n))
  {
    var t := Class(Primitive(p), d);
    SuperclassesAre(h, t);
    if p == Void {
      assert InfoOf(h, t).interfaces == [] by { VoidHasNone(h); }
    } else {
      InterfacesOfAny(h, t, x);
    }
  }

  lemma VoidHasNone(h: Hierarchy)
    requires WellFormed(h)
    ensures Interfaces(h, Class(Primitive(Void), 0)) == []
  {
  }

  class ClassUtil {
    const h: Hierarchy
    var typeMap: map<Class, Info>

    /** Every entry is what a fresh computation would give. */
    ghost predicate Valid()
      reads this
    {
      WellFormed(h) && forall t :: t in typeMap ==> IsType(t) && typeMap[t] == InfoOf(h, t)
    }

    constructor (h: Hierarchy)
      requires WellFormed(h)
      ensures Valid() && this.h == h && typeMap == map[]
    {
      this.h := h;
      typeMap := map[];
    }

    /** `getTypeInfo`. */
    method GetTypeInfo(t: Class) returns (info: Info)
      requires Valid() && IsType(t)
      modifies this
      ensures Valid() && old(typeMap.Keys) + {t} <= typeMap.Keys && info == InfoOf(h, t)
      ensures info.dimension == t.dim && info.component == if t.dim > 0 then Some(Class(t.base, 0)) else None
      decreases t.dim, Rank(h, t.base), 3
    {
      if t in typeMap {
        return typeMap[t];
      }
      info := NewTypeInfo(t);
      typeMap := typeMap[t := info];
    }

    /** The constructor of `TypeInfo`. */
    method NewTypeInfo(t: Class) returns (info: Info)
      requires Valid() && IsType(t)
      modifies this
      ensures Valid() && old(typeMap.Keys) <= typeMap.Keys && info == InfoOf(h, t)
      decreases t.dim, Rank(h, t.base), 2
    {
      var component, dimension := Strip(t);
      var superclasses := FindSuperclasses(t);
      var interfaces := FindInterfaces(t, superclasses);
      info := Info(component, dimension, superclasses, interfaces);
    }

    method Strip(t: Class) returns (component: Option<Class>, dimension: nat)
      ensures dimension == t.dim && component == if t.dim > 0 then Some(Class(t.base, 0)) else None
    {
      component, dimension := None, 0;
      if t.dim > 0 {
        var rest := t;
        while rest.dim > 0
          invariant rest.base == t.base && rest.dim + dimension == t.dim
        {
          rest := Class(rest.base, rest.dim - 1);
          dimension := dimension + 1;
        }
        component := Some(rest);
      }
    }

    method FindSuperclasses(t: Class) returns (superclasses: seq<Class>)
      requires Valid() && IsType(t)
      modifies this
      ensures Valid() && old(typeMap.Keys) <= typeMap.Keys && superclasses == Superclasses(h, t)
      decreases t.dim, Rank(h, t.base), 1
    {
      superclasses := [];
      var boxed := Boxed(h, t.base);
      var super := if boxed.Some? then h.superOf(boxed.value) else None;
      if t.dim > 0 && super.None? && boxed.value != OBJECT {
        super := Some(OBJECT);
      }
      if super.Some? {
        var superclass := Class(Named(super.value), t.dim);
        var info := GetTypeInfo(superclass);
        superclasses := [superclass] + info.superclasses;
      } else {
        var i := t.dim;
        while i > 0
          invariant 0 <= i <= t.dim && superclasses == Objects(t.dim)[..t.dim - i]
        {
          i := i - 1;
          superclasses := superclasses + [Class(Named(OBJECT), i)];
        }
      }
    }

    method FindInterfaces(t: Class, superclasses: seq<Class>) returns (interfaces: seq<Class>)
      requires Valid() && IsType(t) && superclasses == Superclasses(h, t)
      modifies this
      ensures Valid() && old(typeMap.Keys) <= typeMap.Keys && interfaces == Interfaces(h, t)
      decreases t.dim, Rank(h, t.base), 1
    {
      interfaces := [];
      if t.dim == 0 {
        SuperclassesArePlain(h, t);
        var own := Collect(Direct(h, t.base), true, Rank(h, t.base));
        var inherited := Collect(superclasses, false, Rank(h, t.base));
        interfaces := WithoutRepeats(own + inherited);
      } else {
        var plain := GetTypeInfo(Class(Named(Boxed(h, t.base).value), 0));
        for i := 0 to |plain.interfaces|
          invariant interfaces == AtDimension(plain.interfaces[..i], t.dim)
        {
          interfaces := interfaces + [Class(plain.interfaces[i].base, plain.interfaces[i].dim + t.dim)];
        }
        assert plain.interfaces[..|plain.interfaces|] == plain.interfaces;
      }
    }

    method Collect(ts: seq<Class>, own: bool, ghost r: nat) returns (all: seq<Class>)
      requires Valid() && Plain(h, ts, r)
      modifies this
      ensures Valid() && old(typeMap.Keys) <= typeMap.Keys && all == Gather(h, ts, own, r)
      decreases 0, r, 0
    {
      all := [];
      for i := 0 to |ts|
        invariant Valid() && old(typeMap.Keys) <= typeMap.Keys
        invariant all == Gather(h, ts[..i], own, r)
      {
        GatherGrows(h, ts, own, r, i);
        var info := GetTypeInfo(ts[i]);
        all := all + (if own then [ts[i]] else []) + info.interfaces;
      }
      assert ts[..|ts|] == ts;
    }

    method WithoutRepeats(ts: seq<Class>) returns (once: seq<Class>)
      ensures once == Dedupe(ts)
    {
      once := [];
      for i := 0 to |ts|
        invariant once == Dedupe(ts[..i])
      {
        assert ts[..i + 1][..i] == ts[..i];
        if ts[i] !in once {
          once := once + [ts[i]];
        }
      }
      assert ts[..|ts|] == ts;
    }
  }
}
