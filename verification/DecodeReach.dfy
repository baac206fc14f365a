/** The decode-target fixpoint of `lintreach`: which struct types a decoder outside the module may
    populate. Call arguments and generic type arguments carry the status from a callee's parameter
    back to its caller's argument, and struct fields carry it from a type to the types it contains.

    The specification is reachability by a path in one joint graph. The code works in two stages
    over Go maps, in whatever order the edges were recorded and the maps iterate. */
module DecodeReach {

  /** What a call argument refers to. The code's `switch` gives `typeKey` precedence. */
  datatype ArgRef = ArgRef(typeKey: string, fnKey: string, index: nat, typeParm: bool)

  datatype Edge = Edge(callee: string, index: nat, ref: ArgRef)

  datatype Node =
    | Type(key: string)
    | Param(fn: string, index: nat)
    | TypeParam(fn: string, index: nat)

  datatype Graph = Graph(
    seeds: seq<ArgRef>,
    argEdges: seq<Edge>,
    typeEdges: seq<Edge>,
    fieldTyp: map<string, seq<string>>)

  function NodeOf(r: ArgRef): Node {
    if r.typeKey != "" then Type(r.typeKey)
    else if r.typeParm then TypeParam(r.fnKey, r.index)
    else Param(r.fnKey, r.index)
  }

  // ---------------------------------------------------------------- map keys

  function Itoa(n: nat): string {
    if n < 10 then [Digit(n)] else Itoa(n / 10) + [Digit(n % 10)]
  }

  function Digit(n: nat): char
    requires n < 10
  {
    '0' + n as char
  }

  /** The key `fnKey#i` under which the code files a parameter in `sinks` and `tsinks`. */
  function SlotKey(fn: string, i: nat): string {
    fn + "#" + Itoa(i)
  }

  lemma {:induction false} ItoaInjective(m: nat, n: nat)
    ensures Itoa(m) == Itoa(n) ==> m == n
  {
    ItoaNonempty(m / 10);
    ItoaNonempty(n / 10);
    if m >= 10 && n >= 10 {
      LastEqual(Itoa(m / 10), Digit(m % 10), Itoa(n / 10), Digit(n % 10));
      ItoaInjective(m / 10, n / 10);
    }
  }

  lemma LastEqual(s: string, c: char, t: string, d: char)
    ensures s + [c] == t + [d] ==> s == t && c == d
  {
    assert s + [c] == t + [d] ==> |s| == |t|;
    assert (s + [c])[..|s|] == s && (t + [d])[..|t|] == t;
    assert (s + [c])[|s|] == c && (t + [d])[|t|] == d;
  }

  lemma ItoaNonempty(n: nat)
    ensures |Itoa(n)| >= 1
  {
  }

  lemma {:induction false} ItoaHasNoHash(n: nat, k: nat)
    requires k < |Itoa(n)|
    ensures Itoa(n)[k] != '#'
  {
    if n >= 10 && k < |Itoa(n)| - 1 {
      ItoaHasNoHash(n / 10, k);
    }
  }

  /** Function keys may contain `#`; the index never does, so the last `#` separates the two and
      two parameters never share a map key. */
  lemma SlotKeyInjective(f: string, i: nat, g: string, j: nat)
    ensures SlotKey(f, i) == SlotKey(g, j) ==> f == g && i == j
  {
    var a, b := SlotKey(f, i), SlotKey(g, j);
    if |f| < |g| < |a| {
      ItoaHasNoHash(i, |g| - |f| - 1);
      assert b[|g|] == '#' && a[|g|] == Itoa(i)[|g| - |f| - 1];
    } else if |g| < |f| < |b| {
      ItoaHasNoHash(j, |f| - |g| - 1);
      assert a[|f|] == '#' && b[|f|] == Itoa(j)[|f| - |g| - 1];
    } else if |f| == |g| {
      assert f == a[..|f|] && g == b[..|g|];
      assert Itoa(i) == a[|f| + 1..] && Itoa(j) == b[|g| + 1..];
      ItoaInjective(i, j);
    }
  }

  // ---------------------------------------------------------------- the specification

  /** What a reference names, on its fields: a type if it has a type key, whatever else is set; otherwise
      the type parameter or the parameter of its function at its index. */
  predicate Names(r: ArgRef, n: Node) {
    match n
    case Type(k) => r.typeKey == k && k != ""
    case Param(f, i) => r.typeKey == "" && !r.typeParm && r.fnKey == f && r.index == i
    case TypeParam(f, i) => r.typeKey == "" && r.typeParm && r.fnKey == f && r.index == i
  }

  lemma NamesItsNode(r: ArgRef, n: Node)
    ensures Names(r, n) <==> n == NodeOf(r)
  {
  }

  /** One step of the joint graph: an argument edge, a type-argument edge or a struct field. */
  ghost predicate Flows(g: Graph, a: Node, b: Node) {
    match a
    case Param(f, i) => exists e :: e in g.argEdges && e.callee == f && e.index == i && Names(e.ref, b)
    case TypeParam(f, i) => exists e :: e in g.typeEdges && e.callee == f && e.index == i && Names(e.ref, b)
    case Type(k) => k in g.fieldTyp && exists r :: r in g.fieldTyp[k] && b == Type(r)
  }

  ghost predicate Root(g: Graph, marked: set<string>, n: Node) {
    (exists s :: s in g.seeds && Names(s, n)) || (n.Type? && n.key in marked)
  }

  ghost predicate IsPath(g: Graph, marked: set<string>, p: seq<Node>) {
    && |p| > 0
    && Root(g, marked, p[0])
    && forall i :: 0 <= i < |p| - 1 ==> Flows(g, p[i], p[i + 1])
  }

  /** `n` is reached from a seed, or from a type already marked, by a path of the joint graph. */
  ghost predicate Reaches(g: Graph, marked: set<string>, n: Node) {
    exists p :: IsPath(g, marked, p) && p[|p| - 1] == n
  }

  lemma ReachesRoot(g: Graph, marked: set<string>, n: Node)
    requires Root(g, marked, n)
    ensures Reaches(g, marked, n)
  {
    assert IsPath(g, marked, [n]);
  }

  lemma ReachesStep(g: Graph, marked: set<string>, a: Node, b: Node)
    requires Reaches(g, marked, a) && Flows(g, a, b)
    ensures Reaches(g, marked, b)
  {
    var p :| IsPath(g, marked, p) && p[|p| - 1] == a;
    var q := p + [b];
    assert IsPath(g, marked, q) && q[|q| - 1] == b;
  }

  lemma SeedIsRoot(g: Graph, marked: set<string>, r: ArgRef)
    requires r in g.seeds
    ensures Reaches(g, marked, NodeOf(r))
  {
    NamesItsNode(r, NodeOf(r));
    ReachesRoot(g, marked, NodeOf(r));
  }

  /** The three maps the code marks. */
  datatype Marks = Marks(decode: set<string>, sinks: set<string>, tsinks: set<string>) {
    predicate Has(n: Node) {
      match n
      case Type(k) => k in decode
      case Param(f, i) => SlotKey(f, i) in sinks
      case TypeParam(f, i) => SlotKey(f, i) in tsinks
    }

    predicate Within(u: Marks) {
      decode <= u.decode && sinks <= u.sinks && tsinks <= u.tsinks
    }

    function With(n: Node): Marks {
      match n
      case Type(k) => this.(decode := decode + {k})
      case Param(f, i) => this.(sinks := sinks + {SlotKey(f, i)})
      case TypeParam(f, i) => this.(tsinks := tsinks + {SlotKey(f, i)})
    }
  }

  lemma WithHas(m: Marks, n: Node, x: Node)
    ensures m.With(n).Has(x) <==> m.Has(x) || x == n
  {
    if !n.Type? && !x.Type? {
      SlotKeyInjective(n.fn, n.index, x.fn, x.index);
    }
  }

  ghost predicate Sound(g: Graph, marked: set<string>, m: Marks) {
    forall n :: m.Has(n) ==> Reaches(g, marked, n)
  }

  /** The parameter, or type parameter, of the callee that `e` passes its reference to. */
  function SourceOf(e: Edge, typeParms: bool): Node {
    if typeParms then TypeParam(e.callee, e.index) else Param(e.callee, e.index)
  }

  ghost predicate Closed(edges: seq<Edge>, typeParms: bool, m: Marks) {
    forall e :: e in edges && m.Has(SourceOf(e, typeParms)) ==> m.Has(NodeOf(e.ref))
  }

  ghost predicate FieldsMarked(g: Graph, k: string, m: Marks) {
    k in g.fieldTyp ==> forall r :: r in g.fieldTyp[k] ==> m.Has(Type(r))
  }

  /** Marks that hold every root and are closed under the joint graph. */
  ghost predicate IsFixpoint(g: Graph, marked: set<string>, m: Marks) {
    && (forall n :: Root(g, marked, n) ==> m.Has(n))
    && Closed(g.argEdges, false, m)
    && Closed(g.typeEdges, true, m)
    && forall k :: m.Has(Type(k)) ==> FieldsMarked(g, k, m)
  }

  /** Every fixpoint of the joint graph contains everything a path reaches, so reachability is the
      least fixpoint. */
  lemma ReachabilityIsLeast(g: Graph, marked: set<string>, m: Marks, n: Node)
    requires IsFixpoint(g, marked, m) && Reaches(g, marked, n)
    ensures m.Has(n)
  {
    var p :| IsPath(g, marked, p) && p[|p| - 1] == n;
    PathMarked(g, marked, m, p, |p| - 1);
  }

  lemma {:induction false} PathMarked(g: Graph, marked: set<string>, m: Marks, p: seq<Node>, i: nat)
    requires IsFixpoint(g, marked, m) && IsPath(g, marked, p) && i < |p|
    ensures m.Has(p[i])
  {
    if i == 0 {
      assert Root(g, marked, p[0]);
    } else {
      PathMarked(g, marked, m, p, i - 1);
      StepMarked(g, marked, m, p[i - 1], p[i - 1 + 1]);
    }
  }

  lemma StepMarked(g: Graph, marked: set<string>, m: Marks, a: Node, b: Node)
    requires IsFixpoint(g, marked, m) && m.Has(a) && Flows(g, a, b)
    ensures m.Has(b)
  {
    match a
    case Type(k) =>
      assert FieldsMarked(g, k, m);
    case Param(f, i) =>
      var e :| e in g.argEdges && e.callee == f && e.index == i && Names(e.ref, b);
      assert SourceOf(e, false) == a;
    case TypeParam(f, i) =>
      var e :| e in g.typeEdges && e.callee == f && e.index == i && Names(e.ref, b);
      assert SourceOf(e, true) == a;
  }

  /** Reachability depends on which edges were recorded, not on the order or the number of times. */
  lemma EdgeOrderIsIrrelevant(g: Graph, h: Graph, marked: set<string>, n: Node)
    requires forall s :: s in g.seeds <==> s in h.seeds
    requires forall e :: e in g.argEdges <==> e in h.argEdges
    requires forall e :: e in g.typeEdges <==> e in h.typeEdges
    requires g.fieldTyp.Keys == h.fieldTyp.Keys
    requires forall k :: k in g.fieldTyp ==> forall r :: r in g.fieldTyp[k] <==> r in h.fieldTyp[k]
    ensures Reaches(g, marked, n) ==> Reaches(h, marked, n)
  {
    if Reaches(g, marked, n) {
      var p :| IsPath(g, marked, p) && p[|p| - 1] == n;
      forall i | 0 <= i < |p| - 1 ensures Flows(h, p[i], p[i + 1]) {
        assert Flows(g, p[i], p[i + 1]);
      }
      assert IsPath(h, marked, p);
    }
  }

  /** Everything the fixpoint can ever mark: finite, which is why it terminates. */
  ghost function Universe(g: Graph, marked: set<string>): Marks {
    var refs := (set s | s in g.seeds) + (set e | e in g.argEdges :: e.ref) + (set e | e in g.typeEdges :: e.ref);
    Marks(
      (set r | r in refs :: r.typeKey) + (set k, r | k in g.fieldTyp && r in g.fieldTyp[k] :: r) + marked,
      set r | r in refs :: SlotKey(r.fnKey, r.index),
      set r | r in refs :: SlotKey(r.fnKey, r.index))
  }

  class Analyzer {
    const g: Graph
    var decode: set<string>
    var decodeCount: nat
    // `sinks` and `tsinks` are locals of resolveDecodeTargets captured by its `apply` closure.
    var sinks: set<string>
    var tsinks: set<string>

    function M(): Marks
      reads this
    {
      Marks(decode, sinks, tsinks)
    }

    constructor (g: Graph)
      ensures this.g == g && decode == {} && sinks == {} && tsinks == {}
    {
      this.g := g;
      decode, sinks, tsinks, decodeCount := {}, {}, {}, 0;
    }

    /** Marks what `r` names and reports whether that was new. */
    method Apply(r: ArgRef) returns (isNew: bool)
      modifies `decode, `sinks, `tsinks
      ensures isNew == !old(M()).Has(NodeOf(r))
      ensures M() == old(M()).With(NodeOf(r))
      ensures !isNew ==> M() == old(M())
    {
      if r.typeKey != "" {
        if r.typeKey in decode {
          assert decode + {r.typeKey} == decode;
          return false;
        }
        decode := decode + {r.typeKey};
      } else if r.typeParm {
        var k := SlotKey(r.fnKey, r.index);
        if k in tsinks {
          assert tsinks + {k} == tsinks;
          return false;
        }
        tsinks := tsinks + {k};
      } else {
        var k := SlotKey(r.fnKey, r.index);
        if k in sinks {
          assert sinks + {k} == sinks;
          return false;
        }
        sinks := sinks + {k};
      }
      return true;
    }

    /** One edge: if the callee's parameter is marked, what the caller passed there is too. */
    method PassEdge(e: Edge, typeParms: bool, ghost marked: set<string>) returns (changed: bool)
      requires e in (if typeParms then g.typeEdges else g.argEdges)
      requires Sound(g, marked, M()) && M().Within(Universe(g, marked))
      modifies `decode, `sinks, `tsinks
      ensures Sound(g, marked, M()) && M().Within(Universe(g, marked))
      ensures old(M()).Within(M())
      ensures changed <==> M() != old(M())
      ensures !changed && old(M()).Has(SourceOf(e, typeParms)) ==> M().Has(NodeOf(e.ref))
    {
      changed := false;
      if SlotKey(e.callee, e.index) in (if typeParms then tsinks else sinks) {
        assert Flows(g, SourceOf(e, typeParms), NodeOf(e.ref));
        ReachesStep(g, marked, SourceOf(e, typeParms), NodeOf(e.ref));
        MarkStaysSound(g, marked, M(), NodeOf(e.ref));
        WithHas(M(), NodeOf(e.ref), NodeOf(e.ref));
        changed := Apply(e.ref);
      }
    }

    /** One pass over `argEdges`, or over `typeEdges` when `typeParms` is set. */
    method PassEdges(edges: seq<Edge>, typeParms: bool, ghost marked: set<string>) returns (changed: bool)
      requires edges == if typeParms then g.typeEdges else g.argEdges
      requires Sound(g, marked, M()) && M().Within(Universe(g, marked))
      modifies `decode, `sinks, `tsinks
      ensures Sound(g, marked, M()) && M().Within(Universe(g, marked))
      ensures old(M()).Within(M())
      ensures changed <==> M() != old(M())
      ensures !changed ==> Closed(edges, typeParms, M())
    {
      changed := false;
      for i := 0 to |edges|
        invariant Sound(g, marked, M()) && M().Within(Universe(g, marked))
        invariant old(M()).Within(M())
        invariant changed <==> M() != old(M())
        invariant !changed ==> Closed(edges[..i], typeParms, M())
      {
        assert edges[..i + 1] == edges[..i] + [edges[i]];
        ghost var before := M();
        var grew := PassEdge(edges[i], typeParms, marked);
        assert before.Within(M());
        changed := changed || grew;
      }
      assert edges[..|edges|] == edges;
    }

    /** One `range` over the `decode` map while inserting into it. Go produces every entry that was
        there at the start exactly once, and an entry added meanwhile once or not at all, in any
        order: `more` and the choice of `k` leave all of that open. */
    method PassFields(ghost marked: set<string>) returns (changed: bool)
      requires Sound(g, marked, M()) && M().Within(Universe(g, marked))
      modifies `decode
      ensures Sound(g, marked, M()) && M().Within(Universe(g, marked))
      ensures old(M()).Within(M())
      ensures changed <==> M() != old(M())
      ensures !changed ==> forall k :: k in decode ==> FieldsMarked(g, k, M())
    {
      changed := false;
      var owed, produced: set<string> := decode, {};
      var more: bool := *;
      while owed != {} || (more && produced != decode)
        invariant Sound(g, marked, M()) && M().Within(Universe(g, marked))
        invariant old(M()).Within(M())
        invariant changed <==> M() != old(M())
        invariant produced <= decode && owed == old(decode) - produced
        invariant !changed ==> forall k :: k in produced ==> FieldsMarked(g, k, M())
        decreases Universe(g, marked).decode - produced
      {
        if owed == {} {
          assert produced < decode;
        }
        var k :| k in decode && k !in produced;
        var grew := PassFieldsOf(k, marked);
        changed := changed || grew;
        produced, owed := produced + {k}, owed - {k};
        more := *;
      }
      assert old(decode) <= produced;
    }

    /** The inner loop of the field closure, for one marked type. */
    method PassFieldsOf(k: string, ghost marked: set<string>) returns (changed: bool)
      requires k in decode
      requires Sound(g, marked, M()) && M().Within(Universe(g, marked))
      modifies `decode
      ensures Sound(g, marked, M()) && M().Within(Universe(g, marked))
      ensures old(M()).Within(M())
      ensures changed <==> M() != old(M())
      ensures FieldsMarked(g, k, M())
    {
      changed := false;
      var fields := if k in g.fieldTyp then g.fieldTyp[k] else [];
      for i := 0 to |fields|
        invariant Sound(g, marked, M()) && M().Within(Universe(g, marked))
        invariant old(M()).Within(M())
        invariant changed <==> M() != old(M())
        invariant forall r :: r in fields[..i] ==> r in decode
      {
        assert fields[..i + 1] == fields[..i] + [fields[i]];
        if fields[i] !in decode {
          assert M().Has(Type(k));
          assert Flows(g, Type(k), Type(fields[i]));
          ReachesStep(g, marked, Type(k), Type(fields[i]));
          MarkStaysSound(g, marked, M(), Type(fields[i]));
          decode := decode + {fields[i]};
          changed := true;
        }
      }
      assert fields[..|fields|] == fields;
    }

    method Seed(ghost marked: set<string>)
      requires decode == marked && sinks == {} && tsinks == {}
      modifies `decode, `sinks, `tsinks
      ensures Sound(g, marked, M()) && M().Within(Universe(g, marked))
      ensures forall n :: Root(g, marked, n) ==> M().Has(n)
    {
      forall k | k in decode ensures Reaches(g, marked, Type(k)) {
        ReachesRoot(g, marked, Type(k));
      }
      for i := 0 to |g.seeds|
        invariant Sound(g, marked, M()) && M().Within(Universe(g, marked))
        invariant marked <= decode
        invariant forall s :: s in g.seeds[..i] ==> M().Has(NodeOf(s))
      {
        assert g.seeds[..i + 1] == g.seeds[..i] + [g.seeds[i]];
        SeedIsRoot(g, marked, g.seeds[i]);
        ghost var before := M();
        var _ := Apply(g.seeds[i]);
        MarkStaysSound(g, marked, before, NodeOf(g.seeds[i]));
        hide Names, Universe, Reaches;
      }
      assert g.seeds[..|g.seeds|] == g.seeds;
      forall n | Root(g, marked, n) ensures M().Has(n) {
        if s :| s in g.seeds && Names(s, n) {
          NamesItsNode(s, n);
        }
      }
    }

    /** The first stage: parameters and type parameters, until a whole pass changes nothing. */
    method PropagateEdges(ghost marked: set<string>)
      requires Sound(g, marked, M()) && M().Within(Universe(g, marked))
      modifies `decode, `sinks, `tsinks
      ensures Sound(g, marked, M()) && M().Within(Universe(g, marked))
      ensures old(M()).Within(M())
      ensures Closed(g.argEdges, false, M()) && Closed(g.typeEdges, true, M())
    {
      var changed := true;
      while changed
        invariant Sound(g, marked, M()) && M().Within(Universe(g, marked)) && old(M()).Within(M())
        invariant !changed ==> Closed(g.argEdges, false, M()) && Closed(g.typeEdges, true, M())
        decreases Universe(g, marked).decode - decode, Universe(g, marked).sinks - sinks,
                  Universe(g, marked).tsinks - tsinks, changed
      {
        ghost var before := M();
        var a := PassEdges(g.argEdges, false, marked);
        var t := PassEdges(g.typeEdges, true, marked);
        changed := a || t;
        assert before.Within(M()) && (changed ==> before != M());
      }
    }

    /** The second stage: struct fields. It marks only types, so it cannot reopen the first. */
    method PropagateFields(ghost marked: set<string>)
      requires Sound(g, marked, M()) && M().Within(Universe(g, marked))
      modifies `decode
      ensures Sound(g, marked, M()) && M().Within(Universe(g, marked))
      ensures old(M()).Within(M())
      ensures forall k :: k in decode ==> FieldsMarked(g, k, M())
    {
      var changed := true;
      while changed
        invariant Sound(g, marked, M()) && M().Within(Universe(g, marked)) && old(M()).Within(M())
        invariant !changed ==> forall k :: k in decode ==> FieldsMarked(g, k, M())
        decreases Universe(g, marked).decode - decode, changed
      {
        changed := PassFields(marked);
      }
    }

    method ResolveDecodeTargets()
      requires sinks == {} && tsinks == {}
      modifies this
      ensures forall k :: k in decode <==> Reaches(g, old(decode), Type(k))
      ensures decodeCount == |decode|
    {
      ghost var marked := decode;
      Seed(marked);
      ghost var seeded := M();
      PropagateEdges(marked);
      ghost var staged := M();
      PropagateFields(marked);
      decodeCount := |decode|;
      FieldStageKeepsEdges(g, staged, M());
      assert IsFixpoint(g, marked, M());
      forall k ensures k in decode <==> Reaches(g, marked, Type(k)) {
        assert M().Has(Type(k)) <==> k in decode;
        if Reaches(g, marked, Type(k)) {
          ReachabilityIsLeast(g, marked, M(), Type(k));
        }
      }
    }
  }

  lemma FieldStageKeepsEdges(g: Graph, m: Marks, m': Marks)
    requires Closed(g.argEdges, false, m) && Closed(g.typeEdges, true, m)
    requires m.Within(m') && m'.sinks == m.sinks && m'.tsinks == m.tsinks
    ensures Closed(g.argEdges, false, m') && Closed(g.typeEdges, true, m')
  {
    forall e | e in g.argEdges && m'.Has(SourceOf(e, false)) ensures m'.Has(NodeOf(e.ref)) {
      assert m.Has(SourceOf(e, false));
    }
    forall e | e in g.typeEdges && m'.Has(SourceOf(e, true)) ensures m'.Has(NodeOf(e.ref)) {
      assert m.Has(SourceOf(e, true));
    }
  }

  lemma MarkStaysSound(g: Graph, marked: set<string>, m: Marks, n: Node)
    requires Sound(g, marked, m) && Reaches(g, marked, n)
    ensures Sound(g, marked, m.With(n))
  {
    forall x | m.With(n).Has(x) ensures Reaches(g, marked, x) {
      WithHas(m, n, x);
    }
  }
}
