/** The comparison of types from two compilations. Types are nodes of finite graphs that may be cyclic; two
    histories of the types already met, one for each side, stop the recursion. */
module TypeMatch {
  import opened Common

  datatype Layout = Layout(width: nat, align: nat)

  datatype WrapperClass = Complex | Pointer | BlockPointer | LValueReference | RValueReference | MemberPointer

  datatype ArrayClass = ConstantArray | IncompleteArray | VariableArray

  /** A reference to another type, which may be null. */
  type Ref = Option<nat>

  /** What a canonical type has to show. Only constant arrays have a length. */
  datatype Shape =
    | Builtin(layout: Layout, kind: nat)
    | Wrapper(wrapper: WrapperClass, layout: Layout, inner: Ref)
    | Array(arrayClass: ArrayClass, length: Option<nat>, element: Ref)
    | Vector(extended: bool, count: nat, vectorKind: nat, element: Ref)
    | FunctionProto
    | FunctionNoProto(callConv: nat, isConst: bool, result: Ref)
    | Record(tagKind: nat, record: Option<RecordDefinition>)
    | Enum(tagKind: nat, enumeration: Option<EnumDefinition>)

  datatype RecordDefinition = RecordDefinition(layout: Layout, fields: seq<Ref>)

  datatype EnumDefinition = EnumDefinition(layout: Layout, integer: Ref, values: seq<int>)

  /** Each type has a canonical type, which has a shape; the histories hold the types as written. */
  datatype Graph = Graph(canonical: seq<nat>, shapes: seq<Shape>)
  {
    ghost predicate Valid() {
      && (forall i | 0 <= i < |canonical| :: canonical[i] < |shapes|)
      && (forall i, r | 0 <= i < |shapes| && r in Parts(shapes[i]) && r.Some? :: r.value < |canonical|)
    }

    predicate Has(r: Ref) { r.Some? ==> r.value < |canonical| }

    function ShapeOf(i: nat): Shape
      requires Valid() && i < |canonical|
    {
      shapes[canonical[i]]
    }
  }

  /** The types that a type refers to, in the order of their comparison. */
  function Parts(s: Shape): seq<Ref> {
    match s
    case Builtin(_, _) => []
    case Wrapper(_, _, inner) => [inner]
    case Array(_, _, element) => [element]
    case Vector(_, _, _, element) => [element]
    case FunctionProto => []
    case FunctionNoProto(_, _, result) => [result]
    case Record(_, record) => if record.Some? then record.value.fields else []
    case Enum(_, enumeration) => if enumeration.Some? then [enumeration.value.integer] else []
  }

  predicate SameClass(s: Shape, t: Shape) {
    match s
    case Builtin(_, _) => t.Builtin?
    case Wrapper(w, _, _) => t.Wrapper? && t.wrapper == w
    case Array(a, _, _) => t.Array? && t.arrayClass == a
    case Vector(e, _, _, _) => t.Vector? && t.extended == e
    case FunctionProto => t.FunctionProto?
    case FunctionNoProto(_, _, _) => t.FunctionNoProto?
    case Record(_, _) => t.Record?
    case Enum(_, _) => t.Enum?
  }

  /** Two shapes of one class agree in everything but their parts. Prototyped functions never match, nor do
      records and enumerations without a definition. */
  predicate Agree(s: Shape, t: Shape) {
    && SameClass(s, t)
    && |Parts(s)| == |Parts(t)|
    && match s
       case Builtin(layout, kind) => t.layout == layout && t.kind == kind
       case Wrapper(_, layout, _) => t.layout == layout
       case Array(_, _, _) => true
       case Vector(_, count, kind, _) => t.count == count && t.vectorKind == kind
       case FunctionProto => false
       case FunctionNoProto(conv, c, _) => t.callConv == conv && t.isConst == c
       case Record(tag, record) =>
         t.tagKind == tag && record.Some? && t.record.Some? && t.record.value.layout == record.value.layout
       case Enum(tag, enumeration) =>
         && t.tagKind == tag && enumeration.Some? && t.enumeration.Some?
         && t.enumeration.value.layout == enumeration.value.layout
         && t.enumeration.value.values == enumeration.value.values
  }

  // ---------------------------------------------------------------- the comparison, with its history as a set

  type History = set<(nat, nat)>

  function Lefts(h: History): set<nat> { set p | p in h :: p.0 }

  function Rights(h: History): set<nat> { set p | p in h :: p.1 }

  function Below(n: nat): (r: set<nat>)
    ensures forall i: nat :: i in r <==> i < n
  {
    if n == 0 then {} else Below(n - 1) + {n - 1}
  }

  function Unmet(a: Graph, h: History): set<nat> { Below(|a.canonical|) - Lefts(h) }

  datatype Outcome = Outcome(ok: bool, history: History)

  function Match(a: Graph, b: Graph, h: History, x: Ref, y: Ref): (r: Outcome)
    requires a.Valid() && b.Valid() && a.Has(x) && b.Has(y)
    ensures h <= r.history && Unmet(a, r.history) <= Unmet(a, h)
    decreases Unmet(a, h), 0, 0
  {
    if x.None? || y.None? then Outcome(false, h)
    else
      var s, t := a.ShapeOf(x.value), b.ShapeOf(y.value);
      if !SameClass(s, t) then Outcome(false, h)
      else if (x.value, y.value) in h then Outcome(true, h)
      else if x.value in Lefts(h) || y.value in Rights(h) then Outcome(false, h)
      else
        var next := h + {(x.value, y.value)};
        assert (x.value, y.value) in next;
        assert x.value in Unmet(a, h) && x.value !in Unmet(a, next);
        if Agree(s, t) then MatchAll(a, b, next, Parts(s), Parts(t)) else Outcome(false, next)
  }

  function MatchAll(a: Graph, b: Graph, h: History, xs: seq<Ref>, ys: seq<Ref>): (r: Outcome)
    requires a.Valid() && b.Valid() && |xs| == |ys|
    requires (forall x | x in xs :: a.Has(x)) && (forall y | y in ys :: b.Has(y))
    ensures h <= r.history && Unmet(a, r.history) <= Unmet(a, h)
    decreases Unmet(a, h), 1, |xs|
  {
    if xs == [] then Outcome(true, h)
    else
      var first := Match(a, b, h, xs[0], ys[0]);
      if first.ok then MatchAll(a, b, first.history, xs[1..], ys[1..]) else first
  }

  // ---------------------------------------------------------------- what it decides

  ghost predicate OneToOne(h: History) {
    forall p, q | p in h && q in h :: p.0 == q.0 <==> p.1 == q.1
  }

  ghost predicate Related(r: History, xs: seq<Ref>, ys: seq<Ref>) {
    && |xs| == |ys|
    && forall i | 0 <= i < |xs| :: xs[i].Some? && ys[i].Some? && (xs[i].value, ys[i].value) in r
  }

  /** The two types agree, and their parts are pairwise in `r`. */
  ghost predicate Supported(a: Graph, b: Graph, r: History, p: (nat, nat))
    requires a.Valid() && b.Valid()
  {
    && p.0 < |a.canonical| && p.1 < |b.canonical|
    && Agree(a.ShapeOf(p.0), b.ShapeOf(p.1))
    && Related(r, Parts(a.ShapeOf(p.0)), Parts(b.ShapeOf(p.1)))
  }

  ghost predicate Bisimulation(a: Graph, b: Graph, r: History)
    requires a.Valid() && b.Valid()
  {
    OneToOne(r) && forall p | p in r :: Supported(a, b, r, p)
  }

  /** The types correspond one to one, each agreeing with its counterpart, from `x` and `y` on down. */
  ghost predicate Bisimilar(a: Graph, b: Graph, x: nat, y: nat)
    requires a.Valid() && b.Valid()
  {
    exists r: History :: Bisimulation(a, b, r) && (x, y) in r
  }

  lemma SupportedMore(a: Graph, b: Graph, r: History, s: History, p: (nat, nat))
    requires a.Valid() && b.Valid() && r <= s && Supported(a, b, r, p)
    ensures Supported(a, b, s, p)
  {
  }

  /** When the comparison succeeds, it has related the two types, and everything that it has added to the
      history is supported by it. */
  lemma {:induction false} MatchSound(a: Graph, b: Graph, h: History, x: Ref, y: Ref)
    requires a.Valid() && b.Valid() && a.Has(x) && b.Has(y) && OneToOne(h) && Match(a, b, h, x, y).ok
    ensures var r := Match(a, b, h, x, y).history;
            && x.Some? && y.Some? && (x.value, y.value) in r && OneToOne(r)
            && forall p | p in r && p !in h :: Supported(a, b, r, p)
    decreases Unmet(a, h), 0, 0
  {
    hide Agree;
    if (x.value, y.value) !in h {
      var s, t := a.ShapeOf(x.value), b.ShapeOf(y.value);
      var next := h + {(x.value, y.value)};
      assert x.value in Unmet(a, h) && x.value !in Unmet(a, next) by {
        assert (x.value, y.value) in next;
      }
      ExtendsOneToOne(h, x.value, y.value);
      AgreeSameClass(s, t);
      MatchAllSound(a, b, next, Parts(s), Parts(t));
    }
  }

  lemma ExtendsOneToOne(h: History, x: nat, y: nat)
    requires OneToOne(h) && x !in Lefts(h) && y !in Rights(h)
    ensures OneToOne(h + {(x, y)})
  {
    forall p | p in h ensures p.0 != x && p.1 != y {
      assert p.0 in Lefts(h) && p.1 in Rights(h);
    }
  }

  lemma {:induction false} MatchAllSound(a: Graph, b: Graph, h: History, xs: seq<Ref>, ys: seq<Ref>)
    requires a.Valid() && b.Valid() && |xs| == |ys| && OneToOne(h)
    requires (forall x | x in xs :: a.Has(x)) && (forall y | y in ys :: b.Has(y))
    requires MatchAll(a, b, h, xs, ys).ok
    ensures var r := MatchAll(a, b, h, xs, ys).history;
            && Related(r, xs, ys) && OneToOne(r)
            && forall p | p in r && p !in h :: Supported(a, b, r, p)
    decreases Unmet(a, h), 1, |xs|
  {
    hide Supported, Match;
    if xs != [] {
      var first := Match(a, b, h, xs[0], ys[0]).history;
      MatchSound(a, b, h, xs[0], ys[0]);
      MatchAllSound(a, b, first, xs[1..], ys[1..]);
      var r := MatchAll(a, b, h, xs, ys).history;
      forall p | p in r && p !in h ensures Supported(a, b, r, p) {
        if p in first {
          SupportedMore(a, b, first, r, p);
        }
      }
      forall i | 0 <= i < |xs| ensures xs[i].Some? && ys[i].Some? && (xs[i].value, ys[i].value) in r {
        if i > 0 {
          assert xs[i] == xs[1..][i - 1] && ys[i] == ys[1..][i - 1];
        }
      }
    }
  }

  /** The comparison succeeds on whatever a one-to-one bisimulation relates, and stays within it. */
  lemma {:induction false} MatchComplete(a: Graph, b: Graph, h: History, x: Ref, y: Ref, r: History)
    requires a.Valid() && b.Valid() && a.Has(x) && b.Has(y) && Bisimulation(a, b, r) && h <= r
    requires x.Some? && y.Some? && (x.value, y.value) in r
    ensures Match(a, b, h, x, y).ok && Match(a, b, h, x, y).history <= r
    decreases Unmet(a, h), 0, 0
  {
    hide Agree;
    var p := (x.value, y.value);
    assert Supported(a, b, r, p);
    AgreeSameClass(a.ShapeOf(p.0), b.ShapeOf(p.1));
    if p !in h {
      var s, t := a.ShapeOf(x.value), b.ShapeOf(y.value);
      var next := h + {p};
      assert x.value !in Lefts(h) && y.value !in Rights(h);
      assert x.value in Unmet(a, h) && x.value !in Unmet(a, next) by {
        assert p in next;
      }
      MatchAllComplete(a, b, next, Parts(s), Parts(t), r);
    }
  }

  lemma AgreeSameClass(s: Shape, t: Shape)
    requires Agree(s, t)
    ensures SameClass(s, t) && |Parts(s)| == |Parts(t)|
  {
  }

  lemma {:induction false} MatchAllComplete(a: Graph, b: Graph, h: History, xs: seq<Ref>, ys: seq<Ref>, r: History)
    requires a.Valid() && b.Valid() && Bisimulation(a, b, r) && h <= r && Related(r, xs, ys)
    requires (forall x | x in xs :: a.Has(x)) && (forall y | y in ys :: b.Has(y))
    ensures MatchAll(a, b, h, xs, ys).ok && MatchAll(a, b, h, xs, ys).history <= r
    decreases Unmet(a, h), 1, |xs|
  {
    hide Bisimulation, Match;
    if xs != [] {
      MatchComplete(a, b, h, xs[0], ys[0], r);
      MatchAllComplete(a, b, Match(a, b, h, xs[0], ys[0]).history, xs[1..], ys[1..], r);
    }
  }

  /** Two types match if and only if some one-to-one bisimulation relates them. */
  lemma MatchDecides(a: Graph, b: Graph, x: nat, y: nat)
    requires a.Valid() && b.Valid() && x < |a.canonical| && y < |b.canonical|
    ensures Match(a, b, {}, Some(x), Some(y)).ok <==> Bisimilar(a, b, x, y)
  {
    hide Match, Supported;
    if Match(a, b, {}, Some(x), Some(y)).ok {
      MatchSound(a, b, {}, Some(x), Some(y));
      assert Bisimulation(a, b, Match(a, b, {}, Some(x), Some(y)).history);
    }
    if Bisimilar(a, b, x, y) {
      var r: History :| Bisimulation(a, b, r) && (x, y) in r;
      MatchComplete(a, b, {}, Some(x), Some(y), r);
    }
  }

  // ---------------------------------------------------------------- symmetry and transitivity

  function Inverse(r: History): History { set p | p in r :: (p.1, p.0) }

  lemma AgreeSymmetric(s: Shape, t: Shape)
    ensures Agree(s, t) <==> Agree(t, s)
  {
  }

  lemma AgreeTransitive(s: Shape, t: Shape, u: Shape)
    requires Agree(s, t) && Agree(t, u)
    ensures Agree(s, u)
  {
  }

  lemma InverseBisimulation(a: Graph, b: Graph, r: History)
    requires a.Valid() && b.Valid() && Bisimulation(a, b, r)
    ensures Bisimulation(b, a, Inverse(r))
  {
    hide Agree;
    forall p | p in Inverse(r) ensures Supported(b, a, Inverse(r), p) {
      assert Supported(a, b, r, (p.1, p.0));
      AgreeSymmetric(a.ShapeOf(p.1), b.ShapeOf(p.0));
    }
  }

  lemma MatchSymmetric(a: Graph, b: Graph, x: nat, y: nat)
    requires a.Valid() && b.Valid() && x < |a.canonical| && y < |b.canonical|
    ensures Match(a, b, {}, Some(x), Some(y)).ok <==> Match(b, a, {}, Some(y), Some(x)).ok
  {
    hide Match, Bisimulation;
    MatchDecides(a, b, x, y);
    MatchDecides(b, a, y, x);
    if Bisimilar(a, b, x, y) {
      var r: History :| Bisimulation(a, b, r) && (x, y) in r;
      InverseBisimulation(a, b, r);
      assert (y, x) in Inverse(r);
    }
    if Bisimilar(b, a, y, x) {
      var r: History :| Bisimulation(b, a, r) && (y, x) in r;
      InverseBisimulation(b, a, r);
      assert (x, y) in Inverse(r);
    }
  }

  function Composed(r: History, s: History): History {
    set p, q | p in r && q in s && p.1 == q.0 :: (p.0, q.1)
  }

  lemma ComposedOneToOne(r: History, s: History)
    requires OneToOne(r) && OneToOne(s)
    ensures OneToOne(Composed(r, s))
  {
  }

  lemma ComposedBisimulation(a: Graph, b: Graph, c: Graph, r: History, s: History)
    requires a.Valid() && b.Valid() && c.Valid() && Bisimulation(a, b, r) && Bisimulation(b, c, s)
    ensures Bisimulation(a, c, Composed(r, s))
  {
    hide Agree;
    ComposedOneToOne(r, s);
    forall z | z in Composed(r, s) ensures Supported(a, c, Composed(r, s), z) {
      var p, q :| p in r && q in s && p.1 == q.0 && z == (p.0, q.1);
      assert Supported(a, b, r, p) && Supported(b, c, s, q);
      AgreeTransitive(a.ShapeOf(p.0), b.ShapeOf(p.1), c.ShapeOf(q.1));
      RelatedComposes(r, s, Parts(a.ShapeOf(p.0)), Parts(b.ShapeOf(p.1)), Parts(c.ShapeOf(q.1)));
    }
  }

  lemma RelatedComposes(r: History, s: History, xs: seq<Ref>, ys: seq<Ref>, zs: seq<Ref>)
    requires Related(r, xs, ys) && Related(s, ys, zs)
    ensures Related(Composed(r, s), xs, zs)
  {
    forall i | 0 <= i < |xs| ensures (xs[i].value, zs[i].value) in Composed(r, s) {
      assert (xs[i].value, ys[i].value) in r && (ys[i].value, zs[i].value) in s;
    }
  }

  lemma MatchTransitive(a: Graph, b: Graph, c: Graph, x: nat, y: nat, z: nat)
    requires a.Valid() && b.Valid() && c.Valid()
    requires x < |a.canonical| && y < |b.canonical| && z < |c.canonical|
    requires Match(a, b, {}, Some(x), Some(y)).ok && Match(b, c, {}, Some(y), Some(z)).ok
    ensures Match(a, c, {}, Some(x), Some(z)).ok
  {
    hide Match, Bisimulation;
    MatchDecides(a, b, x, y);
    MatchDecides(b, c, y, z);
    var r: History :| Bisimulation(a, b, r) && (x, y) in r;
    var s: History :| Bisimulation(b, c, s) && (y, z) in s;
    ComposedBisimulation(a, b, c, r, s);
    assert (x, z) in Composed(r, s);
    MatchDecides(a, c, x, z);
  }

  // ---------------------------------------------------------------- the two histories

  function IndexOf(s: seq<nat>, x: nat): (i: nat)
    ensures i <= |s| && (i < |s| ==> s[i] == x) && forall k | 0 <= k < i :: s[k] != x
  {
    if s == [] then 0 else if s[0] == x then 0 else 1 + IndexOf(s[1..], x)
  }

  ghost predicate Distinct(s: seq<nat>) {
    forall i, j | 0 <= i < j < |s| :: s[i] != s[j]
  }

  /** The pairs at equal positions of the two histories. */
  ghost predicate Zipped(s: seq<nat>, t: seq<nat>, h: History) {
    && |s| == |t| && Distinct(s) && Distinct(t)
    && (forall i | 0 <= i < |s| :: (s[i], t[i]) in h)
    && (forall p | p in h :: IndexOf(s, p.0) < |s| && t[IndexOf(s, p.0)] == p.1)
  }

  lemma IndexIs(s: seq<nat>, i: nat)
    requires Distinct(s) && i < |s|
    ensures IndexOf(s, s[i]) == i
  {
  }

  lemma ZipAppend(s: seq<nat>, t: seq<nat>, h: History, x: nat, y: nat)
    requires Zipped(s, t, h) && IndexOf(s, x) == |s| && IndexOf(t, y) == |t|
    ensures Zipped(s + [x], t + [y], h + {(x, y)})
  {
    var s', t' := s + [x], t + [y];
    forall p | p in h ensures IndexOf(s', p.0) < |s'| && t'[IndexOf(s', p.0)] == p.1 {
      IndexIs(s', IndexOf(s, p.0));
    }
    IndexIs(s', |s|);
  }

  /** Comparing positions in the two histories is looking for the pair. */
  lemma SamePosition(s: seq<nat>, t: seq<nat>, h: History, x: nat, y: nat)
    requires Zipped(s, t, h)
    ensures |s| == |t|
    ensures IndexOf(s, x) == IndexOf(t, y) < |s| <==> (x, y) in h
    ensures IndexOf(s, x) == |s| <==> x !in Lefts(h)
    ensures IndexOf(t, y) == |t| <==> y !in Rights(h)
  {
    if (x, y) in h {
      IndexIs(t, IndexOf(s, x));
    }
    var i, j := IndexOf(s, x), IndexOf(t, y);
    assert i < |s| ==> (s[i], t[i]) in h;
    assert j < |t| ==> (s[j], t[j]) in h;
    forall p | p in h && p.1 == y ensures j < |t| {
      assert t[IndexOf(s, p.0)] == y;
    }
  }

  class TypeMatcher {
    const a: Graph
    const b: Graph
    var aHistory: seq<nat>
    var bHistory: seq<nat>
    ghost var history: History

    ghost predicate Valid()
      reads this
    {
      a.Valid() && b.Valid() && Zipped(aHistory, bHistory, history)
    }

    constructor (withA: Graph, withB: Graph)
      requires withA.Valid() && withB.Valid()
      ensures Valid() && a == withA && b == withB && history == {}
    {
      a, b := withA, withB;
      aHistory, bHistory, history := [], [], {};
    }

    /** The histories stay equally long and without duplicates; when the types match they hold what Match
        says, and when they do not the whole comparison ends. */
    method MatchImpl(x: Ref, y: Ref) returns (ok: bool)
      requires Valid() && a.Has(x) && b.Has(y)
      modifies this
      ensures Valid() && old(history) <= history
      ensures var m := Match(a, b, old(history), x, y); ok == m.ok && (ok ==> history == m.history)
      decreases Unmet(a, history), 0, 0
    {
      hide Agree, Zipped, Unmet, MatchAll;
      if x.None? || y.None? { return false; }
      var s, t := a.ShapeOf(x.value), b.ShapeOf(y.value);
      if !SameClass(s, t) { return false; }
      var i, j := IndexOf(aHistory, x.value), IndexOf(bHistory, y.value);
      SamePosition(aHistory, bHistory, history, x.value, y.value);
      if i != j { return false; }
      if i < |aHistory| { return true; }
      ZipAppend(aHistory, bHistory, history, x.value, y.value);
      aHistory, bHistory := aHistory + [x.value], bHistory + [y.value];
      history := history + {(x.value, y.value)};
      UnmetShrinks(a, old(history), x.value, y.value);
      ok := MatchShape(s, t);
    }

    /** The comparisons of each class of types, in the order of the source. */
    method MatchShape(s: Shape, t: Shape) returns (ok: bool)
      requires Valid() && SameClass(s, t)
      requires (forall r | r in Parts(s) :: a.Has(r)) && (forall r | r in Parts(t) :: b.Has(r))
      modifies this
      ensures Valid() && old(history) <= history
      ensures ok == (Agree(s, t) && MatchAll(a, b, old(history), Parts(s), Parts(t)).ok)
      ensures ok ==> history == MatchAll(a, b, old(history), Parts(s), Parts(t)).history
      decreases Unmet(a, history), 2, 0
    {
      match s {
        case Builtin(layout, kind) => return t.layout == layout && t.kind == kind;
        case Wrapper(_, layout, _) => if t.layout != layout { return false; }
        case Array(_, _, _) =>
        case Vector(_, count, kind, _) => if t.count != count || t.vectorKind != kind { return false; }
        case FunctionProto => return false;
        case FunctionNoProto(conv, c, _) => if t.callConv != conv || t.isConst != c { return false; }
        case Record(tag, record) =>
          if tag != t.tagKind || record.None? || t.record.None? { return false; }
          if record.value.layout != t.record.value.layout { return false; }
        case Enum(tag, enumeration) =>
          if tag != t.tagKind || enumeration.None? || t.enumeration.None? { return false; }
          if enumeration.value.layout != t.enumeration.value.layout { return false; }
      }
      ok := MatchParts(Parts(s), Parts(t));
      if ok && s.Enum? {
        ok := s.enumeration.value.values == t.enumeration.value.values;
      }
    }

    /** Compare the parts in step, until one side runs out. */
    method MatchParts(xs: seq<Ref>, ys: seq<Ref>) returns (ok: bool)
      requires Valid() && (forall r | r in xs :: a.Has(r)) && (forall r | r in ys :: b.Has(r))
      modifies this
      ensures Valid() && old(history) <= history
      ensures ok == (|xs| == |ys| && MatchAll(a, b, old(history), xs, ys).ok)
      ensures ok ==> history == MatchAll(a, b, old(history), xs, ys).history
      decreases Unmet(a, history), 1, 0
    {
      hide Zipped, Match, Unmet;
      var i := 0;
      while true
        invariant 0 <= i <= |xs| && i <= |ys| && Valid() && old(history) <= history
        invariant |xs| == |ys| ==>
                    MatchAll(a, b, old(history), xs, ys) == MatchAll(a, b, history, xs[i..], ys[i..])
        decreases |xs| - i
      {
        if i == |xs| && i == |ys| { return true; }
        if i == |xs| || i == |ys| { return false; }
        UnmetFalls(a, old(history), history);
        var matched := MatchImpl(xs[i], ys[i]);
        if !matched { return false; }
        assert xs[i..][1..] == xs[i + 1..] && ys[i..][1..] == ys[i + 1..];
        i := i + 1;
      }
    }
  }

  lemma UnmetShrinks(a: Graph, h: History, x: nat, y: nat)
    requires x < |a.canonical| && x !in Lefts(h)
    ensures Unmet(a, h + {(x, y)}) < Unmet(a, h)
  {
    assert (x, y) in h + {(x, y)};
    assert x in Unmet(a, h) && x !in Unmet(a, h + {(x, y)});
  }

  lemma UnmetFalls(a: Graph, h: History, r: History)
    requires h <= r
    ensures Unmet(a, r) <= Unmet(a, h)
  {
  }

  // ---------------------------------------------------------------- a type spelled two ways

  lemma PartsOneToOne(a: Graph, b: Graph, r: History, x: nat, y: nat, i: nat, j: nat)
    requires a.Valid() && b.Valid() && Bisimulation(a, b, r) && (x, y) in r
    requires x < |a.canonical| && y < |b.canonical|
    requires i < |Parts(a.ShapeOf(x))| && j < |Parts(a.ShapeOf(x))|
    requires i < |Parts(b.ShapeOf(y))| && j < |Parts(b.ShapeOf(y))|
    ensures Parts(a.ShapeOf(x))[i] == Parts(a.ShapeOf(x))[j] <==> Parts(b.ShapeOf(y))[i] == Parts(b.ShapeOf(y))[j]
  {
    assert Supported(a, b, r, (x, y));
  }

  /** A record of two integers, the first spelled through a typedef on one side only: equal shapes all the
      way down, yet no match, since the histories hold the types as written. */
  lemma TypedefsMatter(a: Graph, b: Graph, integer: Shape, layout: Layout)
    requires integer.Builtin?
    requires a == Graph([0, 1, 1], [Record(0, Some(RecordDefinition(layout, [Some(1), Some(2)]))), integer])
    requires b == Graph([0, 1], [Record(0, Some(RecordDefinition(layout, [Some(1), Some(1)]))), integer])
    ensures a.Valid() && b.Valid() && a.ShapeOf(1) == a.ShapeOf(2) == b.ShapeOf(1)
    ensures !Match(a, b, {}, Some(0), Some(0)).ok
  {
    hide Match, Bisimulation;
    forall r: History | (0, 0) in r ensures !Bisimulation(a, b, r) {
      if Bisimulation(a, b, r) {
        PartsOneToOne(a, b, r, 0, 0, 0, 1);
      }
    }
    MatchDecides(a, b, 0, 0);
  }

  // ---------------------------------------------------------------- lengths and prototypes

  /** Two graphs that differ in nothing but the lengths of arrays. The layouts of records, to which lengths contribute,
      are the same. */
  ghost predicate SameButLengths(a: Graph, b: Graph) {
    && a.canonical == b.canonical && |a.shapes| == |b.shapes|
    && forall i | 0 <= i < |a.shapes| ::
         || a.shapes[i] == b.shapes[i]
         || (a.shapes[i].Array? && b.shapes[i].Array? && a.shapes[i].(length := None) == b.shapes[i].(length := None))
  }

  lemma LengthsKeepBisimulation(a: Graph, b: Graph, c: Graph, r: History)
    requires a.Valid() && b.Valid() && c.Valid() && SameButLengths(a, b) && Bisimulation(a, c, r)
    ensures Bisimulation(b, c, r)
  {
    forall p | p in r ensures Supported(b, c, r, p) {
      assert Supported(a, c, r, p);
    }
  }

  /** Whatever the lengths of arrays, the comparison of any two types has the same outcome, given the layouts of
      records. */
  lemma LengthsIgnored(a: Graph, b: Graph, c: Graph, x: nat, y: nat)
    requires a.Valid() && b.Valid() && c.Valid() && SameButLengths(a, b)
    requires x < |a.canonical| && y < |c.canonical|
    ensures Match(a, c, {}, Some(x), Some(y)).ok <==> Match(b, c, {}, Some(x), Some(y)).ok
  {
    hide Match, Bisimulation, SameButLengths;
    LengthsSymmetric(a, b);
    MatchDecides(a, c, x, y);
    MatchDecides(b, c, x, y);
    if Bisimilar(a, c, x, y) {
      var r: History :| Bisimulation(a, c, r) && (x, y) in r;
      LengthsKeepBisimulation(a, b, c, r);
    }
    if Bisimilar(b, c, x, y) {
      var r: History :| Bisimulation(b, c, r) && (x, y) in r;
      LengthsKeepBisimulation(b, a, c, r);
    }
  }

  lemma LengthsSymmetric(a: Graph, b: Graph)
    requires SameButLengths(a, b)
    ensures SameButLengths(b, a) && a.canonical == b.canonical
  {
  }

  /** Two arrays of one class match exactly when their elements do, given that the arrays correspond. */
  lemma ArraysMatchAsElements(a: Graph, b: Graph, x: nat, y: nat)
    requires a.Valid() && b.Valid() && x < |a.canonical| && y < |b.canonical|
    requires a.ShapeOf(x).Array? && b.ShapeOf(y).Array? && a.ShapeOf(x).arrayClass == b.ShapeOf(y).arrayClass
    ensures a.Has(a.ShapeOf(x).element) && b.Has(b.ShapeOf(y).element)
    ensures Match(a, b, {}, Some(x), Some(y)).ok <==>
            Match(a, b, {(x, y)}, a.ShapeOf(x).element, b.ShapeOf(y).element).ok
  {
    var s, t := a.ShapeOf(x), b.ShapeOf(y);
    var none: History := {};
    assert none + {(x, y)} == {(x, y)};
    OnePart(a, b, {(x, y)}, s.element, t.element);
  }

  lemma OnePart(a: Graph, b: Graph, h: History, x: Ref, y: Ref)
    requires a.Valid() && b.Valid() && a.Has(x) && b.Has(y)
    ensures MatchAll(a, b, h, [x], [y]).ok == Match(a, b, h, x, y).ok
  {
    hide Match;
    assert [x][1..] == [] && [y][1..] == [];
  }

  /** So arrays of three and of five elements of one type match. */
  lemma LengthsMatch(integer: Shape)
    requires integer.Builtin?
    ensures var a := Graph([0, 1], [Array(ConstantArray, Some(3), Some(1)), integer]);
            var b := Graph([0, 1], [Array(ConstantArray, Some(5), Some(1)), integer]);
            a.Valid() && b.Valid() && Match(a, b, {}, Some(0), Some(0)).ok
  {
    hide Match;
    var a := Graph([0, 1], [Array(ConstantArray, Some(3), Some(1)), integer]);
    var b := Graph([0, 1], [Array(ConstantArray, Some(5), Some(1)), integer]);
    var r: History := {(0, 0), (1, 1)};
    assert Supported(a, b, r, (0, 0)) && Supported(a, b, r, (1, 1));
    assert Bisimulation(a, b, r);
    MatchDecides(a, b, 0, 0);
  }

  /** The size that lengths give to a record is compared: records of different layouts do not match. */
  lemma LayoutsMatter(a: Graph, b: Graph, x: nat, y: nat)
    requires a.Valid() && b.Valid() && x < |a.canonical| && y < |b.canonical|
    requires a.ShapeOf(x).Record? && b.ShapeOf(y).Record?
    requires a.ShapeOf(x).record.Some? && b.ShapeOf(y).record.Some?
    requires a.ShapeOf(x).record.value.layout != b.ShapeOf(y).record.value.layout
    ensures !Match(a, b, {}, Some(x), Some(y)).ok
  {
    hide Match;
    MatchDecides(a, b, x, y);
  }

  /** A function with a prototype matches nothing, not even itself. */
  lemma PrototypesNeverMatch(a: Graph, b: Graph, x: nat, y: nat)
    requires a.Valid() && b.Valid() && x < |a.canonical| && y < |b.canonical|
    requires a.ShapeOf(x).FunctionProto? || b.ShapeOf(y).FunctionProto?
    ensures !Match(a, b, {}, Some(x), Some(y)).ok
  {
    hide Match;
    MatchDecides(a, b, x, y);
  }
}
