/** The collection of every pointer reachable from a program state, cyclic or not, and queries of the result. */
module GraphExpansion {

  /** Types as far as the expansion looks at them; a pointer type hides its pointee. */
  datatype CType = Plain | PointerType | ArrayType(element: CType) | RecordType(fields: seq<CType>)

  /** `targets` are the legal dereferences of a pointer, in order. */
  datatype Value =
    | Basic
    | Array(elements: seq<nat>)
    | Record(members: seq<nat>)
    | Pointer(address: nat, pointee: CType, targets: seq<nat>)

  datatype Node = Node(ty: CType, value: Value)

  type Graph = seq<Node>

  predicate ContainsPointer(ty: CType) {
    match ty
    case Plain => false
    case PointerType => true
    case ArrayType(element) => ContainsPointer(element)
    case RecordType(fields) => exists i | 0 <= i < |fields| :: ContainsPointer(fields[i])
  }

  /** The values that one value leads to directly. */
  function Edges(value: Value): seq<nat> {
    match value
    case Basic => []
    case Array(elements) => elements
    case Record(members) => members
    case Pointer(_, _, targets) => targets
  }

  /** Values have the types of their places. */
  ghost predicate Typed(g: Graph, v: nat)
    requires v < |g|
  {
    match g[v].value
    case Basic => !ContainsPointer(g[v].ty)
    case Array(elements) =>
      && g[v].ty.ArrayType?
      && forall i | 0 <= i < |elements| :: elements[i] < |g| && g[elements[i]].ty == g[v].ty.element
    case Record(members) =>
      && g[v].ty.RecordType?
      && forall i | 0 <= i < |members| :: members[i] < |g| && g[members[i]].ty in g[v].ty.fields
    case Pointer(_, pointee, targets) =>
      && g[v].ty.PointerType?
      && forall i | 0 <= i < |targets| :: targets[i] < |g| && g[targets[i]].ty == pointee
  }

  ghost predicate WellTyped(g: Graph) {
    forall v | 0 <= v < |g| :: Typed(g, v)
  }

  // ---------------------------------------------------------------- reachability

  ghost predicate Path(g: Graph, path: seq<nat>) {
    && path != []
    && (forall i | 0 <= i < |path| :: path[i] < |g|)
    && (forall i, j | 0 <= i < j < |path| && j == i + 1 :: path[j] in Edges(g[path[i]].value))
  }

  ghost predicate PathFromTo(g: Graph, path: seq<nat>, v: nat, w: nat) {
    Path(g, path) && path[0] == v && path[|path| - 1] == w
  }

  ghost predicate Reaches(g: Graph, v: nat, w: nat) {
    exists path :: PathFromTo(g, path, v, w)
  }

  lemma ReachesSelf(g: Graph, v: nat)
    requires v < |g|
    ensures Reaches(g, v, v)
  {
    assert PathFromTo(g, [v], v, v);
  }

  lemma ReachesStep(g: Graph, v: nat, c: nat, w: nat)
    requires v < |g| && c in Edges(g[v].value) && Reaches(g, c, w)
    ensures Reaches(g, v, w)
  {
    var path :| PathFromTo(g, path, c, w);
    assert PathFromTo(g, [v] + path, v, w);
  }

  // ---------------------------------------------------------------- what an expansion has covered

  /** Every pointer inside a value, through its elements and members, has been collected. */
  ghost predicate Covered(g: Graph, collected: set<nat>, v: nat)
    requires WellTyped(g) && v < |g|
    decreases g[v].ty
  {
    assert Typed(g, v);
    match g[v].value
    case Basic => true
    case Array(elements) => forall i | 0 <= i < |elements| :: Covered(g, collected, elements[i])
    case Record(members) => forall i | 0 <= i < |members| :: Covered(g, collected, members[i])
    case Pointer(_, _, _) => v in collected
  }

  /** Every dereference of a pointer is covered. */
  ghost predicate Followed(g: Graph, collected: set<nat>, p: nat)
    requires WellTyped(g)
  {
    && p < |g| && g[p].value.Pointer?
    && assert Typed(g, p); forall i | 0 <= i < |g[p].value.targets| :: Covered(g, collected, g[p].value.targets[i])
  }

  lemma {:induction false} CoveredMore(g: Graph, s: set<nat>, t: set<nat>, v: nat)
    requires WellTyped(g) && v < |g| && s <= t && Covered(g, s, v)
    ensures Covered(g, t, v)
    decreases g[v].ty
  {
    assert Typed(g, v);
    match g[v].value
    case Array(elements) =>
      forall i | 0 <= i < |elements| ensures Covered(g, t, elements[i]) {
        CoveredMore(g, s, t, elements[i]);
      }
    case Record(members) =>
      forall i | 0 <= i < |members| ensures Covered(g, t, members[i]) {
        CoveredMore(g, s, t, members[i]);
      }
    case _ =>
  }

  lemma FollowedMore(g: Graph, s: set<nat>, t: set<nat>, p: nat)
    requires WellTyped(g) && s <= t && Followed(g, s, p)
    ensures Followed(g, t, p)
  {
    hide Covered;
    assert Typed(g, p);
    forall i | 0 <= i < |g[p].value.targets| ensures Covered(g, t, g[p].value.targets[i]) {
      CoveredMore(g, s, t, g[p].value.targets[i]);
    }
  }

  /** Values whose type contains no pointer need not be looked into. */
  lemma {:induction false} NothingToCover(g: Graph, s: set<nat>, v: nat)
    requires WellTyped(g) && v < |g| && !ContainsPointer(g[v].ty)
    ensures Covered(g, s, v)
    decreases g[v].ty
  {
    assert Typed(g, v);
    match g[v].value
    case Array(elements) =>
      forall i | 0 <= i < |elements| ensures Covered(g, s, elements[i]) {
        NothingToCover(g, s, elements[i]);
      }
    case Record(members) =>
      forall i | 0 <= i < |members| ensures Covered(g, s, members[i]) {
        NothingToCover(g, s, members[i]);
      }
    case Basic =>
    case Pointer(_, _, _) =>
  }

  /** Once everything collected has been followed, all that is reachable is covered. */
  lemma {:induction false} ReachedIsCovered(g: Graph, s: set<nat>, path: seq<nat>)
    requires WellTyped(g) && Path(g, path) && Covered(g, s, path[0])
    requires forall p | p in s :: Followed(g, s, p)
    ensures Covered(g, s, path[|path| - 1])
    decreases path
  {
    if |path| > 1 {
      CoveredNext(g, s, path[0], path[1]);
      ReachedIsCovered(g, s, path[1..]);
    }
  }

  lemma CoveredNext(g: Graph, s: set<nat>, v: nat, c: nat)
    requires WellTyped(g) && v < |g| && Covered(g, s, v) && c in Edges(g[v].value)
    requires forall p | p in s :: Followed(g, s, p)
    ensures c < |g| && Covered(g, s, c)
  {
    assert Typed(g, v);
    assert g[v].value.Pointer? ==> Followed(g, s, v);
  }

  // ---------------------------------------------------------------- the expansion

  function Below(n: nat): (r: set<nat>)
    ensures forall i: nat :: i in r <==> i < n
  {
    if n == 0 then {} else Below(n - 1) + {n - 1}
  }

  /** From `s` to `t` only pointers that `v` reaches were collected, and all of those were followed. */
  ghost predicate Grown(g: Graph, s: set<nat>, t: set<nat>, v: nat)
    requires WellTyped(g)
  {
    s <= t && forall p | p in t && p !in s :: Followed(g, t, p) && Reaches(g, v, p)
  }

  lemma GrownMore(g: Graph, s: set<nat>, t: set<nat>, u: set<nat>, v: nat, c: nat)
    requires WellTyped(g) && v < |g| && c in Edges(g[v].value) && Grown(g, s, t, v) && Grown(g, t, u, c)
    ensures Grown(g, s, u, v)
  {
    hide Followed, Reaches;
    forall p | p in u && p !in s ensures Followed(g, u, p) && Reaches(g, v, p) {
      if p in t {
        FollowedMore(g, t, u, p);
      } else {
        ReachesStep(g, v, c, p);
      }
    }
  }

  /** `v` is the first dereference of a collected pointer. */
  ghost predicate IsFirst(g: Graph, s: set<nat>, v: nat) {
    exists p :: p in s && FirstOf(g, p, v)
  }

  ghost predicate FirstOf(g: Graph, p: nat, v: nat) {
    p < |g| && g[p].value.Pointer? && g[p].value.targets != [] && g[p].value.targets[0] == v
  }

  lemma FirstMore(g: Graph, s: set<nat>, p: nat, v: nat)
    ensures IsFirst(g, s + {p}, v) <==> IsFirst(g, s, v) || FirstOf(g, p, v)
  {
    hide FirstOf;
    if IsFirst(g, s, v) {
      var q :| q in s && FirstOf(g, q, v);
      assert q in s + {p};
    }
    if FirstOf(g, p, v) {
      assert p in s + {p};
    }
  }

  /** The list holds each collected pointer once, with its address. */
  ghost predicate Listed(g: Graph, collected: set<nat>, list: seq<(nat, nat)>) {
    && (forall p | p in collected :: p < |g| && g[p].value.Pointer? && (g[p].value.address, p) in list)
    && (forall e | e in list :: e.1 in collected && e.1 < |g| && g[e.1].value.Pointer? && e.0 == g[e.1].value.address)
    && (forall i, j | 0 <= i < j < |list| :: list[i].1 != list[j].1)
  }

  ghost predicate Direct(g: Graph, collected: set<nat>, direct: set<nat>) {
    forall v: nat :: v in direct <==> IsFirst(g, collected, v)
  }

  class ExpansionImpl {
    var directlyReferenced: set<nat>
    var expandedPointers: set<nat>
    var pointers: seq<(nat, nat)>

    ghost predicate Valid(g: Graph)
      reads this
    {
      Listed(g, expandedPointers, pointers) && Direct(g, expandedPointers, directlyReferenced)
    }

    constructor (ghost g: Graph)
      ensures Valid(g) && expandedPointers == {}
    {
      directlyReferenced, expandedPointers, pointers := {}, {}, [];
    }

    /** Collect a pointer unless it has been already. */
    method AddPointer(ghost g: Graph, p: nat, address: nat) returns (added: bool)
      requires p < |g| && g[p].value.Pointer? && g[p].value.address == address
      requires Listed(g, expandedPointers, pointers)
      modifies this`expandedPointers, this`pointers
      ensures Listed(g, expandedPointers, pointers)
      ensures added == (p !in old(expandedPointers)) && expandedPointers == old(expandedPointers) + {p}
    {
      if p in expandedPointers { return false; }
      expandedPointers := expandedPointers + {p};
      pointers := pointers + [(address, p)];
      added := true;
    }

    method AddDirectReference(v: nat)
      modifies this`directlyReferenced
      ensures directlyReferenced == old(directlyReferenced) + {v}
    {
      directlyReferenced := directlyReferenced + {v};
    }

    /** Expanding a value covers it. It ends on cyclic graphs too: each call goes down a type or collects a
        pointer. */
    method Expand(g: Graph, v: nat)
      requires WellTyped(g) && v < |g| && Valid(g)
      modifies this
      ensures Valid(g) && Covered(g, expandedPointers, v)
      ensures Grown(g, old(expandedPointers), expandedPointers, v)
      decreases Below(|g|) - expandedPointers, g[v].ty, 1
    {
      hide Listed, Direct, Followed, Reaches, WellTyped;
      PlaceTyped(g, v);
      match g[v].value {
        case Basic =>
        case Array(elements) =>
          if ContainsPointer(g[v].ty) {
            ExpandEach(g, v, elements);
          } else {
            NothingToCover(g, expandedPointers, v);
          }
        case Record(members) => ExpandEach(g, v, members);
        case Pointer(_, _, _) => ExpandPointer(g, v);
      }
    }

    method ExpandEach(g: Graph, v: nat, items: seq<nat>)
      requires WellTyped(g) && v < |g| && Valid(g) && items == Edges(g[v].value) && !g[v].value.Pointer?
      modifies this
      ensures Valid(g) && Grown(g, old(expandedPointers), expandedPointers, v)
      ensures forall i | 0 <= i < |items| :: items[i] < |g| && Covered(g, expandedPointers, items[i])
      decreases Below(|g|) - expandedPointers, g[v].ty, 0
    {
      hide Listed, Direct, Followed, Reaches, WellTyped, Covered;
      PlaceTyped(g, v);
      var i := 0;
      while i < |items|
        invariant 0 <= i <= |items| && Valid(g) && Grown(g, old(expandedPointers), expandedPointers, v)
        invariant forall k | 0 <= k < i :: Covered(g, expandedPointers, items[k])
      {
        ghost var before := expandedPointers;
        Expand(g, items[i]);
        GrownMore(g, old(expandedPointers), before, expandedPointers, v, items[i]);
        forall k | 0 <= k < i ensures Covered(g, expandedPointers, items[k]) {
          CoveredMore(g, before, expandedPointers, items[k]);
        }
        i := i + 1;
      }
    }

    method ExpandPointer(g: Graph, v: nat)
      requires WellTyped(g) && v < |g| && Valid(g) && g[v].value.Pointer?
      modifies this
      ensures Valid(g) && v in expandedPointers && Grown(g, old(expandedPointers), expandedPointers, v)
      decreases Below(|g|) - expandedPointers, g[v].ty, 0
    {
      hide Listed, Followed, Reaches, WellTyped, Covered, IsFirst;
      PlaceTyped(g, v);
      var targets := g[v].value.targets;
      var added := AddPointer(g, v, g[v].value.address);
      if !added {
        assert expandedPointers == old(expandedPointers);
        return;
      }
      ghost var start := expandedPointers;
      assert v in Below(|g|) - old(expandedPointers) && v !in Below(|g|) - start;
      // Only the first dereference is expanded when there is nothing to find behind the others.
      var limit := |targets|;
      if limit > 1 && !ContainsPointer(g[v].value.pointee) {
        limit := 1;
      }
      NoneDirect(g, old(expandedPointers), v);
      var i := 0;
      while i < limit
        invariant 0 <= i <= limit && Listed(g, expandedPointers, pointers)
        invariant if i == 0 then expandedPointers == start && directlyReferenced == old(directlyReferenced)
                  else Direct(g, expandedPointers, directlyReferenced)
        invariant Grown(g, start, expandedPointers, v)
        invariant forall k | 0 <= k < i :: Covered(g, expandedPointers, targets[k])
      {
        ghost var before := expandedPointers;
        if i == 0 {
          AddDirectReference(targets[0]);
          OneDirect(g, old(expandedPointers), v);
        }
        Expand(g, targets[i]);
        GrownMore(g, start, before, expandedPointers, v, targets[i]);
        forall k | 0 <= k < i ensures Covered(g, expandedPointers, targets[k]) {
          CoveredMore(g, before, expandedPointers, targets[k]);
        }
        i := i + 1;
      }
      PointerFollowed(g, old(expandedPointers), expandedPointers, v, limit);
    }
  }

  lemma PlaceTyped(g: Graph, v: nat)
    requires WellTyped(g) && v < |g|
    ensures Typed(g, v)
  {
  }

  lemma NoneDirect(g: Graph, s: set<nat>, p: nat)
    requires p < |g| && g[p].value.Pointer?
    ensures g[p].value.targets == [] ==> forall v: nat :: IsFirst(g, s + {p}, v) <==> IsFirst(g, s, v)
  {
    forall v: nat ensures g[p].value.targets == [] ==> (IsFirst(g, s + {p}, v) <==> IsFirst(g, s, v)) {
      FirstMore(g, s, p, v);
    }
  }

  lemma OneDirect(g: Graph, s: set<nat>, p: nat)
    requires p < |g| && g[p].value.Pointer? && g[p].value.targets != []
    ensures forall v: nat :: IsFirst(g, s + {p}, v) <==> IsFirst(g, s, v) || v == g[p].value.targets[0]
  {
    hide IsFirst;
    forall v: nat ensures IsFirst(g, s + {p}, v) <==> IsFirst(g, s, v) || v == g[p].value.targets[0] {
      FirstMore(g, s, p, v);
    }
  }

  lemma PointerFollowed(g: Graph, s: set<nat>, t: set<nat>, v: nat, limit: nat)
    requires WellTyped(g) && v < |g| && g[v].value.Pointer? && Grown(g, s + {v}, t, v)
    requires limit <= |g[v].value.targets|
    requires limit < |g[v].value.targets| ==> !ContainsPointer(g[v].value.pointee)
    requires forall i | 0 <= i < limit :: g[v].value.targets[i] < |g| && Covered(g, t, g[v].value.targets[i])
    ensures Grown(g, s, t, v)
  {
    hide Covered, Reaches;
    var targets := g[v].value.targets;
    assert Typed(g, v);
    forall i | 0 <= i < |targets| ensures Covered(g, t, targets[i]) {
      if i >= limit {
        NothingToCover(g, t, targets[i]);
      }
    }
    assert Followed(g, t, v);
    ReachesSelf(g, v);
  }

  // ---------------------------------------------------------------- queries

  ghost predicate Sorted(list: seq<(nat, nat)>) {
    forall i, j | 0 <= i < j < |list| :: list[i].0 <= list[j].0
  }

  function Insert(e: (nat, nat), list: seq<(nat, nat)>): seq<(nat, nat)> {
    if list == [] || e.0 < list[0].0 || (e.0 == list[0].0 && e.1 <= list[0].1) then [e] + list
    else [list[0]] + Insert(e, list[1..])
  }

  /** Stands for the library's sort, by address and then by pointer. */
  function Sort(list: seq<(nat, nat)>): seq<(nat, nat)> {
    if list == [] then [] else Insert(list[0], Sort(list[1..]))
  }

  lemma {:induction false} InsertKeeps(e: (nat, nat), list: seq<(nat, nat)>)
    ensures multiset(Insert(e, list)) == multiset(list) + multiset{e}
  {
    if list != [] {
      InsertKeeps(e, list[1..]);
      assert list == [list[0]] + list[1..];
    }
  }

  lemma {:induction false} InsertSorts(e: (nat, nat), list: seq<(nat, nat)>)
    requires Sorted(list)
    ensures Sorted(Insert(e, list))
  {
    if list != [] && !(e.0 < list[0].0 || (e.0 == list[0].0 && e.1 <= list[0].1)) {
      var rest := Insert(e, list[1..]);
      InsertSorts(e, list[1..]);
      InsertKeeps(e, list[1..]);
      forall i | 0 <= i < |rest| ensures list[0].0 <= rest[i].0 {
        assert rest[i] in multiset(rest);
      }
    }
  }

  lemma {:induction false} SortSorts(list: seq<(nat, nat)>)
    ensures multiset(Sort(list)) == multiset(list) && Sorted(Sort(list))
  {
    if list != [] {
      SortSorts(list[1..]);
      InsertKeeps(list[0], Sort(list[1..]));
      InsertSorts(list[0], Sort(list[1..]));
      assert list == [list[0]] + list[1..];
    }
  }

  /** Stands for the library's lower bound: the number of leading entries with smaller addresses. */
  function LowerBound(list: seq<(nat, nat)>, address: nat): (n: nat)
    ensures n <= |list|
  {
    if list == [] || list[0].0 >= address then 0 else 1 + LowerBound(list[1..], address)
  }

  /** The linear search that the two binary searches replace. */
  function Filter(list: seq<(nat, nat)>, start: nat, end: nat): seq<(nat, nat)> {
    if list == [] then []
    else if start <= list[0].0 < end then [list[0]] + Filter(list[1..], start, end)
    else Filter(list[1..], start, end)
  }

  lemma {:induction false} FilterFinds(list: seq<(nat, nat)>, start: nat, end: nat, e: (nat, nat))
    ensures e in Filter(list, start, end) <==> e in list && start <= e.0 < end
  {
    if list != [] {
      FilterFinds(list[1..], start, end, e);
    }
  }

  lemma {:induction false} RangeIsFilter(list: seq<(nat, nat)>, start: nat, end: nat)
    requires Sorted(list) && start <= end
    ensures LowerBound(list, start) <= LowerBound(list, end)
    ensures list[LowerBound(list, start)..LowerBound(list, end)] == Filter(list, start, end)
  {
    if list != [] {
      RangeIsFilter(list[1..], start, end);
      if list[0].0 < start {
        TailRange(list, LowerBound(list[1..], start), LowerBound(list[1..], end));
      } else if list[0].0 < end {
        FirstIsNotBelow(list[1..], start, list[0].0);
        TailRange(list, 0, LowerBound(list[1..], end));
      } else {
        NoneBelow(list[1..], start, end, list[0].0);
      }
    }
  }

  lemma TailRange(list: seq<(nat, nat)>, m: nat, n: nat)
    requires list != [] && m <= n <= |list| - 1
    ensures list[m + 1..n + 1] == list[1..][m..n]
    ensures list[..n + 1] == [list[0]] + list[1..][..n]
  {
  }

  lemma FirstIsNotBelow(list: seq<(nat, nat)>, start: nat, low: nat)
    requires start <= low && forall i | 0 <= i < |list| :: low <= list[i].0
    ensures LowerBound(list, start) == 0
  {
  }

  lemma {:induction false} NoneBelow(list: seq<(nat, nat)>, start: nat, end: nat, low: nat)
    requires end <= low && forall i | 0 <= i < |list| :: low <= list[i].0
    ensures Filter(list, start, end) == []
  {
    if list != [] {
      NoneBelow(list[1..], start, end, low);
    }
  }

  // ---------------------------------------------------------------- a whole state

  ghost predicate Reachable(g: Graph, roots: seq<nat>, p: nat) {
    exists i :: 0 <= i < |roots| && Reaches(g, roots[i], p)
  }

  ghost predicate IsPointer(g: Graph, p: nat) {
    p < |g| && g[p].value.Pointer?
  }

  lemma ListedSame(g: Graph, s: set<nat>, list: seq<(nat, nat)>, sorted: seq<(nat, nat)>)
    requires Listed(g, s, list) && multiset(sorted) == multiset(list)
    ensures Listed(g, s, sorted)
  {
    assert forall e :: e in sorted <==> e in multiset(sorted);
    assert forall e :: e in list <==> e in multiset(list);
    forall i, j | 0 <= i < j < |sorted| ensures sorted[i].1 != sorted[j].1 {
      if sorted[i].1 == sorted[j].1 {
        assert sorted[i] in list && sorted[j] in list;
        Twice(sorted, i, j);
        NotTwice(list, sorted[i]);
      }
    }
  }

  lemma Twice(list: seq<(nat, nat)>, i: nat, j: nat)
    requires i < j < |list| && list[i] == list[j]
    ensures multiset(list)[list[i]] >= 2
  {
    assert list == list[..j] + [list[j]] + list[j + 1..];
    assert list[i] in list[..j];
  }

  lemma {:induction false} NotTwice(list: seq<(nat, nat)>, e: (nat, nat))
    requires forall i, j | 0 <= i < j < |list| :: list[i].1 != list[j].1
    ensures multiset(list)[e] <= 1
  {
    if list != [] {
      NotTwice(list[1..], e);
      assert list == [list[0]] + list[1..];
    }
  }

  /** The expansion of a state: it lists every pointer that the roots reach, each exactly once and with its
      address, in the order of addresses; and it knows which values a pointer refers to directly. */
  method ExpansionFrom(g: Graph, roots: seq<nat>) returns (e: ExpansionImpl)
    requires WellTyped(g) && forall i | 0 <= i < |roots| :: roots[i] < |g|
    ensures fresh(e) && Listed(g, e.expandedPointers, e.pointers) && Sorted(e.pointers)
    ensures forall p: nat :: p in e.expandedPointers <==> IsPointer(g, p) && Reachable(g, roots, p)
    ensures forall v: nat :: v in e.directlyReferenced <==> IsFirst(g, e.expandedPointers, v)
  {
    hide Followed, Reaches, WellTyped, Covered, IsFirst, Grown, Listed;
    e := new ExpansionImpl(g);
    var i := 0;
    while i < |roots|
      invariant 0 <= i <= |roots| && e.Valid(g)
      invariant forall k | 0 <= k < i :: Covered(g, e.expandedPointers, roots[k])
      invariant FollowedFrom(g, roots, e.expandedPointers)
    {
      ghost var before := e.expandedPointers;
      e.Expand(g, roots[i]);
      RootDone(g, roots, i, before, e.expandedPointers);
      i := i + 1;
    }
    AllReached(g, roots, e.expandedPointers);
    SortSorts(e.pointers);
    ListedSame(g, e.expandedPointers, e.pointers, Sort(e.pointers));
    e.pointers := Sort(e.pointers);
  }

  /** Everything collected was reached from a root and followed. */
  ghost predicate FollowedFrom(g: Graph, roots: seq<nat>, s: set<nat>)
    requires WellTyped(g)
  {
    forall p | p in s :: Followed(g, s, p) && Reachable(g, roots, p)
  }

  lemma RootDone(g: Graph, roots: seq<nat>, i: nat, s: set<nat>, t: set<nat>)
    requires WellTyped(g) && i < |roots| && roots[i] < |g| && Grown(g, s, t, roots[i]) && FollowedFrom(g, roots, s)
    ensures FollowedFrom(g, roots, t)
    ensures forall k | 0 <= k < |roots| && roots[k] < |g| && Covered(g, s, roots[k]) :: Covered(g, t, roots[k])
  {
    hide Followed, Reaches, WellTyped, Covered;
    forall p | p in t ensures Followed(g, t, p) && Reachable(g, roots, p) {
      if p in s {
        FollowedMore(g, s, t, p);
      }
    }
    forall k | 0 <= k < |roots| && roots[k] < |g| && Covered(g, s, roots[k]) ensures Covered(g, t, roots[k]) {
      CoveredMore(g, s, t, roots[k]);
    }
  }

  lemma AllReached(g: Graph, roots: seq<nat>, s: set<nat>)
    requires WellTyped(g) && FollowedFrom(g, roots, s)
    requires forall i | 0 <= i < |roots| :: roots[i] < |g| && Covered(g, s, roots[i])
    ensures forall p: nat :: p in s <==> IsPointer(g, p) && Reachable(g, roots, p)
  {
    hide WellTyped, Covered;
    forall p: nat | IsPointer(g, p) && Reachable(g, roots, p) ensures p in s {
      var i :| 0 <= i < |roots| && Reaches(g, roots[i], p);
      var path :| PathFromTo(g, path, roots[i], p);
      ReachedIsCovered(g, s, path);
      CoveredPointer(g, s, p);
    }
  }

  lemma CoveredPointer(g: Graph, s: set<nat>, p: nat)
    requires WellTyped(g) && IsPointer(g, p) && Covered(g, s, p)
    ensures p in s
  {
  }

  /** The pointers into an area, as a linear search finds them; `start` is not beyond `end`. */
  method GetReferencesOfArea(list: seq<(nat, nat)>, start: nat, end: nat) returns (r: seq<nat>)
    requires Sorted(list) && start <= end
    ensures r == Seconds(Filter(list, start, end))
  {
    RangeIsFilter(list, start, end);
    var range := list[LowerBound(list, start)..LowerBound(list, end)];
    r := [];
    var i := 0;
    while i < |range|
      invariant 0 <= i <= |range| && r == Seconds(range[..i])
    {
      r := r + [range[i].1];
      i := i + 1;
      assert Seconds(range[..i]) == Seconds(range[..i - 1]) + [range[i - 1].1];
    }
    assert range[..i] == range;
  }

  function Seconds(list: seq<(nat, nat)>): (r: seq<nat>)
    ensures |r| == |list|
  {
    seq(|list|, i requires 0 <= i < |list| => list[i].1)
  }

  method IsAreaReferenced(list: seq<(nat, nat)>, start: nat, end: nat) returns (referenced: bool)
    requires Sorted(list) && start <= end
    ensures referenced <==> exists e :: e in list && start <= e.0 < end
  {
    RangeIsFilter(list, start, end);
    referenced := LowerBound(list, start) != LowerBound(list, end);
    ghost var found := Filter(list, start, end);
    if referenced {
      FilterFinds(list, start, end, found[0]);
    } else {
      forall e | e in list ensures !(start <= e.0 < end) {
        FilterFinds(list, start, end, e);
      }
    }
  }
}
