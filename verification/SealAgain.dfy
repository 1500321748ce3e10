/** Sealing a sealed graph: when its ids, and with them the whole graph, stay as they are
    (internal/atlas/atlas.go:1217-1370). */
module SealAgain {
  import opened Ordering
  import opened Seal
  import opened SealReferences

  // ----- numbering again -----

  /** Two places at one place numbered on either side of a longer numeral. */
  ghost predicate TiedOverCarry(g: Graph) {
    exists k :: TiedAt(Numbered(g), k)
  }

  predicate TiedAt(s: seq<Place>, k: nat) {
    k + 1 < |s| && SamePlace(s[k], s[k+1]) && |Decimal(Ordinal(s, k))| != |Decimal(Ordinal(s, k + 1))|
  }

  lemma {:induction false} NextOrdinal(s: seq<Place>, k: nat)
    requires k + 1 < |s| && s[k].kind == s[k+1].kind
    ensures Ordinal(s, k + 1) == Ordinal(s, k) + 1
  {
  }

  lemma {:induction false} CompactAfter(k: Kind, m: nat, n: nat)
    ensures Less(Compact(k, m), Compact(k, n)) == Less(Decimal(m), Decimal(n))
  {
    LessAfter([Prefix(k)], Decimal(m), Decimal(n));
  }

  lemma {:induction false} CompactNext(k: Kind, n: nat)
    ensures Less(Compact(k, n), Compact(k, n + 1)) <==> |Decimal(n)| == |Decimal(n + 1)|
  {
    CompactAfter(k, n, n + 1);
    LongerDecimal(n, n + 1);
    if |Decimal(n)| == |Decimal(n + 1)| { DecimalLess(n, n + 1); } else { DecimalCarries(n); }
  }

  /** Neighbours stay in order under their new ids, but for a tie over a carry. */
  lemma {:induction false} NeighboursInOrder(g: Graph, k: nat)
    requires Sealable(g) && k + 1 < |Renumbered(g)|
    ensures Before(Renumbered(g)[k], Renumbered(g)[k+1]) <==> !TiedAt(Numbered(g), k)
  {
    NumberedBefore(g, k);
    NumberedPlace(g, k);
    NumberedPlace(g, k + 1);
    NeighboursCompare(Numbered(g), Renumbered(g)[k], Renumbered(g)[k+1], k);
  }

  lemma {:induction false} NumberedBefore(g: Graph, k: nat)
    requires Sealable(g) && k + 1 < |Numbered(g)|
    ensures Before(Numbered(g)[k], Numbered(g)[k+1])
  {
    NumberedWell(g);
  }

  lemma {:induction false} NumberedPlace(g: Graph, k: nat)
    requires Sealable(g) && k < |Numbered(g)|
    ensures Renumbered(g)[k].id == NewId(Numbered(g), k) && SamePlace(Renumbered(g)[k], Numbered(g)[k])
  {
    RenumberedIs(g, k);
  }

  lemma {:induction false} NeighboursCompare(s: seq<Place>, a: Place, b: Place, k: nat)
    requires k + 1 < |s| && Before(s[k], s[k+1])
    requires a.id == NewId(s, k) && b.id == NewId(s, k + 1) && SamePlace(a, s[k]) && SamePlace(b, s[k+1])
    ensures Before(a, b) <==> !TiedAt(s, k)
  {
    if SamePlace(s[k], s[k+1]) {
      NextOrdinal(s, k);
      CompactNext(s[k].kind, Ordinal(s, k));
    }
  }

  lemma {:induction false} NeighboursOrder(r: seq<Place>)
    requires forall k :: 0 <= k < |r| - 1 ==> Before(r[k], r[k+1])
    ensures Ordered(r, Before)
  {
    forall i, j | 0 <= i < j < |r| ensures Before(r[i], r[j]) { Chain(r, i, j); }
  }

  lemma {:induction false} Chain(r: seq<Place>, i: nat, j: nat)
    requires i < j < |r| && forall k :: 0 <= k < |r| - 1 ==> Before(r[k], r[k+1])
    ensures Before(r[i], r[j])
  {
    assert Before(r[j-1], r[j-1+1]);
    if i < j - 1 {
      Chain(r, i, j - 1);
      BeforeTransitive(r[i], r[j-1], r[j]);
    }
  }

  /** Kinds in the order of their names, and of each kind by number. */
  predicate ByNumber(a: Place, b: Place) {
    if a.kind != b.kind then KindRank(a.kind) < KindRank(b.kind) else a.id != "" && b.id != "" && NumberLess(a.id, b.id)
  }

  predicate NumberLess(a: string, b: string)
    requires a != "" && b != ""
  {
    var m, n := Atoi(a[1..]), Atoi(b[1..]);
    m.Some? && n.Some? && m.value < n.value
  }

  lemma {:induction false} KeptByNumber(s: seq<Place>)
    requires KeepsIds(s) && forall i, j :: 0 <= i < j < |s| ==> KindRank(s[i].kind) <= KindRank(s[j].kind)
    ensures Ordered(s, ByNumber)
  {
    forall i, j | 0 <= i < j < |s| ensures ByNumber(s[i], s[j]) {
      if s[i].kind == s[j].kind {
        CountsDiffer(s, i, j);
        var m, n := Ordinal(s, i), Ordinal(s, j);
        assert s[i].id[1..] == Decimal(m) && s[j].id[1..] == Decimal(n);
        AtoiDecimal(m);
        AtoiDecimal(n);
      }
    }
  }

  lemma {:induction false} OrderedByKind(s: seq<Place>)
    requires Ordered(s, Before)
    ensures forall i, j :: 0 <= i < j < |s| ==> KindRank(s[i].kind) <= KindRank(s[j].kind)
  {
    forall i, j | 0 <= i < j < |s| ensures KindRank(s[i].kind) <= KindRank(s[j].kind) { assert Before(s[i], s[j]); }
  }

  lemma {:induction false} RenumberedByNumber(g: Graph)
    requires Sealable(g)
    ensures KeepsIds(Renumbered(g)) && Ordered(Renumbered(g), ByNumber)
  {
    var s, r := Numbered(g), Renumbered(g);
    NumberedWell(g);
    OrderedByKind(s);
    forall k | 0 <= k < |r| ensures r[k].id == NewId(r, k) && r[k].kind == s[k].kind { RenumberedIs(g, k); }
    KeptByNumber(r);
  }

  lemma {:induction false} SealedAgain(g: Graph)
    requires Sealable(g)
    ensures SealOf(g).Sealed? && multiset(Numbered(SealOf(g).graph)) == multiset(Renumbered(g))
    ensures Ordered(Numbered(SealOf(g).graph), Before)
  {
    SealsTo(g);
    var h := SealOf(g).graph;
    SortedKeeps(Renumbered(g), PlaceLess);
    SortedKeeps(h.places, Before);
    SealedInOrder(g);
    BeforeTotal(h.places);
    SortedOrders(h.places, Before);
  }

  lemma {:induction false} UntiedKeeps(g: Graph, t: seq<Place>)
    requires Sealable(g) && !TiedOverCarry(g) && multiset(t) == multiset(Renumbered(g)) && Ordered(t, Before)
    ensures t == Renumbered(g)
  {
    var r := Renumbered(g);
    forall k | 0 <= k < |r| - 1 ensures Before(r[k], r[k+1]) { NeighboursInOrder(g, k); }
    NeighboursOrder(r);
    forall x, y | x in t && y in t && Before(x, y) ensures !Before(y, x) { BeforeOneWay(x, y); }
    OneOrder(t, r, Before);
  }

  lemma {:induction false} KeepingIsSame(g: Graph, t: seq<Place>)
    requires Sealable(g) && KeepsIds(t) && multiset(t) == multiset(Renumbered(g)) && Ordered(t, Before)
    ensures t == Renumbered(g)
  {
    RenumberedByNumber(g);
    OrderedByKind(t);
    KeptByNumber(t);
    OneOrder(t, Renumbered(g), ByNumber);
  }

  lemma {:induction false} TiedUnordered(g: Graph)
    requires Sealable(g) && TiedOverCarry(g)
    ensures !Ordered(Renumbered(g), Before)
  {
    var k :| TiedAt(Numbered(g), k);
    NeighboursInOrder(g, k);
  }

  lemma {:induction false} TiedLoses(g: Graph, t: seq<Place>)
    requires Sealable(g) && TiedOverCarry(g) && multiset(t) == multiset(Renumbered(g)) && Ordered(t, Before)
    ensures !KeepsIds(t)
  {
    TiedUnordered(g);
    if KeepsIds(t) { KeepingIsSame(g, t); }
  }

  /** Numbering a sealed graph again gives every place the id it has exactly when no two places that
      share kind, path, line and column are numbered on either side of a longer numeral: ids are
      compared as text there, and s10 stands before s9. */
  lemma {:induction false} NumberingAgainKeeps(g: Graph)
    requires Sealable(g)
    ensures SealOf(g).Sealed?
    ensures KeepsIds(Numbered(SealOf(g).graph)) <==> !TiedOverCarry(g)
  {
    SealedAgain(g);
    RenumberedKeeps(g);
    if TiedOverCarry(g) { TiedLoses(g, Numbered(SealOf(g).graph)); } else { UntiedKeeps(g, Numbered(SealOf(g).graph)); }
  }

  // ----- sealing again -----

  lemma {:induction false} KeyNoId(p: Place, k: Kind, n: nat)
    ensures SourceKey(p) != Some(Compact(k, n))
  {
    DecimalDigits(n);
    assert Compact(k, n)[1] == Decimal(n)[0];
    if SourceKey(p).Some? { assert SourceKey(p).value[1] in {'i', 'y'}; }
  }

  /** A sealed graph can be sealed: its ids are distinct, and none is a source key. */
  lemma {:induction false} SealedSealable(g: Graph)
    requires Sealable(g)
    ensures SealOf(g).Sealed? && Sealable(SealOf(g).graph)
  {
    SealedInOrder(g);
    var places := SealOf(g).graph.places;
    forall i, j | 0 <= i < |places| && 0 <= j < |places| ensures SourceKey(places[i]) != Some(places[j].id) {
      KeyNoId(places[i], places[j].kind, Atoi(places[j].id[1..]).value);
    }
  }

  lemma {:induction false} FixedIsKept(h: Graph)
    requires Sealable(h)
    ensures (forall p :: p in h.places ==> NewRef(h, p.id) == p.id) <==> KeepsIds(Numbered(h))
  {
    var s := Numbered(h);
    forall k | 0 <= k < |s| ensures s[k] in h.places && NewRef(h, s[k].id) == NewId(s, k) { NumberedIn(h, k); }
    if KeepsIds(s) {
      forall p | p in h.places ensures NewRef(h, p.id) == p.id { var k := PlaceAt(h, p); }
    }
  }

  /** Sealing a sealed graph succeeds, and changes no place's id exactly when no two places that
      share kind, path, line and column are numbered on either side of a longer numeral. */
  lemma {:induction false} SealingAgainKeepsIds(g: Graph)
    requires Sealable(g)
    ensures SealOf(g).Sealed? && Sealable(SealOf(g).graph) && SealOf(SealOf(g).graph).Sealed?
    ensures (forall p :: p in SealOf(g).graph.places ==> NewRef(SealOf(g).graph, p.id) == p.id) <==> !TiedOverCarry(g)
  {
    SealedSealable(g);
    SealsTo(SealOf(g).graph);
    FixedIsKept(SealOf(g).graph);
    NumberingAgainKeeps(g);
  }

  // ----- the whole graph -----

  lemma {:induction false} RenumberedKey(g: Graph, k: nat)
    requires Sealable(g) && k < |Numbered(g)|
    ensures SourceKey(Renumbered(g)[k]) == SourceKey(Numbered(g)[k])
  {
    RenumberedIs(g, k);
  }

  /** What resolves in a sealed graph is an id it gave, or resolved before. */
  lemma {:induction false} ResolvesBefore(g: Graph, ref: string)
    requires Sealable(g) && SealOf(g).Sealed? && Resolves(SealOf(g).graph, ref)
    ensures HasPlace(SealOf(g).graph, ref) || Resolves(g, ref)
  {
    var q :| q in SealOf(g).graph.places && (q.id == ref || SourceKey(q) == Some(ref));
    if q.id != ref {
      SealedMembers(g);
      var i :| 0 <= i < |Renumbered(g)| && Renumbered(g)[i] == q;
      RenumberedKey(g, i);
      NumberedIn(g, i);
    }
  }

  /** What sealing makes of a reference it leaves alone the second time. */
  lemma {:induction false} ReferenceStays(g: Graph, ref: string)
    requires Sealable(g) && !TiedOverCarry(g)
    ensures SealOf(g).Sealed? && NewRef(SealOf(g).graph, NewRef(g, ref)) == NewRef(g, ref)
  {
    SealingAgainKeepsIds(g);
    var h, became := SealOf(g).graph, NewRef(g, ref);
    SealedNames(g, ref);
    if HasPlace(h, became) { var q :| q in h.places && q.id == became; }
    else {
      UnresolvedStays(g, ref);
      if Resolves(h, ref) { ResolvesBefore(g, ref); }
      UnresolvedStays(h, became);
    }
  }

  lemma {:induction false} IdLessOneWay(u: string, v: string)
    requires PlaceIdLess(u, v)
    ensures !PlaceIdLess(v, u)
  {
    if Less(u, v) { LessAsymmetric(u, v); }
  }

  lemma {:induction false} IdsSortedAgain(ids: seq<string>)
    ensures Sorted(Sorted(ids, PlaceIdLess), PlaceIdLess) == Sorted(ids, PlaceIdLess)
  {
    forall u, v | PlaceIdLess(u, v) ensures !PlaceIdLess(v, u) { IdLessOneWay(u, v); }
    SortedAgain(ids, PlaceIdLess);
  }

  /** Mapping and sorting a list again changes nothing in it where mapping again changes no element. */
  lemma {:induction false} ListAgain(before: map<string, string>, again: map<string, string>, ids: seq<string>)
    requires forall k :: 0 <= k < |ids| ==> MapId(again, MapId(before, ids[k])) == MapId(before, ids[k])
    ensures MapIds(again, MapIds(before, ids)) == MapIds(before, ids)
    ensures SortedIds(again, SortedIds(before, ids)) == SortedIds(before, ids)
  {
    var mapped := MapIds(before, ids);
    FixedList(again, mapped);
    SortedKeeps(mapped, PlaceIdLess);
    KeptMembers(Sorted(mapped, PlaceIdLess), mapped);
    FixedList(again, Sorted(mapped, PlaceIdLess));
    IdsSortedAgain(mapped);
  }

  lemma {:induction false} FixedList(remap: map<string, string>, ids: seq<string>)
    requires forall id :: id in ids ==> MapId(remap, id) == id
    ensures MapIds(remap, ids) == ids
  {
  }

  lemma {:induction false} ListStays(g: Graph, ids: seq<string>)
    requires Sealable(g) && !TiedOverCarry(g)
    ensures SealOf(g).Sealed?
    ensures var before, again := Remap(Numbered(g)), Remap(Numbered(SealOf(g).graph));
            && MapIds(again, MapIds(before, ids)) == MapIds(before, ids)
            && SortedIds(again, SortedIds(before, ids)) == SortedIds(before, ids)
  {
    SealsTo(g);
    var before, again := Remap(Numbered(g)), Remap(Numbered(SealOf(g).graph));
    forall k | 0 <= k < |ids| ensures MapId(again, MapId(before, ids[k])) == MapId(before, ids[k]) {
      ReferenceStays(g, ids[k]);
    }
    ListAgain(before, again, ids);
  }

  lemma {:induction false} EdgeLessOneWay(a: Edge, b: Edge)
    requires EdgeLess(a, b)
    ensures !EdgeLess(b, a)
  {
    if a.from != b.from { IdLessOneWay(a.from, b.from); }
    else if a.to != b.to { IdLessOneWay(a.to, b.to); }
    else { LessAsymmetric(a.kind, b.kind); }
  }

  lemma {:induction false} EdgesAgain(before: map<string, string>, again: map<string, string>, edges: seq<Edge>)
    requires forall k :: 0 <= k < |edges| ==>
             RenamedEdge(again, RenamedEdge(before, edges[k])) == RenamedEdge(before, edges[k])
    ensures var sealed := Sorted(RenamedEdges(before, edges), EdgeLess);
            Sorted(RenamedEdges(again, sealed), EdgeLess) == sealed
  {
    var renamed := RenamedEdges(before, edges);
    var sealed := Sorted(renamed, EdgeLess);
    SortedKeeps(renamed, EdgeLess);
    KeptMembers(sealed, renamed);
    forall k | 0 <= k < |sealed| ensures RenamedEdge(again, sealed[k]) == sealed[k] {
      assert sealed[k] in renamed;
      var j :| 0 <= j < |renamed| && renamed[j] == sealed[k];
    }
    assert RenamedEdges(again, sealed) == sealed;
    forall a, b | EdgeLess(a, b) ensures !EdgeLess(b, a) { EdgeLessOneWay(a, b); }
    SortedAgain(renamed, EdgeLess);
  }

  lemma {:induction false} PlaceStays(g: Graph, p: Place)
    requires Sealable(g) && !TiedOverCarry(g)
    ensures SealOf(g).Sealed?
    ensures var q := Renamed(Remap(Numbered(g)), p); Renamed(Remap(Numbered(SealOf(g).graph)), q) == q
  {
    ReferenceStays(g, p.id);
    ReferenceStays(g, p.parent);
    ListStays(g, p.callers);
    ListStays(g, p.callees);
    ListStays(g, p.related);
  }

  lemma {:induction false} PlacesStay(g: Graph)
    requires Sealable(g) && !TiedOverCarry(g)
    ensures SealOf(g).Sealed? && Renumbered(SealOf(g).graph) == Renumbered(g)
  {
    SealedAgain(g);
    UntiedKeeps(g, Numbered(SealOf(g).graph));
    var s, again := Numbered(g), Renumbered(SealOf(g).graph);
    forall k | 0 <= k < |s| ensures again[k] == Renumbered(g)[k] { PlaceStays(g, s[k]); }
  }

  lemma {:induction false} EdgesStay(g: Graph)
    requires Sealable(g) && !TiedOverCarry(g)
    ensures SealOf(g).Sealed?
    ensures var h := SealOf(g).graph; Sorted(RenamedEdges(Remap(Numbered(h)), h.edges), EdgeLess) == h.edges
  {
    SealsTo(g);
    var before, again := Remap(Numbered(g)), Remap(Numbered(SealOf(g).graph));
    forall k | 0 <= k < |g.edges|
      ensures RenamedEdge(again, RenamedEdge(before, g.edges[k])) == RenamedEdge(before, g.edges[k])
    {
      ReferenceStays(g, g.edges[k].from);
      ReferenceStays(g, g.edges[k].to);
    }
    EdgesAgain(before, again, g.edges);
  }

  /** Without such a tie sealing a sealed graph changes nothing in it. */
  lemma {:induction false} SealingAgainSame(g: Graph)
    requires Sealable(g) && !TiedOverCarry(g)
    ensures SealOf(g).Sealed? && SealOf(SealOf(g).graph) == SealOf(g)
  {
    SealedSealable(g);
    SealsTo(g);
    SealsTo(SealOf(g).graph);
    PlacesStay(g);
    EdgesStay(g);
    ListStays(g, g.seeds);
    ListStays(g, g.seedDecls);
  }

  // ----- sealing again and again -----

  /** Where a place stands, and nothing else of it. */
  function Shape(p: Place): Place {
    Place("", p.kind, p.path, p.line, p.column, None, "", [], [], [])
  }

  function Shapes(s: seq<Place>): (r: seq<Place>)
    ensures |r| == |s| && forall k :: 0 <= k < |s| ==> r[k] == Shape(s[k])
  {
    seq(|s|, k requires 0 <= k < |s| => Shape(s[k]))
  }

  lemma {:induction false} ShapesWithout(s: seq<Place>, i: nat, rest: seq<Place>)
    requires i < |s| && rest == s[..i] + s[i+1..]
    ensures multiset(s) == multiset(rest) + multiset{s[i]}
    ensures multiset(Shapes(s)) == multiset(Shapes(rest)) + multiset{Shape(s[i])}
  {
    Without(s, i);
    assert Shapes(rest) == Shapes(s)[..i] + Shapes(s)[i+1..];
    Without(Shapes(s), i);
  }

  lemma {:induction false} FoundAt(s: seq<Place>, p: Place) returns (j: nat)
    requires p in multiset(s)
    ensures j < |s| && s[j] == p
  {
    assert p in s;
    j :| 0 <= j < |s| && s[j] == p;
  }

  lemma {:induction false} ShapesPermuted(a: seq<Place>, b: seq<Place>)
    requires multiset(a) == multiset(b)
    ensures multiset(Shapes(a)) == multiset(Shapes(b))
    decreases |a|
  {
    if a == [] {
      assert |multiset(b)| == 0;
      assert Shapes(a) == Shapes(b);
    } else {
      var p := a[0];
      assert p in multiset(a);
      var j := FoundAt(b, p);
      var c, d := a[..0] + a[1..], b[..j] + b[j+1..];
      ShapesWithout(a, 0, c);
      ShapesWithout(b, j, d);
      assert multiset(c) == multiset(a) - multiset{p};
      assert multiset(d) == multiset(b) - multiset{p};
      ShapesPermuted(c, d);
    }
  }

  lemma {:induction false} ShapesSettled(s: seq<Place>)
    requires Ordered(s, Before)
    ensures Settled(Shapes(s), Precedes)
  {
    var r := Shapes(s);
    forall i, j | 0 <= i < j < |r| ensures !Precedes(r[j], r[i]) {
      assert Before(s[i], s[j]);
      PrecedesOneWay(r[i], r[j]);
    }
  }

  lemma {:induction false} SameShapes(s: seq<Place>, t: seq<Place>)
    requires Ordered(s, Before) && Ordered(t, Before) && multiset(Shapes(s)) == multiset(Shapes(t))
    ensures Shapes(s) == Shapes(t)
  {
    ShapesSettled(s);
    ShapesSettled(t);
    forall x, y | x in Shapes(s) && y in Shapes(s) && !Precedes(x, y) && !Precedes(y, x) ensures x == y {
      PrecedesOneWay(x, y);
    }
    forall x | x in Shapes(s) ensures !Precedes(x, x) { PrecedesOneWay(x, x); }
    OneSettled(Shapes(s), Shapes(t), Precedes);
  }

  lemma {:induction false} SealedShapes(g: Graph)
    requires Sealable(g)
    ensures SealOf(g).Sealed? && Shapes(Numbered(SealOf(g).graph)) == Shapes(Numbered(g))
  {
    SealedAgain(g);
    NumberedWell(g);
    var s, r, t := Numbered(g), Renumbered(g), Numbered(SealOf(g).graph);
    ShapesPermuted(t, r);
    forall k | 0 <= k < |s| ensures Shape(r[k]) == Shape(s[k]) { NumberedPlace(g, k); }
    assert Shapes(r) == Shapes(s);
    SameShapes(s, t);
  }

  lemma {:induction false} TiedAlike(s: seq<Place>, t: seq<Place>, k: nat)
    requires Shapes(s) == Shapes(t)
    ensures TiedAt(s, k) == TiedAt(t, k)
  {
    forall i | 0 <= i < |s| ensures SamePlace(s[i], t[i]) { assert Shapes(s)[i] == Shapes(t)[i]; }
    if k + 1 < |s| {
      CountSame(s, t, s[k].kind, k + 1);
      CountSame(s, t, s[k+1].kind, k + 2);
    }
  }

  /** Sealing does away with no such tie and makes none: a graph whose ids the second seal changes has
      ids changed by every later one too. */
  lemma {:induction false} TiesStay(g: Graph)
    requires Sealable(g)
    ensures SealOf(g).Sealed? && (TiedOverCarry(SealOf(g).graph) <==> TiedOverCarry(g))
  {
    SealedShapes(g);
    var s, t := Numbered(g), Numbered(SealOf(g).graph);
    if TiedOverCarry(g) {
      var k :| TiedAt(s, k);
      TiedAlike(s, t, k);
    }
    if TiedOverCarry(SealOf(g).graph) {
      var k :| TiedAt(t, k);
      TiedAlike(s, t, k);
    }
  }

  /** The graph after so many seals. */
  function SealedTimes(g: Graph, n: nat): Result {
    if n == 0 then Sealed(g)
    else
      var before := SealedTimes(g, n - 1);
      if before.Sealed? then SealOf(before.graph) else before
  }

  lemma {:induction false} TimesSealable(g: Graph, n: nat)
    requires Sealable(g)
    ensures var r := SealedTimes(g, n); r.Sealed? && Sealable(r.graph) && (TiedOverCarry(r.graph) <==> TiedOverCarry(g))
  {
    if n > 0 {
      TimesSealable(g, n - 1);
      SealedSealable(SealedTimes(g, n - 1).graph);
      TiesStay(SealedTimes(g, n - 1).graph);
    }
  }

  /** From the second seal on either none changes anything or each changes some id. */
  lemma {:induction false} SettledOrNever(g: Graph, n: nat)
    requires Sealable(g)
    ensures SealedTimes(g, n + 1).Sealed? && SealedTimes(g, n + 2).Sealed?
    ensures !TiedOverCarry(g) ==> SealedTimes(g, n + 2) == SealedTimes(g, n + 1)
    ensures TiedOverCarry(g) ==>
      var h := SealedTimes(g, n + 1).graph; exists p :: p in h.places && NewRef(h, p.id) != p.id
  {
    TimesSealable(g, n);
    TimesSealable(g, n + 1);
    var f := SealedTimes(g, n).graph;
    SealingAgainKeepsIds(f);
    if !TiedOverCarry(g) { SealingAgainSame(f); }
  }
}
