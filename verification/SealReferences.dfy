/** What the references of a sealed graph mean: ids and source keys lead to the new ids, what names
    no place stays as it is, and edges keep their order (internal/atlas/atlas.go:1264-1369). */
module SealReferences {
  import opened Ordering
  import opened Seal

  // ----- what a reference names -----

  /** No place numbered after p is known by the key. */
  ghost predicate LastKnown(g: Graph, key: string, p: Place) {
    forall q :: q in g.places && SourceKey(q) == Some(key) ==> q == p || Before(q, p)
  }

  /** The reference is the place's id, or the source key of which it is the last place. */
  ghost predicate Names(g: Graph, ref: string, p: Place) {
    p in g.places && (p.id == ref || (SourceKey(p) == Some(ref) && LastKnown(g, ref, p)))
  }

  ghost predicate Resolves(g: Graph, ref: string) {
    exists p :: p in g.places && (p.id == ref || SourceKey(p) == Some(ref))
  }

  /** What sealing makes of a reference. */
  function NewRef(g: Graph, ref: string): string {
    MapId(Remap(Numbered(g)), ref)
  }

  lemma {:induction false} PlaceAt(g: Graph, p: Place) returns (k: nat)
    requires Sealable(g) && p in g.places
    ensures k < |Numbered(g)| && Numbered(g)[k] == p && p.id != ""
    ensures NewRef(g, p.id) == NewId(Numbered(g), k)
  {
    var s := Numbered(g);
    NumberedWell(g);
    KeptMembers(s, g.places);
    k :| 0 <= k < |s| && s[k] == p;
    OwnNumbers(s, k);
  }

  lemma {:induction false} NumberedIn(g: Graph, k: nat)
    requires Sealable(g) && k < |Numbered(g)|
    ensures Numbered(g)[k] in g.places && NewRef(g, Numbered(g)[k].id) == NewId(Numbered(g), k)
  {
    var s := Numbered(g);
    NumberedWell(g);
    KeptMembers(s, g.places);
    assert s[k] in s;
    OwnNumbers(s, k);
  }

  lemma {:induction false} OnePlace(g: Graph, p: Place, q: Place)
    requires Sealable(g) && p in g.places && q in g.places && NewRef(g, p.id) == NewRef(g, q.id)
    ensures p == q
  {
    var i := PlaceAt(g, p);
    var j := PlaceAt(g, q);
    NewIdsDiffer(Numbered(g), i, j);
  }

  lemma {:induction false} KeyGiven(p: Place)
    ensures SourceKey(p) != Some("")
  {
  }

  /** The last place known by a key is what the key leads to. */
  lemma {:induction false} KeyedLast(places: seq<Place>, n: nat, k: nat, key: string)
    requires Distinct(places) && Unambiguous(places) && k < n <= |places| && SourceKey(places[k]) == Some(key)
    requires forall t :: k < t < n ==> SourceKey(places[t]) != Some(key)
    ensures key in Keyed(places, n) && Keyed(places, n)[key] == NewId(places, k)
  {
    if k == n - 1 {
      KeyedKeeps(places, 0, k, k);
      OwnIs(places, |places|, k);
    } else {
      KeyedLast(places, n - 1, k, key);
    }
  }

  lemma {:induction false} LastInOrder(g: Graph, key: string, k: nat, t: nat)
    requires Sealable(g) && k < t < |Numbered(g)| && LastKnown(g, key, Numbered(g)[k])
    ensures SourceKey(Numbered(g)[t]) != Some(key)
  {
    var s := Numbered(g);
    NumberedWell(g);
    NumberedIn(g, t);
    assert s[k].id != s[t].id && Before(s[k], s[t]);
    BeforeOneWay(s[k], s[t]);
  }

  lemma {:induction false} NamesFollow(g: Graph, ref: string, p: Place)
    requires Sealable(g) && Names(g, ref, p)
    ensures NewRef(g, ref) == NewRef(g, p.id)
  {
    var s := Numbered(g);
    var k := PlaceAt(g, p);
    if p.id != ref {
      NumberedWell(g);
      forall t | k < t < |s| ensures SourceKey(s[t]) != Some(ref) { LastInOrder(g, ref, k, t); }
      KeyedLast(s, |s|, k, ref);
      KeyGiven(p);
    }
  }

  lemma {:induction false} LastWith(s: seq<Place>, key: string, n: nat) returns (k: nat)
    requires n <= |s| && exists i :: 0 <= i < n && SourceKey(s[i]) == Some(key)
    ensures k < n && SourceKey(s[k]) == Some(key)
    ensures forall t :: k < t < n ==> SourceKey(s[t]) != Some(key)
  {
    if SourceKey(s[n-1]) == Some(key) { k := n - 1; } else { k := LastWith(s, key, n - 1); }
  }

  lemma {:induction false} KeyNames(g: Graph, key: string, p: Place) returns (q: Place)
    requires Sealable(g) && p in g.places && SourceKey(p) == Some(key)
    ensures Names(g, key, q) && SourceKey(q) == Some(key) && LastKnown(g, key, q)
  {
    var s := Numbered(g);
    var i := PlaceAt(g, p);
    var k := LastWith(s, key, |s|);
    q := s[k];
    NumberedIn(g, k);
    NumberedWell(g);
    forall o | o in g.places && SourceKey(o) == Some(key) ensures o == q || Before(o, q) {
      var j := PlaceAt(g, o);
      assert j <= k;
    }
  }

  lemma {:induction false} ResolvesNames(g: Graph, ref: string) returns (p: Place)
    requires Sealable(g) && Resolves(g, ref)
    ensures Names(g, ref, p)
  {
    p :| p in g.places && (p.id == ref || SourceKey(p) == Some(ref));
    if p.id != ref { p := KeyNames(g, ref, p); }
  }

  /** A source key leads to a place's new id exactly when no place numbered later is known by it. */
  lemma {:induction false} SourceKeyFollows(g: Graph, p: Place, key: string)
    requires Sealable(g) && p in g.places && SourceKey(p) == Some(key)
    ensures NewRef(g, key) == NewRef(g, p.id) <==> LastKnown(g, key, p)
  {
    if LastKnown(g, key, p) { NamesFollow(g, key, p); }
    else {
      var q := KeyNames(g, key, p);
      NamesFollow(g, key, q);
      if NewRef(g, q.id) == NewRef(g, p.id) { OnePlace(g, p, q); }
    }
  }

  lemma {:induction false} KeyedDomain(places: seq<Place>, n: nat, id: string)
    requires n <= |places| && id in Keyed(places, n)
    ensures exists k :: 0 <= k < |places| && (places[k].id == id || SourceKey(places[k]) == Some(id))
  {
    if n == 0 { OwnDomain(places, |places|, id); }
    else if SourceKey(places[n-1]) != Some(id) { KeyedDomain(places, n - 1, id); }
  }

  lemma {:induction false} OwnDomain(places: seq<Place>, n: nat, id: string)
    requires n <= |places| && id in Own(places, n)
    ensures exists k :: 0 <= k < n && places[k].id == id
  {
    if places[n-1].id != id { OwnDomain(places, n - 1, id); }
  }

  lemma {:induction false} RemapResolves(g: Graph, ref: string)
    requires ref in Remap(Numbered(g))
    ensures Resolves(g, ref)
  {
    var s := Numbered(g);
    KeyedDomain(s, |s|, ref);
    var k :| 0 <= k < |s| && (s[k].id == ref || SourceKey(s[k]) == Some(ref));
    SortedKeeps(g.places, Before);
    KeptMembers(s, g.places);
    assert s[k] in s;
  }

  /** What names no place is left as it is. */
  lemma {:induction false} UnresolvedStays(g: Graph, ref: string)
    requires !Resolves(g, ref)
    ensures NewRef(g, ref) == ref
  {
    if ref in Remap(Numbered(g)) { RemapResolves(g, ref); }
  }

  // ----- places and lists -----

  lemma {:induction false} RenamedIn(g: Graph, p: Place)
    requires Sealable(g) && p in g.places
    ensures Renamed(Remap(Numbered(g)), p) in Sorted(Renumbered(g), PlaceLess)
  {
    var r := Renumbered(g);
    var k := PlaceAt(g, p);
    assert r[k] in r;
    SortedKeeps(r, PlaceLess);
    KeptMembers(Sorted(r, PlaceLess), r);
  }

  lemma {:induction false} OneWithId(g: Graph, p: Place, q: Place)
    requires Sealable(g) && p in g.places && SealOf(g).Sealed? && q in SealOf(g).graph.places && q.id == NewRef(g, p.id)
    ensures q == Renamed(Remap(Numbered(g)), p)
  {
    SealsTo(g);
    SealedInOrder(g);
    RenamedIn(g, p);
    var places, mine := SealOf(g).graph.places, Renamed(Remap(Numbered(g)), p);
    var j :| 0 <= j < |places| && places[j] == q;
    var k :| 0 <= k < |places| && places[k] == mine;
    SameIndex(places, j, k);
  }

  /** Each list refers to the same places as before, each as often. */
  ghost predicate Follows(g: Graph, ids: seq<string>, sealed: seq<string>) {
    multiset(sealed) == multiset(MapIds(Remap(Numbered(g)), ids))
  }

  /** What referred to a place, by its id or by a source key, refers to the same place by its new id:
      it is the one place with that id; it has the place's kind, path, line, column and name, and its
      own references follow in turn. */
  lemma {:induction false} ReferencesFollow(g: Graph, ref: string, p: Place)
    requires Sealable(g) && Names(g, ref, p)
    ensures SealOf(g).Sealed?
    ensures exists q :: q in SealOf(g).graph.places && q.id == NewRef(g, ref)
    ensures forall q :: q in SealOf(g).graph.places && q.id == NewRef(g, ref) ==>
      && SamePlace(q, p) && q.name == p.name && q.parent == NewRef(g, p.parent)
      && Follows(g, p.callers, q.callers) && Follows(g, p.callees, q.callees)
      && q.related == MapIds(Remap(Numbered(g)), p.related)
  {
    var remap := Remap(Numbered(g));
    SealsTo(g);
    NamesFollow(g, ref, p);
    RenamedIn(g, p);
    assert Renamed(remap, p).id == NewRef(g, ref);
    SortedKeeps(MapIds(remap, p.callers), PlaceIdLess);
    SortedKeeps(MapIds(remap, p.callees), PlaceIdLess);
    forall q | q in SealOf(g).graph.places && q.id == NewRef(g, ref) ensures q == Renamed(remap, p) {
      OneWithId(g, p, q);
    }
  }

  /** The seeds follow too. */
  lemma {:induction false} SeedsFollow(g: Graph)
    requires Sealable(g)
    ensures SealOf(g).Sealed?
    ensures Follows(g, g.seeds, SealOf(g).graph.seeds) && Follows(g, g.seedDecls, SealOf(g).graph.seedDecls)
  {
    SealsTo(g);
    SortedKeeps(MapIds(Remap(Numbered(g)), g.seeds), PlaceIdLess);
    SortedKeeps(MapIds(Remap(Numbered(g)), g.seedDecls), PlaceIdLess);
  }

  // ----- the order of new ids -----

  ghost predicate IsCompact(id: string) {
    exists k, n :: id == Compact(k, n)
  }

  lemma {:induction false} ResolvedCompact(g: Graph, ref: string)
    requires Sealable(g) && Resolves(g, ref)
    ensures IsCompact(NewRef(g, ref))
  {
    var p := ResolvesNames(g, ref);
    NamesFollow(g, ref, p);
    var k := PlaceAt(g, p);
  }

  lemma {:induction false} CompactTotal(a: string, b: string)
    requires IsCompact(a) && IsCompact(b)
    ensures PlaceIdLess(a, b) ==> !PlaceIdLess(b, a)
    ensures !PlaceIdLess(a, b) && !PlaceIdLess(b, a) <==> a == b
  {
    var j, m :| a == Compact(j, m);
    var k, n :| b == Compact(k, n);
    CompactLess(j, m, k, n);
    CompactLess(k, n, j, m);
  }

  lemma {:induction false} CompactTransitive(a: string, b: string, c: string)
    requires IsCompact(a) && IsCompact(b) && IsCompact(c) && PlaceIdLess(a, b) && PlaceIdLess(b, c)
    ensures PlaceIdLess(a, c)
  {
    var j, m :| a == Compact(j, m);
    var k, n :| b == Compact(k, n);
    var l, o :| c == Compact(l, o);
    CompactLess(j, m, k, n);
    CompactLess(k, n, l, o);
    CompactLess(j, m, l, o);
  }

  lemma {:induction false} CompactBetween(a: string, b: string, c: string)
    requires IsCompact(a) && IsCompact(b) && IsCompact(c) && !PlaceIdLess(a, b) && !PlaceIdLess(b, c)
    ensures !PlaceIdLess(a, c)
  {
    CompactTotal(a, b);
    CompactTotal(b, c);
    CompactTotal(a, c);
    if a != b && b != c { CompactTransitive(c, b, a); }
  }

  /** A list all of whose references name places is in the order of the new ids. */
  lemma {:induction false} ListSettles(g: Graph, ids: seq<string>)
    requires Sealable(g) && forall id :: id in ids ==> Resolves(g, id)
    ensures Settled(SortedIds(Remap(Numbered(g)), ids), PlaceIdLess)
  {
    var mapped := MapIds(Remap(Numbered(g)), ids);
    forall id | id in mapped ensures IsCompact(id) {
      var k :| 0 <= k < |mapped| && mapped[k] == id;
      assert ids[k] in ids;
      ResolvedCompact(g, ids[k]);
    }
    forall u, v | u in mapped && v in mapped && PlaceIdLess(u, v) ensures !PlaceIdLess(v, u) { CompactTotal(u, v); }
    forall u, v, w | u in mapped && v in mapped && w in mapped && !PlaceIdLess(u, v) && !PlaceIdLess(v, w)
      ensures !PlaceIdLess(u, w) { CompactBetween(u, v, w); }
    SortedSettles(mapped, PlaceIdLess);
  }

  // ----- edges -----

  predicate SameEnds(a: Edge, b: Edge) {
    a.from == b.from && a.to == b.to && a.kind == b.kind
  }

  ghost predicate CompactEnds(e: Edge) {
    IsCompact(e.from) && IsCompact(e.to)
  }

  lemma {:induction false} EdgeTotal(a: Edge, b: Edge)
    requires CompactEnds(a) && CompactEnds(b)
    ensures EdgeLess(a, b) ==> !EdgeLess(b, a)
    ensures !EdgeLess(a, b) && !EdgeLess(b, a) <==> SameEnds(a, b)
  {
    CompactTotal(a.from, b.from);
    CompactTotal(a.to, b.to);
    LessTotal(a.kind, b.kind);
    if Less(a.kind, b.kind) { LessAsymmetric(a.kind, b.kind); }
    if Less(b.kind, a.kind) { LessAsymmetric(b.kind, a.kind); }
  }

  lemma {:induction false} EdgeTransitive(a: Edge, b: Edge, c: Edge)
    requires CompactEnds(a) && CompactEnds(b) && CompactEnds(c) && EdgeLess(a, b) && EdgeLess(b, c)
    ensures EdgeLess(a, c)
  {
    CompactTotal(a.from, b.from);
    CompactTotal(a.to, b.to);
    if a.from != b.from && b.from != c.from { CompactTransitive(a.from, b.from, c.from); CompactTotal(a.from, c.from); }
    else if a.from == b.from == c.from {
      if a.to != b.to && b.to != c.to { CompactTransitive(a.to, b.to, c.to); CompactTotal(a.to, c.to); }
      else if a.to == b.to == c.to { LessTransitive(a.kind, b.kind, c.kind); }
    }
  }

  lemma {:induction false} EdgeBetween(a: Edge, b: Edge, c: Edge)
    requires CompactEnds(a) && CompactEnds(b) && CompactEnds(c) && !EdgeLess(a, b) && !EdgeLess(b, c)
    ensures !EdgeLess(a, c)
  {
    EdgeTotal(a, b);
    EdgeTotal(b, c);
    if SameEnds(a, b) { SameEndsSame(a, b, c); }
    else if SameEnds(b, c) { SameEndsSame(b, c, a); }
    else { EdgeTransitive(c, b, a); EdgeTotal(a, c); }
  }

  lemma {:induction false} SameEndsSame(a: Edge, b: Edge, c: Edge)
    requires SameEnds(a, b)
    ensures EdgeLess(a, c) == EdgeLess(b, c) && EdgeLess(c, a) == EdgeLess(c, b)
  {
  }

  /** Every edge is there, between the new ids of its ends, and edges with the same ends and kind
      keep their order. */
  lemma {:induction false} EdgesFollow(g: Graph, like: Edge)
    requires Sealable(g)
    ensures SealOf(g).Sealed?
    ensures var renamed, sealed := RenamedEdges(Remap(Numbered(g)), g.edges), SealOf(g).graph.edges;
            && multiset(sealed) == multiset(renamed)
            && Chosen(sealed, e => SameEnds(e, like)) == Chosen(renamed, e => SameEnds(e, like))
  {
    SealsTo(g);
    var renamed := RenamedEdges(Remap(Numbered(g)), g.edges);
    SortedKeeps(renamed, EdgeLess);
    forall u, v | SameEnds(u, like) && SameEnds(v, like) ensures !EdgeLess(u, v) {
      if Less(u.kind, v.kind) { LessAsymmetric(u.kind, v.kind); }
    }
    SortedStable(renamed, EdgeLess, e => SameEnds(e, like));
  }

  /** Where every end of an edge names a place the edges are in the order of their ends and kinds. */
  lemma {:induction false} EdgesInOrder(g: Graph)
    requires Sealable(g) && forall e :: e in g.edges ==> Resolves(g, e.from) && Resolves(g, e.to)
    ensures SealOf(g).Sealed? && Settled(SealOf(g).graph.edges, EdgeLess)
  {
    SealsTo(g);
    var renamed := RenamedEdges(Remap(Numbered(g)), g.edges);
    forall e | e in renamed ensures CompactEnds(e) {
      var k :| 0 <= k < |renamed| && renamed[k] == e;
      assert g.edges[k] in g.edges;
      ResolvedCompact(g, g.edges[k].from);
      ResolvedCompact(g, g.edges[k].to);
    }
    forall u, v | u in renamed && v in renamed && EdgeLess(u, v) ensures !EdgeLess(v, u) { EdgeTotal(u, v); }
    forall u, v, w | u in renamed && v in renamed && w in renamed && !EdgeLess(u, v) && !EdgeLess(v, w)
      ensures !EdgeLess(u, w) { EdgeBetween(u, v, w); }
    SortedSettles(renamed, EdgeLess);
  }

  // ----- references that name no place -----

  ghost predicate Refers(g: Graph, ref: string) {
    || (exists p :: p in g.places && (ref == p.parent || ref in p.callers || ref in p.callees || ref in p.related))
    || (exists e :: e in g.edges && (ref == e.from || ref == e.to))
    || ref in g.seeds || ref in g.seedDecls
  }

  /** Sealing is to give this id out: a kind's prefix and a number up to the places of the kind. */
  ghost predicate Taken(g: Graph, ref: string) {
    exists k: Kind, n: nat :: 1 <= n <= Count(g.places, k, |g.places|) && ref == Compact(k, n)
  }

  /** Every reference that names no place is one sealing gives to none. */
  ghost predicate NoneTaken(g: Graph) {
    forall ref :: Refers(g, ref) && Taken(g, ref) ==> Resolves(g, ref)
  }

  lemma {:induction false} CountPrefix(a: seq<Place>, b: seq<Place>, k: Kind, n: nat)
    requires n <= |a| && n <= |b| && a[..n] == b[..n]
    ensures Count(a, k, n) == Count(b, k, n)
  {
    if n > 0 {
      assert a[..n-1] == a[..n][..n-1] && b[..n-1] == b[..n][..n-1];
      assert a[n-1] == a[..n][n-1] && b[n-1] == b[..n][n-1];
      CountPrefix(a, b, k, n - 1);
    }
  }

  lemma {:induction false} CountMore(s: seq<Place>, x: Place, k: Kind)
    ensures Count(s + [x], k, |s| + 1) == Count(s, k, |s|) + if x.kind == k then 1 else 0
  {
    assert (s + [x])[..|s|] == s[..|s|];
    CountPrefix(s + [x], s, k, |s|);
  }

  lemma {:induction false} InsertCount(s: seq<Place>, x: Place, k: Kind)
    ensures |Insert(s, x, Before)| == |s| + 1
    ensures Count(Insert(s, x, Before), k, |s| + 1) == Count(s, k, |s|) + if x.kind == k then 1 else 0
  {
    if s == [] || !Before(x, s[|s|-1]) { CountMore(s, x, k); }
    else {
      var rest, last := s[..|s|-1], s[|s|-1];
      InsertCount(rest, x, k);
      CountMore(Insert(rest, x, Before), last, k);
      assert s == rest + [last];
      CountMore(rest, last, k);
    }
  }

  lemma {:induction false} SortedCount(s: seq<Place>, k: Kind)
    ensures |Sorted(s, Before)| == |s| && Count(Sorted(s, Before), k, |s|) == Count(s, k, |s|)
  {
    if s != [] {
      var rest, last := s[..|s|-1], s[|s|-1];
      SortedCount(rest, k);
      InsertCount(Sorted(rest, Before), last, k);
      assert s == rest + [last];
      CountMore(rest, last, k);
    }
  }

  lemma {:induction false} NthOf(s: seq<Place>, k: Kind, n: nat, m: nat) returns (i: nat)
    requires m <= |s| && 1 <= n <= Count(s, k, m)
    ensures i < m && s[i].kind == k && Count(s, k, i + 1) == n
  {
    if s[m-1].kind == k && Count(s, k, m) == n { i := m - 1; } else { i := NthOf(s, k, n, m - 1); }
  }

  lemma {:induction false} TakenGiven(g: Graph, ref: string) returns (i: nat)
    requires Taken(g, ref)
    ensures i < |Numbered(g)| && NewId(Numbered(g), i) == ref
  {
    var k: Kind, n: nat :| 1 <= n <= Count(g.places, k, |g.places|) && ref == Compact(k, n);
    SortedCount(g.places, k);
    i := NthOf(Numbered(g), k, n, |Numbered(g)|);
  }

  lemma {:induction false} GivenTaken(g: Graph, i: nat)
    requires i < |Numbered(g)|
    ensures Taken(g, NewId(Numbered(g), i))
  {
    var s, k := Numbered(g), Numbered(g)[i].kind;
    SortedCount(g.places, k);
    CountGrows(s, k, i + 1, |s|);
    CountGrows(s, k, 0, i);
    assert NewId(s, i) == Compact(k, Count(s, k, i + 1));
  }

  ghost predicate HasPlace(g: Graph, id: string) {
    exists q :: q in g.places && q.id == id
  }

  lemma {:induction false} SealedMembers(g: Graph)
    requires Sealable(g)
    ensures SealOf(g).Sealed? && forall q :: q in SealOf(g).graph.places <==> q in Renumbered(g)
  {
    SealsTo(g);
    SortedKeeps(Renumbered(g), PlaceLess);
    KeptMembers(SealOf(g).graph.places, Renumbered(g));
  }

  lemma {:induction false} RenumberedTaken(g: Graph, q: Place)
    requires Sealable(g) && q in Renumbered(g)
    ensures Taken(g, q.id)
  {
    var i :| 0 <= i < |Renumbered(g)| && Renumbered(g)[i] == q;
    RenumberedIs(g, i);
    GivenTaken(g, i);
  }

  lemma {:induction false} TakenRenumbered(g: Graph, id: string) returns (q: Place)
    requires Sealable(g) && Taken(g, id)
    ensures q in Renumbered(g) && q.id == id
  {
    var i := TakenGiven(g, id);
    RenumberedIs(g, i);
    q := Renumbered(g)[i];
  }

  lemma {:induction false} SealedHas(g: Graph, id: string)
    requires Sealable(g)
    ensures SealOf(g).Sealed? && (HasPlace(SealOf(g).graph, id) <==> Taken(g, id))
  {
    SealedMembers(g);
    if HasPlace(SealOf(g).graph, id) {
      var q :| q in SealOf(g).graph.places && q.id == id;
      RenumberedTaken(g, q);
    }
    if Taken(g, id) { var q := TakenRenumbered(g, id); }
  }

  /** What a reference becomes names a place if the reference did, or if it is an id sealing gives. */
  lemma {:induction false} SealedNames(g: Graph, ref: string)
    requires Sealable(g)
    ensures SealOf(g).Sealed? && (HasPlace(SealOf(g).graph, NewRef(g, ref)) <==> Resolves(g, ref) || Taken(g, ref))
  {
    SealedHas(g, NewRef(g, ref));
    if Resolves(g, ref) {
      var p := ResolvesNames(g, ref);
      ReferencesFollow(g, ref, p);
    } else {
      UnresolvedStays(g, ref);
    }
  }

  /** References name places after sealing exactly when they did before, exactly when none that names
      no place is an id sealing gives. */
  lemma {:induction false} DanglingStays(g: Graph)
    requires Sealable(g)
    ensures SealOf(g).Sealed?
    ensures (forall ref :: Refers(g, ref) ==> (HasPlace(SealOf(g).graph, NewRef(g, ref)) <==> Resolves(g, ref)))
            <==> NoneTaken(g)
  {
    SealsTo(g);
    forall ref | Refers(g, ref)
      ensures HasPlace(SealOf(g).graph, NewRef(g, ref)) <==> Resolves(g, ref) || Taken(g, ref)
    {
      SealedNames(g, ref);
    }
  }

  /** The references and the places' own ids. */
  ghost predicate Mentioned(g: Graph, ref: string) {
    Refers(g, ref) || HasPlace(g, ref)
  }

  ghost predicate SameMeaning(g: Graph, a: string, b: string) {
    a == b || exists p :: Names(g, a, p) && Names(g, b, p)
  }

  lemma {:induction false} ApartUnlessTaken(g: Graph, a: string, b: string)
    requires Sealable(g) && NewRef(g, a) == NewRef(g, b)
    requires Taken(g, a) ==> Resolves(g, a)
    requires Taken(g, b) ==> Resolves(g, b)
    ensures SameMeaning(g, a, b)
  {
    SealedNames(g, a);
    SealedNames(g, b);
    if Resolves(g, a) {
      var p := ResolvesNames(g, a);
      var q := ResolvesNames(g, b);
      NamesFollow(g, a, p);
      NamesFollow(g, b, q);
      OnePlace(g, p, q);
      assert Names(g, a, p) && Names(g, b, p);
    } else {
      UnresolvedStays(g, a);
      UnresolvedStays(g, b);
    }
  }

  /** Sealing takes no two names for one unless they meant one place, exactly when no reference that
      names no place is an id sealing gives. */
  lemma {:induction false} KeptApart(g: Graph)
    requires Sealable(g)
    ensures (forall a, b :: Mentioned(g, a) && Mentioned(g, b) && NewRef(g, a) == NewRef(g, b) ==> SameMeaning(g, a, b))
            <==> NoneTaken(g)
  {
    if NoneTaken(g) {
      forall a, b | Mentioned(g, a) && Mentioned(g, b) && NewRef(g, a) == NewRef(g, b) ensures SameMeaning(g, a, b) {
        assert HasPlace(g, a) ==> Resolves(g, a);
        assert HasPlace(g, b) ==> Resolves(g, b);
        ApartUnlessTaken(g, a, b);
      }
    } else {
      var ref :| Refers(g, ref) && Taken(g, ref) && !Resolves(g, ref);
      var i := TakenGiven(g, ref);
      NumberedIn(g, i);
      UnresolvedStays(g, ref);
      var own := Numbered(g)[i].id;
      assert Mentioned(g, own) && NewRef(g, ref) == NewRef(g, own);
      assert !SameMeaning(g, ref, own);
    }
  }

  /** An edge to nothing known whose end is an id sealing gives ends at a place then. */
  lemma {:induction false} FalseLink(g: Graph, e: Edge)
    requires Sealable(g) && e in g.edges && !Resolves(g, e.to) && Taken(g, e.to)
    ensures SealOf(g).Sealed?
    ensures exists f, q :: f in SealOf(g).graph.edges && q in SealOf(g).graph.places && f.to == q.id == e.to
  {
    SealsTo(g);
    var remap := Remap(Numbered(g));
    var renamed := RenamedEdges(remap, g.edges);
    var k :| 0 <= k < |g.edges| && g.edges[k] == e;
    assert renamed[k] in renamed;
    SortedKeeps(renamed, EdgeLess);
    KeptMembers(Sorted(renamed, EdgeLess), renamed);
    UnresolvedStays(g, e.to);
    SealedNames(g, e.to);
    var q :| q in SealOf(g).graph.places && q.id == e.to;
    assert RenamedEdge(remap, e) in SealOf(g).graph.edges && RenamedEdge(remap, e).to == q.id;
  }

  lemma {:induction false} OneSorted<T>(x: T, less: (T, T) -> bool)
    ensures Sorted([x], less) == [x]
  {
    assert [x][..0] == [];
  }

  lemma {:induction false} OnePlaceNumbered(p: Place)
    requires p.kind == Symbol && p.id != "" && SourceKey(p).None?
    ensures MapId(Remap([p]), p.id) == "s1"
  {
    OwnNumbers([p], 0);
    assert Count([p], Symbol, 1) == Count([p], Symbol, 0) + 1;
    assert Decimal(1) == ['1'];
    assert NewId([p], 0) == ['s'] + ['1'];
  }

  /** A symbol with construction id x, and an edge from it to s1, which names nothing: the sealed
      edge leads from the symbol to itself. */
  lemma {:induction false} DanglingCaptured()
    ensures var p := Place("x", Symbol, "a", 1, 1, None, "", [], [], []);
            var g := Graph([p], [Edge("x", "s1", "calls", "")], [], []);
            && Sealable(g) && !Resolves(g, "s1")
            && SealOf(g) == Sealed(Graph([p.(id := "s1")], [Edge("s1", "s1", "calls", "")], [], []))
  {
    var p := Place("x", Symbol, "a", 1, 1, None, "", [], [], []);
    var e := Edge("x", "s1", "calls", "");
    var g := Graph([p], [e], [], []);
    OneSorted(p, Before);
    OneSorted(p.(id := "s1"), PlaceLess);
    OneSorted(Edge("s1", "s1", "calls", ""), EdgeLess);
    OnePlaceNumbered(p);
    UnresolvedStays(g, "s1");
    SealsTo(g);
    assert RenamedAll(Remap([p]), [p]) == [p.(id := "s1")];
    assert RenamedEdges(Remap([p]), [e]) == [Edge("s1", "s1", "calls", "")];
  }
}
