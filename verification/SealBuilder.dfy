/** Numbering and renaming the places of a graph, in place, and checking the order of a graph's
    places (internal/atlas/atlas.go:1251-1352, 1627-1647). */
module SealBuilder {
  import opened Ordering
  import opened Seal

  /** Numbers the places kind by kind; a place without an id, or with an earlier one's, is refused. */
  method NumberPlaces(places: seq<Place>) returns (fault: Option<Result>, remap: map<string, string>)
    ensures fault == Fault(places, |places|)
    ensures fault.None? ==> remap == Own(places, |places|)
  {
    remap := map[];
    var ordinals: map<Kind, nat> := map[];
    for n := 0 to |places|
      invariant Fault(places, n) == None && remap == Own(places, n)
      invariant forall id :: id in remap <==> HasId(places, n, id)
      invariant forall k :: (if k in ordinals then ordinals[k] else 0) == Count(places, k, n)
    {
      var place := places[n];
      if place.id == "" || place.id in remap {
        fault := Some(if place.id == "" then Nameless else Duplicate(place.id));
        FaultStays(places, n + 1, |places|);
        return;
      }
      var ordinal := (if place.kind in ordinals then ordinals[place.kind] else 0) + 1;
      ordinals := ordinals[place.kind := ordinal];
      remap := remap[place.id := Compact(place.kind, ordinal)];
    }
    fault := None;
  }

  lemma {:induction false} FaultStays(places: seq<Place>, m: nat, n: nat)
    requires m <= n <= |places| && Fault(places, m).Some?
    ensures Fault(places, n) == Fault(places, m)
  {
    if m < n { FaultStays(places, m, n - 1); }
  }

  /** Lets source keys name the places too. */
  method AddSourceKeys(places: seq<Place>, own: map<string, string>) returns (remap: map<string, string>)
    requires own == Own(places, |places|)
    ensures remap == Remap(places)
  {
    remap := own;
    for n := 0 to |places|
      invariant remap == Keyed(places, n)
    {
      var key := SourceKey(places[n]);
      if key.Some? { remap := remap[key.value := remap[places[n].id]]; }
    }
  }

  /** Renames every place where it stands. */
  method RenamePlaces(places: array<Place>, remap: map<string, string>)
    modifies places
    ensures places[..] == RenamedAll(remap, old(places[..]))
  {
    ghost var given := places[..];
    for n := 0 to places.Length
      invariant forall k :: 0 <= k < n ==> places[k] == Renamed(remap, given[k])
      invariant forall k :: n <= k < places.Length ==> places[k] == given[k]
    {
      places[n] := Renamed(remap, places[n]);
    }
  }

  method RenameEdges(edges: array<Edge>, remap: map<string, string>)
    modifies edges
    ensures edges[..] == RenamedEdges(remap, old(edges[..]))
  {
    ghost var given := edges[..];
    for n := 0 to edges.Length
      invariant forall k :: 0 <= k < n ==> edges[k] == RenamedEdge(remap, given[k])
      invariant forall k :: n <= k < edges.Length ==> edges[k] == given[k]
    {
      edges[n] := RenamedEdge(remap, edges[n]);
    }
  }

  method RenamedPlaces(given: seq<Place>, remap: map<string, string>) returns (renamed: seq<Place>)
    ensures renamed == RenamedAll(remap, given)
  {
    var places := new Place[|given|](k requires 0 <= k < |given| => given[k]);
    assert places[..] == given;
    RenamePlaces(places, remap);
    renamed := places[..];
  }

  method EdgesRenamed(given: seq<Edge>, remap: map<string, string>) returns (renamed: seq<Edge>)
    ensures renamed == RenamedEdges(remap, given)
  {
    var edges := new Edge[|given|](k requires 0 <= k < |given| => given[k]);
    assert edges[..] == given;
    RenameEdges(edges, remap);
    renamed := edges[..];
  }

  /** Seals a copy of the graph. */
  method SealGraph(g: Graph) returns (r: Result)
    ensures r == SealOf(g)
  {
    var numbered := Sorted(g.places, Before);
    var fault, own := NumberPlaces(numbered);
    if fault.Some? { return fault.value; }
    var remap := AddSourceKeys(numbered, own);
    var places := RenamedPlaces(numbered, remap);
    var edges := EdgesRenamed(g.edges, remap);
    var seeds, decls := SortedIds(remap, g.seeds), SortedIds(remap, g.seedDecls);
    r := Sealed(Graph(Sorted(places, PlaceLess), Sorted(edges, EdgeLess), seeds, decls));
  }

  /** A place's id is valid for its kind, no earlier place has it, and it comes after the one
      before it. */
  predicate Fits(places: seq<Place>, n: nat)
    requires n < |places|
  {
    && ValidPlaceId(places[n].id, places[n].kind) && !HasId(places, n, places[n].id)
    && (n > 0 ==> PlaceIdLess(places[n-1].id, places[n].id))
  }

  predicate WellPlaced(places: seq<Place>, n: nat)
    requires n <= |places|
  {
    n == 0 || (WellPlaced(places, n - 1) && Fits(places, n - 1))
  }

  lemma {:induction false} AllFit(places: seq<Place>, k: nat, n: nat)
    requires k < n <= |places| && WellPlaced(places, n)
    ensures Fits(places, k)
  {
    if k < n - 1 { AllFit(places, k, n - 1); }
  }

  /** Checks that every place's id is valid for its kind and none appears twice, and that the
      places stand in the order of their ids. */
  method ValidatePlaces(places: seq<Place>) returns (ok: bool)
    ensures ok <==> WellPlaced(places, |places|)
  {
    var seen: set<string> := {};
    for n := 0 to |places|
      invariant WellPlaced(places, n)
      invariant forall id :: id in seen <==> HasId(places, n, id)
    {
      var place := places[n];
      if !ValidPlaceId(place.id, place.kind) || place.id in seen || (n > 0 && !PlaceIdLess(places[n-1].id, place.id)) {
        if WellPlaced(places, |places|) { AllFit(places, n, |places|); }
        return false;
      }
      HasMore(places, n);
      seen := seen + {place.id};
    }
    ok := true;
  }

  lemma {:induction false} HasMore(places: seq<Place>, n: nat)
    requires n < |places|
    ensures forall id :: HasId(places, n + 1, id) <==> HasId(places, n, id) || id == places[n].id
  {
    forall id ensures HasId(places, n + 1, id) <==> HasId(places, n, id) || id == places[n].id {
      if HasId(places, n, id) { var k :| 0 <= k < n && places[k].id == id; assert k < n + 1; }
    }
  }

  /** What was sealed passes the check. */
  lemma {:induction false} SealedPasses(g: Graph)
    requires Sealable(g)
    ensures SealOf(g).Sealed? && WellPlaced(SealOf(g).graph.places, |SealOf(g).graph.places|)
  {
    SealedInOrder(g);
    var places := SealOf(g).graph.places;
    OrderedPasses(places, |places|);
  }

  lemma {:induction false} OrderedPasses(places: seq<Place>, n: nat)
    requires n <= |places| && Ordered(places, PlaceLess) && Distinct(places)
    requires forall k :: 0 <= k < |places| ==> ValidPlaceId(places[k].id, places[k].kind)
    ensures WellPlaced(places, n)
  {
    if n > 0 {
      OrderedPasses(places, n - 1);
      assert n > 1 ==> PlaceLess(places[n-2], places[n-1]);
    }
  }
}
