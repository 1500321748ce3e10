/** Placing dependency rows and omissions among the numbered importers
    (internal/dependencies/catalog.go:189-231). */
module CatalogPlaces {
  import opened Ordering
  import opened Canon
  import opened Catalog
  import opened CatalogFacts
  import opened CatalogRows
  import CatalogBuilder

  // ----- dependency rows -----

  /** The row with its references numbered, each once and in order. */
  ghost predicate PlacedRow(compact: map<string, string>, before: Dependency, after: Dependency) {
    && Shape(after) == Shape(before)
    && (forall effect, r :: r in RefsOf(after, effect) <==> Sent(compact, RefsOf(before, effect), r))
    && (forall effect :: Ordered(RefsOf(after, effect), RefLess))
  }

  lemma {:induction false} SentLocal(compact: map<string, string>, refs: seq<string>, sent: seq<string>)
    requires CatalogBuilder.LocalValues(compact) && forall r :: r in sent <==> Sent(compact, refs, r)
    ensures var c := CanonicalOf(sent, RefLess); Ordered(c, RefLess) && forall r :: r in c <==> Sent(compact, refs, r)
  {
    RefLine(sent);
    CanonicalOrders(sent, RefLess);
    CanonicalKeeps(sent, RefLess);
  }

  method PlaceRow(before: Dependency, compact: map<string, string>) returns (after: Dependency)
    requires CatalogBuilder.LocalValues(compact) && AllIn(before.importerRefs, compact)
             && AllIn(before.effectImporterRefs, compact)
    ensures PlacedRow(compact, before, after) && after.id == before.id
  {
    var known, refs := ResolveRefs(before.importerRefs, compact);
    SentLocal(compact, before.importerRefs, refs);
    var importers := Canonical(refs, RefLess);
    known, refs := ResolveRefs(before.effectImporterRefs, compact);
    SentLocal(compact, before.effectImporterRefs, refs);
    var effects := refs;
    if |refs| > 0 { effects := Canonical(refs, RefLess); }
    after := before.(importerRefs := importers, effectImporterRefs := effects);
    assert Shape(after) == Shape(before);
    assert RefsOf(after, true) == effects && RefsOf(after, false) == importers;
  }

  ghost predicate KeyedRows(byId: map<string, Dependency>, compact: map<string, string>) {
    forall id :: id in byId ==>
      && byId[id].id == id && DependencyIdentity(byId[id]) == id && FieldsFit(byId[id])
      && AllIn(byId[id].importerRefs, compact) && AllIn(byId[id].effectImporterRefs, compact)
  }

  ghost predicate IsPlaced(byId: map<string, Dependency>, compact: map<string, string>, d: Dependency) {
    d.id in byId && PlacedRow(compact, byId[d.id], d)
  }

  /** Each row once, placed. */
  ghost predicate PlacedRows(byId: map<string, Dependency>, compact: map<string, string>, s: seq<Dependency>) {
    && (forall d :: d in s ==> IsPlaced(byId, compact, d))
    && (forall id :: id in byId ==> exists d :: d in s && d.id == id)
    && (forall j, k :: 0 <= j < k < |s| ==> s[j].id != s[k].id)
  }

  /** Each row but those left, placed. */
  ghost predicate PlacedBut(byId: map<string, Dependency>, compact: map<string, string>, s: seq<Dependency>,
                            left: set<string>) {
    && (forall d :: d in s ==> d.id !in left && IsPlaced(byId, compact, d))
    && (forall id :: id in byId && id !in left ==> exists d :: d in s && d.id == id)
    && (forall j, k :: 0 <= j < k < |s| ==> s[j].id != s[k].id)
  }

  lemma {:induction false} OnePlaced(byId: map<string, Dependency>, compact: map<string, string>, s: seq<Dependency>,
                                     left: set<string>, row: Dependency)
    requires PlacedBut(byId, compact, s, left) && row.id in left && IsPlaced(byId, compact, row)
    ensures PlacedBut(byId, compact, s + [row], left - {row.id})
  {
    var t := s + [row];
    assert t[|s|] == row && forall d :: d in t <==> d in s || d == row;
    forall id | id in byId && id !in left - {row.id} ensures exists d :: d in t && d.id == id {
      if id != row.id {
        var d :| d in s && d.id == id;
        assert d in t;
      }
    }
    forall j, k | 0 <= j < k < |t| ensures t[j].id != t[k].id { assert s[j] in s; }
  }

  method CollectRows(byId: map<string, Dependency>, compact: map<string, string>) returns (s: seq<Dependency>)
    requires CatalogBuilder.LocalValues(compact) && KeyedRows(byId, compact)
    ensures PlacedRows(byId, compact, s)
  {
    s := [];
    var left := byId.Keys;
    while left != {}
      invariant left <= byId.Keys
      invariant PlacedBut(byId, compact, s, left)
    {
      var id :| id in left;
      var row := PlaceRow(byId[id], compact);
      OnePlaced(byId, compact, s, left, row);
      s := s + [row];
      left := left - {id};
    }
  }

  lemma {:induction false} PlacedShape(byId: map<string, Dependency>, compact: map<string, string>, d: Dependency)
    requires KeyedRows(byId, compact) && IsPlaced(byId, compact, d)
    ensures DependencyIdentity(d) == d.id && FieldsFit(d)
  {
    SameShape(d, byId[d.id]);
    ShapeKeepsFit(d, byId[d.id]);
  }

  lemma {:induction false} SameId(s: seq<Dependency>, d: Dependency, e: Dependency)
    requires (forall j, k :: 0 <= j < k < |s| ==> s[j].id != s[k].id) && d in s && e in s && d.id == e.id
    ensures d == e
  {
    var j: nat :| j < |s| && s[j] == d;
    var k: nat :| k < |s| && s[k] == e;
  }

  lemma {:induction false} OtherId(s: seq<Dependency>, d: Dependency, e: Dependency)
    requires (forall j, k :: 0 <= j < k < |s| ==> s[j].id != s[k].id) && d in s && e in s && d != e
    ensures d.id != e.id
  {
    var j: nat :| j < |s| && s[j] == d;
    var k: nat :| k < |s| && s[k] == e;
    assert j < k || k < j;
  }

  lemma {:induction false} PlacedLine(byId: map<string, Dependency>, compact: map<string, string>, s: seq<Dependency>)
    requires KeyedRows(byId, compact) && PlacedRows(byId, compact, s)
    ensures Linear(s, DependencyLess)
  {
    forall d | d in s ensures FieldsFit(d) { PlacedShape(byId, compact, d); }
    DependencyChain(s);
    forall d, e | d in s && e in s ensures d == e || DependencyLess(d, e) || DependencyLess(e, d) {
      if Shape(d) == Shape(e) {
        PlacedShape(byId, compact, d);
        PlacedShape(byId, compact, e);
        SameShape(d, e);
        SameId(s, d, e);
      } else { DependencyTotal(d, e); }
    }
  }

  lemma {:induction false} SortedPlaced(byId: map<string, Dependency>, compact: map<string, string>, s: seq<Dependency>)
    requires KeyedRows(byId, compact) && PlacedRows(byId, compact, s)
    ensures var t := Sorted(s, DependencyLess); Ordered(t, DependencyLess) && PlacedRows(byId, compact, t)
  {
    var t := Sorted(s, DependencyLess);
    PlacedLine(byId, compact, s);
    CatalogBuilder.SortedTwice(s, DependencyLess);
    Fewer(s, t, DependencyLess);
    forall j, k | 0 <= j < k < |t| ensures t[j].id != t[k].id {
      assert t[j] in t && t[k] in t && DependencyLess(t[j], t[k]);
      OtherId(s, t[j], t[k]);
    }
    forall id | id in byId ensures exists d :: d in t && d.id == id { var d :| d in s && d.id == id; assert d in t; }
  }

  function Renamed(s: seq<Dependency>): (t: seq<Dependency>)
    ensures |t| == |s| && forall k :: 0 <= k < |t| ==> t[k] == s[k].(id := Compact('d', k + 1))
  {
    seq(|s|, k requires 0 <= k < |s| => s[k].(id := Compact('d', k + 1)))
  }

  /** The dependency rows of the catalog. */
  ghost predicate Finished(byId: map<string, Dependency>, compact: map<string, string>, deps: seq<Dependency>) {
    && (forall k :: 0 <= k < |deps| ==> deps[k].id == Compact('d', k + 1))
    && (forall d :: d in deps ==> DependencyIdentity(d) in byId && PlacedRow(compact, byId[DependencyIdentity(d)], d))
    && (forall id :: id in byId ==> exists d :: d in deps && DependencyIdentity(d) == id)
    && Ordered(deps, DependencyLess) && KeysApart(deps)
  }

  lemma {:induction false} PlacedStill(compact: map<string, string>, before: Dependency, after: Dependency, id: string)
    requires PlacedRow(compact, before, after)
    ensures PlacedRow(compact, before, after.(id := id))
  {
    assert Shape(after.(id := id)) == Shape(after);
    assert forall effect :: RefsOf(after.(id := id), effect) == RefsOf(after, effect);
  }

  lemma {:induction false} RenamedRow(byId: map<string, Dependency>, compact: map<string, string>, s: seq<Dependency>,
                                      k: nat)
    requires KeyedRows(byId, compact) && k < |s| && IsPlaced(byId, compact, s[k])
    ensures var d := Renamed(s)[k];
            DependencyIdentity(d) == s[k].id && s[k].id in byId && PlacedRow(compact, byId[s[k].id], d)
              && Shape(d) == Shape(s[k]) && FieldsFit(s[k])
  {
    PlacedShape(byId, compact, s[k]);
    SameShape(Renamed(s)[k], s[k]);
    PlacedStill(compact, byId[s[k].id], s[k], Compact('d', k + 1));
  }

  lemma {:induction false} RenamedOrdered(byId: map<string, Dependency>, compact: map<string, string>,
                                          s: seq<Dependency>)
    requires KeyedRows(byId, compact) && PlacedRows(byId, compact, s) && Ordered(s, DependencyLess)
    ensures KeysApart(Renamed(s)) && Ordered(Renamed(s), DependencyLess)
  {
    var t := Renamed(s);
    forall j, k | 0 <= j < |t| && 0 <= k < |t| && DependencyIdentity(t[j]) == DependencyIdentity(t[k]) ensures j == k {
      assert s[j] in s && s[k] in s;
      RenamedRow(byId, compact, s, j);
      RenamedRow(byId, compact, s, k);
    }
    forall j, k | 0 <= j < k < |t| ensures DependencyLess(t[j], t[k]) {
      assert s[j] in s && s[k] in s;
      RenamedRow(byId, compact, s, j);
      RenamedRow(byId, compact, s, k);
      if Shape(s[j]) == Shape(s[k]) { SameShape(t[j], t[k]); }
      DependencyFirst(s[j], s[k], t[j], t[k]);
    }
  }

  lemma {:induction false} RenamedFinished(byId: map<string, Dependency>, compact: map<string, string>,
                                           s: seq<Dependency>)
    requires KeyedRows(byId, compact) && PlacedRows(byId, compact, s) && Ordered(s, DependencyLess)
    ensures Finished(byId, compact, Renamed(s))
  {
    var t := Renamed(s);
    RenamedOrdered(byId, compact, s);
    forall d | d in t ensures DependencyIdentity(d) in byId && PlacedRow(compact, byId[DependencyIdentity(d)], d) {
      var k: nat :| k < |t| && t[k] == d;
      assert s[k] in s;
      RenamedRow(byId, compact, s, k);
    }
    forall id | id in byId ensures exists d :: d in t && DependencyIdentity(d) == id {
      var e :| e in s && e.id == id;
      var k: nat :| k < |s| && s[k] == e;
      RenamedRow(byId, compact, s, k);
      assert t[k] in t;
    }
  }

  lemma {:induction false} RenamesOn(s: seq<Dependency>, k: nat)
    requires k < |s|
    ensures (Renamed(s)[..k] + s[k..])[k] == s[k]
    ensures (Renamed(s)[..k] + s[k..])[k := s[k].(id := Compact('d', k + 1))] == Renamed(s)[..k+1] + s[k+1..]
    ensures Retained(Renamed(s)[..k+1]) == Retained(Renamed(s)[..k]) + |s[k].importerRefs|
  {
    assert Renamed(s)[..k+1][..k] == Renamed(s)[..k];
  }

  /** Numbers the rows in place and counts the imports they hold. */
  method GiveIds(s: seq<Dependency>) returns (deps: seq<Dependency>, retained: nat)
    ensures deps == Renamed(s) && retained == Retained(deps)
  {
    deps, retained := s, 0;
    for k := 0 to |s|
      invariant deps == Renamed(s)[..k] + s[k..]
      invariant retained == Retained(Renamed(s)[..k])
    {
      RenamesOn(s, k);
      deps := deps[k := deps[k].(id := Compact('d', k + 1))];
      retained := retained + |deps[k].importerRefs|;
    }
    assert deps == Renamed(s) && Renamed(s)[..|s|] == Renamed(s);
  }

  /** Places, sorts and numbers the dependency rows. */
  method PlaceRows(byId: map<string, Dependency>, compact: map<string, string>)
    returns (deps: seq<Dependency>, retained: nat)
    requires CatalogBuilder.LocalValues(compact) && KeyedRows(byId, compact)
    ensures Finished(byId, compact, deps) && retained == Retained(deps)
  {
    var rows := CollectRows(byId, compact);
    SortedPlaced(byId, compact, rows);
    RenamedFinished(byId, compact, Sorted(rows, DependencyLess));
    deps, retained := GiveIds(Sorted(rows, DependencyLess));
  }

  // ----- omissions -----

  function PlaceOf(alias: map<string, string>, compact: map<string, string>, ref: string): string
    requires ref in alias && alias[ref] in compact
  {
    compact[alias[ref]]
  }

  ghost predicate RefIn(alias: map<string, string>, compact: map<string, string>, o: Omission) {
    o.importerRef == "" || (o.importerRef in alias && alias[o.importerRef] in compact)
  }

  function PlacedOmission(alias: map<string, string>, compact: map<string, string>, o: Omission): Omission
    requires RefIn(alias, compact, o)
  {
    if o.importerRef == "" then o else o.(importerRef := PlaceOf(alias, compact, o.importerRef))
  }

  /** The omissions with their references numbered, each once and in order. */
  ghost predicate OmissionsPlaced(alias: map<string, string>, compact: map<string, string>, omissions: seq<Omission>,
                                  placed: seq<Omission>) {
    && (forall o :: o in omissions ==> RefIn(alias, compact, o) && PlacedOmission(alias, compact, o) in placed)
    && (forall p :: p in placed ==> exists o ::
          o in omissions && RefIn(alias, compact, o)
          && p == PlacedOmission(alias, compact, o))
    && Ordered(placed, OmissionLess)
  }

  lemma {:induction false} CanonicalPlaced(alias: map<string, string>, compact: map<string, string>,
                                           omissions: seq<Omission>, first: seq<Omission>, placed: seq<Omission>)
    requires CatalogBuilder.LocalValues(compact) && forall o :: o in first <==> o in omissions
    requires |placed| == |first|
    requires forall i :: 0 <= i < |first| ==>
             RefIn(alias, compact, first[i]) && placed[i] == PlacedOmission(alias, compact, first[i])
    ensures OmissionsPlaced(alias, compact, omissions, CanonicalOf(placed, OmissionLess))
  {
    forall p | p in placed
      ensures Local(p.importerRef) && exists o ::
              o in omissions && RefIn(alias, compact, o)
              && p == PlacedOmission(alias, compact, o)
    {
      var i: nat :| i < |placed| && placed[i] == p;
      assert first[i] in first;
    }
    forall o | o in omissions ensures RefIn(alias, compact, o) && PlacedOmission(alias, compact, o) in placed {
      var i: nat :| i < |first| && first[i] == o;
      assert placed[i] in placed;
    }
    OmissionLine(placed);
    CanonicalOrders(placed, OmissionLess);
    CanonicalKeeps(placed, OmissionLess);
  }

  /** Numbers the omissions' references, unless one is nobody's. */
  method PlaceOmissions(omissions: seq<Omission>, alias: map<string, string>, compact: map<string, string>)
    returns (ok: bool, placed: seq<Omission>)
    requires CatalogBuilder.LocalValues(compact) && forall a :: a in alias ==> alias[a] in compact
    ensures ok <==> forall o :: o in omissions ==> RefIn(alias, compact, o)
    ensures ok ==> OmissionsPlaced(alias, compact, omissions, placed)
  {
    CanonicalKeeps(omissions, OmissionLess);
    var first := Canonical(omissions, OmissionLess);
    placed := first;
    for k := 0 to |first|
      invariant |placed| == |first|
      invariant forall i :: 0 <= i < k ==>
                RefIn(alias, compact, first[i]) && placed[i] == PlacedOmission(alias, compact, first[i])
      invariant forall i :: k <= i < |first| ==> placed[i] == first[i]
    {
      var ref := placed[k].importerRef;
      if ref != "" {
        if ref !in alias {
          assert first[k] in first && !RefIn(alias, compact, first[k]);
          return false, placed;
        }
        placed := placed[k := placed[k].(importerRef := compact[alias[ref]])];
      }
    }
    CanonicalPlaced(alias, compact, omissions, first, placed);
    placed := Canonical(placed, OmissionLess);
    ok := true;
  }
}
