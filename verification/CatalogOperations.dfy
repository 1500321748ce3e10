/** Building a catalog and keeping some of its importers
    (internal/dependencies/catalog.go:117-237, 314-360). */
module CatalogOperations {
  import opened Ordering
  import opened Canon
  import opened Catalog
  import opened CatalogFacts
  import opened CatalogParts
  import opened CatalogSubset
  import opened CatalogRows
  import opened CatalogPlaces
  import opened CatalogBuild
  import CatalogBuilder
  import CatalogCheck

  // ----- the steps fit together -----

  lemma {:induction false} AliasesPlaced(importers: seq<Importer>, s: Stage)
    requires ImportersStaged(importers, s)
    ensures forall a :: a in s.alias ==> s.alias[a] in s.compact
  {
    forall a | a in s.alias ensures s.alias[a] in s.compact { var x, k := AliasRow(importers, s, a); }
  }

  lemma {:induction false} ValueKnown(importers: seq<Importer>, alias: map<string, string>, v: Dependency)
    requires CatalogBuilder.Aliased(importers, alias)
    ensures ValueIn(alias, v) <==> ValueFits(importers, v)
  {
    if ValueFits(importers, v) {
      forall r | r in v.importerRefs ensures r in alias { assert Known(importers, r); }
      forall r | r in v.effectImporterRefs ensures r in alias { assert Known(importers, r); }
    }
  }

  lemma {:induction false} SentInto(values: seq<Dependency>, s: Stage, id: string, effect: bool, r: string)
    requires Merged(values, s.alias, s.byId) && id in s.byId && r in RefsOf(s.byId[id], effect)
    requires forall a :: a in s.alias ==> s.alias[a] in s.compact
    ensures r in s.compact
  {
    assert RowMerged(values, s.alias, id, s.byId[id]);
    assert Sends(values, s.alias, id, effect, r);
    var v :| v in values && DependencyIdentity(v) == id && Sent(s.alias, RefsOf(v, effect), r);
    var q :| q in RefsOf(v, effect) && q in s.alias && s.alias[q] == r;
  }

  lemma {:induction false} RowsKeyed(values: seq<Dependency>, s: Stage)
    requires Merged(values, s.alias, s.byId) && forall v :: v in values ==> ValueIn(s.alias, v)
    requires forall a :: a in s.alias ==> s.alias[a] in s.compact
    ensures KeyedRows(s.byId, s.compact)
  {
    forall id | id in s.byId
      ensures s.byId[id].id == id && DependencyIdentity(s.byId[id]) == id && FieldsFit(s.byId[id])
      ensures AllIn(s.byId[id].importerRefs, s.compact) && AllIn(s.byId[id].effectImporterRefs, s.compact)
    {
      assert RowMerged(values, s.alias, id, s.byId[id]);
      var v :| v in values && DependencyIdentity(v) == id;
      ShapeKeepsFit(v, s.byId[id]);
      forall r | r in s.byId[id].importerRefs ensures r in s.compact { SentInto(values, s, id, false, r); }
      forall r | r in s.byId[id].effectImporterRefs ensures r in s.compact { SentInto(values, s, id, true, r); }
    }
  }

  // ----- when the result is valid -----

  lemma {:induction false} RowListed(p: Parts, s: Stage, e: Dependency)
    requires Staged(p, s) && e in s.deps
    ensures forall r :: r in e.importerRefs || r in e.effectImporterRefs ==> Listed(s.ordered, r)
  {
    forall r | r in e.importerRefs ensures Listed(s.ordered, r) { RefListed(p, s, e, false, r); }
    forall r | r in e.effectImporterRefs ensures Listed(s.ordered, r) { RefListed(p, s, e, true, r); }
  }

  lemma {:induction false} RowSorted(p: Parts, s: Stage, e: Dependency)
    requires Staged(p, s) && e in s.deps
    ensures Ordered(e.importerRefs, RefLess) && Ordered(e.effectImporterRefs, RefLess)
  {
    var v := ValueOfRow(p.values, s, e);
    assert Ordered(RefsOf(e, false), RefLess) && Ordered(RefsOf(e, true), RefLess);
  }

  lemma {:induction false} EffectReaches(s: Stage, e: Dependency, x: Importer)
    requires Distinct(Result(s)) && e in s.deps
    requires Effects(Output(s), Shape(e), x) ==> Uses(Output(s), Shape(e), x)
    ensures Reaches(s.ordered, e.effectImporterRefs, x) ==> Reaches(s.ordered, e.importerRefs, x)
  {
    var k: nat :| k < |s.deps| && s.deps[k] == e;
    UsesAt(Result(s), k, x);
    assert PartsOf(Result(s)) == Output(s);
  }

  lemma {:induction false} EffectIn(p: Parts, s: Stage, e: Dependency, r: string)
    requires Staged(p, s) && e in s.deps && r in e.effectImporterRefs
    requires forall d, x :: Effects(Output(s), d, x) ==> Uses(Output(s), d, x)
    ensures r in e.importerRefs
  {
    ResultDistinct(s);
    RowListed(p, s, e);
    forall x ensures Reaches(s.ordered, e.effectImporterRefs, x) ==> Reaches(s.ordered, e.importerRefs, x) {
      EffectReaches(s, e, x);
    }
    RefKept(s.ordered, e.effectImporterRefs, e.importerRefs, r);
  }

  lemma {:induction false} RowsFit(p: Parts, s: Stage, e: Dependency)
    requires Staged(p, s) && e in s.deps
    requires forall d, x :: Effects(p, d, x) ==> Uses(p, d, x)
    ensures ShapeFits(e) && RefsFit(s.ordered, e)
  {
    ContentCarried(p, s);
    RowShaped(p, s, e);
    RowListed(p, s, e);
    RowSorted(p, s, e);
    forall r | r in e.effectImporterRefs ensures r in e.importerRefs { EffectIn(p, s, e, r); }
  }

  lemma {:induction false} OnlyRow(ordered: seq<Importer>, k: nat, path: string)
    requires Numbered(ordered) && k < |ordered|
    ensures (exists x :: x in ordered && x.ref == ordered[k].ref && x.packagePath == path)
            <==> ordered[k].packagePath == path
  {
    assert ordered[k] in ordered;
    if exists x :: x in ordered && x.ref == ordered[k].ref && x.packagePath == path {
      var x :| x in ordered && x.ref == ordered[k].ref && x.packagePath == path;
      var j: nat :| j < |ordered| && ordered[j] == x;
      SameNumber(ordered, j, k);
    }
  }

  lemma {:induction false} OnlyNamed(importers: seq<Importer>, alias: map<string, string>, ref: string, y: Importer,
                                     path: string)
    requires CatalogBuilder.Aliased(importers, alias) && y in importers && Names(y, ref)
    ensures (exists x :: x in importers && Names(x, ref) && x.packagePath == path) <==> y.packagePath == path
  {
    if exists x :: x in importers && Names(x, ref) && x.packagePath == path {
      var x :| x in importers && Names(x, ref) && x.packagePath == path;
      OneImporter(x, y);
      assert x.packagePath == Bare(x).packagePath && y.packagePath == Bare(y).packagePath;
    }
  }

  lemma {:induction false} PlainPlaced(o: Omission, ref: string)
    requires ref != "" && o.importerRef != ""
    ensures OmissionPlain(o.(importerRef := ref)) <==> OmissionPlain(o)
  {
  }

  lemma {:induction false} OmissionRow(importers: seq<Importer>, s: Stage, o: Omission)
    requires ImportersStaged(importers, s) && RefIn(s.alias, s.compact, o)
    ensures OmissionPlaced(importers, o) <==> OmissionFits(s.ordered, PlacedOmission(s.alias, s.compact, o))
  {
    if o.importerRef != "" {
      var y, k := AliasRow(importers, s, o.importerRef);
      assert s.ordered[k].ref == Compact('i', k + 1);
      assert y.packagePath == Bare(y).packagePath == Bare(s.ordered[k]).packagePath;
      PlainPlaced(o, s.ordered[k].ref);
      OnlyRow(s.ordered, k, o.importerPackagePath);
      OnlyNamed(importers, s.alias, o.importerRef, y, o.importerPackagePath);
    }
  }

  lemma {:induction false} OmissionsFit(p: Parts, s: Stage)
    requires Staged(p, s)
    ensures (forall o :: o in p.omissions ==> OmissionPlaced(p.importers, o))
            <==> (forall q :: q in s.placed ==> OmissionFits(s.ordered, q))
  {
    if forall o :: o in p.omissions ==> OmissionPlaced(p.importers, o) {
      forall q | q in s.placed ensures OmissionFits(s.ordered, q) {
        var o :| o in p.omissions && RefIn(s.alias, s.compact, o) && q == PlacedOmission(s.alias, s.compact, o);
        OmissionRow(p.importers, s, o);
      }
    }
    if forall q :: q in s.placed ==> OmissionFits(s.ordered, q) {
      forall o | o in p.omissions ensures OmissionPlaced(p.importers, o) {
        OmissionRow(p.importers, s, o);
        assert PlacedOmission(s.alias, s.compact, o) in s.placed;
      }
    }
  }

  lemma {:induction false} NumberedFit(p: Parts, s: Stage)
    requires Staged(p, s) && forall x :: x in p.importers ==> ImporterFits(x)
    ensures forall x :: x in s.ordered ==> ImporterFits(x)
  {
    forall x | x in s.ordered ensures ImporterFits(x) {
      assert Holds(s.ordered, Bare(x));
      HoldsCarried(p.importers, s, Bare(x));
      var y :| y in p.importers && Bare(y) == Bare(x);
      assert ImporterFits(y) == ImporterFits(Bare(y)) && ImporterFits(x) == ImporterFits(Bare(x));
    }
  }

  lemma {:induction false} ResultFits(p: Parts, s: Stage)
    requires Staged(p, s) && forall x :: x in p.importers ==> ImporterFits(x)
    requires forall d, x :: Effects(p, d, x) ==> Uses(p, d, x)
    requires forall o :: o in p.omissions ==> OmissionPlaced(p.importers, o)
    ensures Valid(Result(s))
  {
    NumberedFit(p, s);
    OmissionsFit(p, s);
    forall e | e in s.deps ensures ShapeFits(e) && RefsFit(s.ordered, e) { RowsFit(p, s, e); }
  }

  lemma {:induction false} FitFromResult(p: Parts, s: Stage)
    requires Staged(p, s) && Valid(Result(s))
    ensures forall d, x :: Effects(p, d, x) ==> Uses(p, d, x)
    ensures forall o :: o in p.omissions ==> OmissionPlaced(p.importers, o)
  {
    ContentCarried(p, s);
    OmissionsFit(p, s);
    assert PartsOf(Result(s)) == Output(s);
    forall d, x | Effects(p, d, x) ensures Uses(p, d, x) { EffectsUse(Result(s), d, x); }
  }

  lemma {:induction false} Finishes(p: Parts, s: Stage)
    requires Staged(p, s) && ImportersFit(p.importers) && (forall v :: v in p.values ==> ValueFits(p.importers, v))
             && OneShape(p.values)
    ensures Valid(Result(s)) <==> Accepts(p)
    ensures Valid(Result(s)) ==> Builds(p, Some(Result(s)))
  {
    if Accepts(p) { ResultFits(p, s); }
    if Valid(Result(s)) {
      FitFromResult(p, s);
      ContentCarried(p, s);
      ResultDistinct(s);
      assert PartsOf(Result(s)) == Output(s);
    }
  }

  lemma {:induction false} UnknownOmission(importers: seq<Importer>, alias: map<string, string>, o: Omission)
    requires CatalogBuilder.Aliased(importers, alias) && OmissionPlaced(importers, o) && o.importerRef != ""
    ensures o.importerRef in alias
  {
    var x :| x in importers && Names(x, o.importerRef) && x.packagePath == o.importerPackagePath;
  }

  // ----- the operations -----

  /** Seals and numbers the importers. */
  method RankImporters(importers: seq<Importer>)
    returns (ok: bool, byRef: map<string, Importer>, alias: map<string, string>, ordered: seq<Importer>,
      compact: map<string, string>)
    ensures ok <==> ImportersFit(importers)
    ensures ok ==> ImportersStaged(importers, Stage(byRef, alias, ordered, compact, map[], [], []))
    ensures ok ==> forall a :: a in alias ==> alias[a] in compact
    ensures ok ==> forall v :: ValueIn(alias, v) <==> ValueFits(importers, v)
  {
    ordered, compact := [], map[];
    ok, byRef, alias := CatalogBuilder.SealImporters(importers);
    if ok {
      CatalogBuilder.SealedKeyed(importers, byRef);
      ordered, compact := CatalogBuilder.NumberImporters(byRef);
      AliasesPlaced(importers, Stage(byRef, alias, ordered, compact, map[], [], []));
      forall v ensures ValueIn(alias, v) <==> ValueFits(importers, v) { ValueKnown(importers, alias, v); }
    }
  }

  lemma {:induction false} UnknownReference(p: Parts, alias: map<string, string>, compact: map<string, string>)
    requires CatalogBuilder.Aliased(p.importers, alias) && forall a :: a in alias ==> alias[a] in compact
    requires !forall o :: o in p.omissions ==> RefIn(alias, compact, o)
    ensures !Accepts(p)
  {
    var o :| o in p.omissions && !RefIn(alias, compact, o);
    if OmissionPlaced(p.importers, o) { UnknownOmission(p.importers, alias, o); }
  }

  /** Builds the catalog of the given rows. */
  method BuildWithOmissions(importers: seq<Importer>, values: seq<Dependency>, omissions: seq<Omission>)
    returns (r: Option<Catalog>)
    ensures Builds(Parts(importers, values, omissions), r)
  {
    ghost var p := Parts(importers, values, omissions);
    var ok, byRef, alias, ordered, compact := RankImporters(importers);
    if !ok { return None; }
    var byId;
    ok, byId := MergeRows(values, alias);
    if !ok { return None; }
    RowsKeyed(values, Stage(byRef, alias, ordered, compact, byId, [], []));
    var deps, retained := PlaceRows(byId, compact);
    var placed;
    ok, placed := PlaceOmissions(omissions, alias, compact);
    if !ok {
      UnknownReference(p, alias, compact);
      return None;
    }
    ghost var s := Stage(byRef, alias, ordered, compact, byId, deps, placed);
    Finishes(p, s);
    var state := if |placed| > 0 then Partial else Complete;
    var c := Catalog(VERSION, ordered, deps, Coverage(state, retained + |placed|, retained, placed));
    assert c == Result(s);
    ok := CatalogCheck.Validate(c);
    return if ok then Some(c) else None;
  }

  /** The references that are kept. */
  method KeepRefs(list: seq<string>, kept: set<string>) returns (r: seq<string>)
    ensures r == KeptOf(list, kept)
  {
    r := [];
    for k := 0 to |list|
      invariant r == KeptOf(list[..k], kept)
    {
      assert list[..k+1][..k] == list[..k];
      if list[k] in kept { r := r + [list[k]]; }
    }
    assert list[..|list|] == list;
  }

  /** Keeps the given importers and what they import. */
  method Subset(c: Catalog, refs: set<string>) returns (r: Option<Catalog>)
    ensures r.Some? <==> Valid(c) && Accepts(SubsetOf(c, refs))
    ensures Valid(c) ==> Builds(SubsetOf(c, refs), r)
  {
    var ok := CatalogCheck.Validate(c);
    if !ok { return None; }
    var importers: seq<Importer>, kept: set<string> := [], {};
    for k := 0 to |c.importers|
      invariant importers == KeptImporters(c.importers[..k], refs)
      invariant kept == KeptRefs(c.importers[..k], refs)
    {
      assert c.importers[..k+1] == c.importers[..k] + [c.importers[k]] && c.importers[..k+1][..k] == c.importers[..k];
      if c.importers[k].ref in refs {
        importers := importers + [c.importers[k]];
        kept := kept + {c.importers[k].ref};
      }
    }
    assert c.importers[..|c.importers|] == c.importers;
    var values := [];
    for k := 0 to |c.dependencies|
      invariant values == KeptRows(c.dependencies[..k], kept)
    {
      assert c.dependencies[..k+1][..k] == c.dependencies[..k];
      var refs := KeepRefs(c.dependencies[k].importerRefs, kept);
      var effects := KeepRefs(c.dependencies[k].effectImporterRefs, kept);
      var row := c.dependencies[k].(importerRefs := refs, effectImporterRefs := effects);
      if |row.importerRefs| > 0 { values := values + [row]; }
    }
    assert c.dependencies[..|c.dependencies|] == c.dependencies;
    var omissions := [];
    for k := 0 to |c.coverage.omissions|
      invariant omissions == KeptOmissions(c.coverage.omissions[..k], kept)
    {
      assert c.coverage.omissions[..k+1][..k] == c.coverage.omissions[..k];
      var o := c.coverage.omissions[k];
      if o.importerRef != "" && o.importerRef in kept { omissions := omissions + [o]; }
    }
    assert c.coverage.omissions[..|c.coverage.omissions|] == c.coverage.omissions;
    r := BuildWithOmissions(importers, values, omissions);
  }
}
