/** The catalog's operations (internal/dependencies/catalog.go:117-237, 314-360), and that
    building a catalog keeps what its parts say. */
module CatalogBuild {
  import opened Ordering
  import opened Canon
  import opened Catalog
  import opened CatalogFacts
  import opened CatalogParts
  import opened CatalogSubset
  import opened CatalogRows
  import opened CatalogPlaces
  import CatalogBuilder

  /** What the steps of building leave behind. */
  datatype Stage = Stage(byRef: map<string, Importer>, alias: map<string, string>, ordered: seq<Importer>,
                         compact: map<string, string>, byId: map<string, Dependency>, deps: seq<Dependency>,
                         placed: seq<Omission>)

  ghost predicate ImportersStaged(importers: seq<Importer>, s: Stage) {
    && CatalogBuilder.ByRef(importers, s.byRef) && CatalogBuilder.Aliased(importers, s.alias)
    && CatalogBuilder.Ranked(s.byRef, s.ordered, s.compact) && CatalogBuilder.LocalValues(s.compact)
  }

  ghost predicate ValuesStaged(values: seq<Dependency>, s: Stage) {
    && (forall v :: v in values ==> ValueIn(s.alias, v))
    && Merged(values, s.alias, s.byId)
    && Finished(s.byId, s.compact, s.deps)
  }

  function Output(s: Stage): Parts {
    Parts(s.ordered, s.deps, s.placed)
  }

  // ----- references keep their importers -----

  lemma {:induction false} RankOf(byRef: map<string, Importer>, ordered: seq<Importer>, compact: map<string, string>,
                                  id: string)
    returns (k: nat)
    requires CatalogBuilder.Ranked(byRef, ordered, compact) && id in byRef
    ensures id in compact && k < |ordered| && ordered[k].ref == compact[id] && Bare(ordered[k]) == Bare(byRef[id])
  {
    k :| 0 <= k < |ordered| && Identity(ordered[k]) == id && ordered[k].ref == compact[id];
  }

  lemma {:induction false} AliasRow(importers: seq<Importer>, s: Stage, a: string) returns (x: Importer, k: nat)
    requires ImportersStaged(importers, s) && a in s.alias
    ensures x in importers && Names(x, a) && s.alias[a] == Identity(x) && s.alias[a] in s.compact
    ensures k < |s.ordered| && s.ordered[k].ref == s.compact[s.alias[a]] && Bare(s.ordered[k]) == Bare(x)
  {
    x :| x in importers && Names(x, a);
    var id := Identity(x);
    k := RankOf(s.byRef, s.ordered, s.compact, id);
    assert Bare(s.byRef[id]) == Bare(x.(ref := id)) == Bare(x);
  }

  /** A reference and the number it is given stand for the same importer. */
  lemma {:induction false} Carried(importers: seq<Importer>, s: Stage, a: string, x: Importer)
    requires ImportersStaged(importers, s) && a in s.alias
    ensures s.alias[a] in s.compact && Listed(s.ordered, s.compact[s.alias[a]])
    ensures Refers(importers, a, x) <==> Refers(s.ordered, s.compact[s.alias[a]], x)
  {
    var y, k := AliasRow(importers, s, a);
    RefersAt(s.ordered, k, x);
    assert s.ordered[k] in s.ordered;
    if Refers(importers, a, x) {
      var z :| z in importers && Names(z, a) && Bare(z) == x;
      assert Identity(z) == Identity(y) && s.byRef[Identity(z)] == z.(ref := Identity(z)) == y.(ref := Identity(y));
      assert Bare(z.(ref := Identity(z))) == Bare(z) && Bare(y.(ref := Identity(y))) == Bare(y);
    }
  }

  lemma {:induction false} HeldCarried(importers: seq<Importer>, s: Stage, y: Importer)
    requires ImportersStaged(importers, s) && y in importers
    ensures Holds(s.ordered, Bare(y))
  {
    var id := Identity(y);
    assert s.byRef[id] == y.(ref := id);
    var k := RankOf(s.byRef, s.ordered, s.compact, id);
    assert s.ordered[k] in s.ordered && Bare(s.ordered[k]) == Bare(y.(ref := id)) == Bare(y);
  }

  lemma {:induction false} HeldBefore(importers: seq<Importer>, s: Stage, k: nat)
    requires ImportersStaged(importers, s) && k < |s.ordered|
    ensures Holds(importers, Bare(s.ordered[k]))
  {
    var id := Identity(s.ordered[k]);
    var z :| z in importers && Identity(z) == id;
    assert s.byRef[id] == z.(ref := id);
    assert Bare(z.(ref := id)) == Bare(z);
  }

  lemma {:induction false} HoldsAt(importers: seq<Importer>, x: Importer) returns (k: nat)
    requires Holds(importers, x)
    ensures k < |importers| && importers[k] in importers && Bare(importers[k]) == x
  {
    var y :| y in importers && Bare(y) == x;
    k :| 0 <= k < |importers| && importers[k] == y;
  }

  lemma {:induction false} HoldsCarried(importers: seq<Importer>, s: Stage, x: Importer)
    requires ImportersStaged(importers, s)
    ensures Holds(importers, x) <==> Holds(s.ordered, x)
  {
    if Holds(importers, x) {
      var j := HoldsAt(importers, x);
      HeldCarried(importers, s, importers[j]);
    }
    if Holds(s.ordered, x) {
      var k := HoldsAt(s.ordered, x);
      HeldBefore(importers, s, k);
    }
  }

  // ----- rows keep their uses -----

  ghost predicate UsesBy(p: Parts, effect: bool, d: Dependency, x: Importer) {
    exists v :: v in p.values && Shape(v) == d && Reaches(p.importers, RefsOf(v, effect), x)
  }

  lemma {:induction false} UsesAre(p: Parts, d: Dependency, x: Importer)
    ensures UsesBy(p, false, d, x) <==> Uses(p, d, x)
    ensures UsesBy(p, true, d, x) <==> Effects(p, d, x)
  {
    assert forall v: Dependency :: RefsOf(v, false) == v.importerRefs && RefsOf(v, true) == v.effectImporterRefs;
    if Uses(p, d, x) {
      var v :| v in p.values && Shape(v) == d && Reaches(p.importers, v.importerRefs, x);
      assert Reaches(p.importers, RefsOf(v, false), x);
    }
    if Effects(p, d, x) {
      var v :| v in p.values && Shape(v) == d && Reaches(p.importers, v.effectImporterRefs, x);
      assert Reaches(p.importers, RefsOf(v, true), x);
    }
  }

  lemma {:induction false} RowOfUse(values: seq<Dependency>, s: Stage, v: Dependency) returns (e: Dependency)
    requires ValuesStaged(values, s) && v in values
    ensures e in s.deps && Shape(e) == Shape(v) && DependencyIdentity(e) == DependencyIdentity(v)
    ensures DependencyIdentity(v) in s.byId && PlacedRow(s.compact, s.byId[DependencyIdentity(v)], e)
  {
    var id := DependencyIdentity(v);
    assert id in s.byId && Shape(s.byId[id]) == Shape(v);
    e :| e in s.deps && DependencyIdentity(e) == id;
    assert PlacedRow(s.compact, s.byId[id], e);
  }

  lemma {:induction false} RefIsIn(s: Stage, v: Dependency, effect: bool, r: string)
    requires ValueIn(s.alias, v) && r in RefsOf(v, effect)
    ensures r in s.alias
  {
    if effect { assert r in v.effectImporterRefs; } else { assert r in v.importerRefs; }
  }

  lemma {:induction false} RefGoes(values: seq<Dependency>, s: Stage, v: Dependency, effect: bool, r: string)
    requires Merged(values, s.alias, s.byId) && v in values && r in RefsOf(v, effect) && r in s.alias
             && s.alias[r] in s.compact
    ensures DependencyIdentity(v) in s.byId
            && Sent(s.compact, RefsOf(s.byId[DependencyIdentity(v)], effect), s.compact[s.alias[r]])
  {
    var id := DependencyIdentity(v);
    assert id in s.byId;
    assert RowMerged(values, s.alias, id, s.byId[id]);
    assert Sent(s.alias, RefsOf(v, effect), s.alias[r]);
    assert Sends(values, s.alias, id, effect, s.alias[r]);
    assert s.alias[r] in RefsOf(s.byId[id], effect);
  }

  lemma {:induction false} RefComes(values: seq<Dependency>, s: Stage, e: Dependency, effect: bool, r: string)
    returns (v: Dependency, q: string)
    requires ValuesStaged(values, s) && e in s.deps && r in RefsOf(e, effect)
    ensures v in values && Shape(v) == Shape(e) && q in RefsOf(v, effect) && q in s.alias && s.alias[q] in s.compact
            && s.compact[s.alias[q]] == r
  {
    var id := DependencyIdentity(e);
    assert PlacedRow(s.compact, s.byId[id], e);
    assert Sent(s.compact, RefsOf(s.byId[id], effect), r);
    var m :| m in RefsOf(s.byId[id], effect) && m in s.compact && s.compact[m] == r;
    assert RowMerged(values, s.alias, id, s.byId[id]);
    assert Sends(values, s.alias, id, effect, m);
    v :| v in values && DependencyIdentity(v) == id && Sent(s.alias, RefsOf(v, effect), m);
    q :| q in RefsOf(v, effect) && q in s.alias && s.alias[q] == m;
    assert Shape(s.byId[id]) == Shape(v);
  }

  lemma {:induction false} UseGoes(p: Parts, s: Stage, effect: bool, d: Dependency, x: Importer)
    requires ImportersStaged(p.importers, s) && ValuesStaged(p.values, s) && UsesBy(p, effect, d, x)
    ensures UsesBy(Output(s), effect, d, x)
  {
    var v :| v in p.values && Shape(v) == d && Reaches(p.importers, RefsOf(v, effect), x);
    var r :| r in RefsOf(v, effect) && Refers(p.importers, r, x);
    RefIsIn(s, v, effect, r);
    Carried(p.importers, s, r, x);
    RefGoes(p.values, s, v, effect, r);
    var e := RowOfUse(p.values, s, v);
    assert s.compact[s.alias[r]] in RefsOf(e, effect);
    assert Reaches(s.ordered, RefsOf(e, effect), x);
  }

  lemma {:induction false} UseComes(p: Parts, s: Stage, effect: bool, d: Dependency, x: Importer)
    requires ImportersStaged(p.importers, s) && ValuesStaged(p.values, s) && UsesBy(Output(s), effect, d, x)
    ensures UsesBy(p, effect, d, x)
  {
    var e :| e in s.deps && Shape(e) == d && Reaches(s.ordered, RefsOf(e, effect), x);
    var r :| r in RefsOf(e, effect) && Refers(s.ordered, r, x);
    var v, q := RefComes(p.values, s, e, effect, r);
    Carried(p.importers, s, q, x);
    assert Reaches(p.importers, RefsOf(v, effect), x);
  }

  lemma {:induction false} UsesCarried(p: Parts, s: Stage, effect: bool, d: Dependency, x: Importer)
    requires ImportersStaged(p.importers, s) && ValuesStaged(p.values, s)
    ensures UsesBy(p, effect, d, x) <==> UsesBy(Output(s), effect, d, x)
  {
    if UsesBy(p, effect, d, x) { UseGoes(p, s, effect, d, x); }
    if UsesBy(Output(s), effect, d, x) { UseComes(p, s, effect, d, x); }
  }

  // ----- omissions keep their importers -----

  lemma {:induction false} OmissionCarried(importers: seq<Importer>, s: Stage, q: Omission, o: Omission,
                                           x: Option<Importer>)
    requires ImportersStaged(importers, s) && RefIn(s.alias, s.compact, q)
    ensures IsOmission(importers, q, o, x) <==> IsOmission(s.ordered, PlacedOmission(s.alias, s.compact, q), o, x)
  {
    if q.importerRef != "" {
      var y, k := AliasRow(importers, s, q.importerRef);
      assert s.ordered[k].ref == Compact('i', k + 1);
      if x.Some? { Carried(importers, s, q.importerRef, x.value); }
    }
  }

  lemma {:induction false} OmitsCarried(p: Parts, s: Stage, o: Omission, x: Option<Importer>)
    requires ImportersStaged(p.importers, s) && OmissionsPlaced(s.alias, s.compact, p.omissions, s.placed)
    ensures Omits(p, o, x) <==> Omits(Output(s), o, x)
  {
    if Omits(p, o, x) {
      var q :| q in p.omissions && IsOmission(p.importers, q, o, x);
      OmissionCarried(p.importers, s, q, o, x);
      assert PlacedOmission(s.alias, s.compact, q) in s.placed;
    }
    if Omits(Output(s), o, x) {
      var r :| r in s.placed && IsOmission(s.ordered, r, o, x);
      var q :| q in p.omissions && RefIn(s.alias, s.compact, q) && r == PlacedOmission(s.alias, s.compact, q);
      OmissionCarried(p.importers, s, q, o, x);
    }
  }

  ghost predicate Staged(p: Parts, s: Stage) {
    ImportersStaged(p.importers, s) && ValuesStaged(p.values, s)
      && OmissionsPlaced(s.alias, s.compact, p.omissions, s.placed)
  }

  /** Building keeps what the parts say. */
  lemma {:induction false} ContentCarried(p: Parts, s: Stage)
    requires Staged(p, s)
    ensures SameContent(p, Output(s))
  {
    forall x ensures Holds(p.importers, x) <==> Holds(s.ordered, x) { HoldsCarried(p.importers, s, x); }
    forall d, x ensures (Uses(p, d, x) <==> Uses(Output(s), d, x)) && (Effects(p, d, x) <==> Effects(Output(s), d, x)) {
      UsesCarried(p, s, false, d, x);
      UsesCarried(p, s, true, d, x);
      UsesAre(p, d, x);
      UsesAre(Output(s), d, x);
    }
    forall o, x ensures Omits(p, o, x) <==> Omits(Output(s), o, x) { OmitsCarried(p, s, o, x); }
  }

  // ----- when the result is valid -----

  /** The catalog the last step checks. */
  function Result(s: Stage): Catalog {
    var retained := Retained(s.deps);
    Catalog(VERSION, s.ordered, s.deps,
      Coverage(if s.placed == [] then Complete else Partial, retained + |s.placed|, retained, s.placed))
  }

  lemma {:induction false} ResultDistinct(s: Stage)
    requires Apart(s.ordered) && KeysApart(s.deps)
    ensures Distinct(Result(s))
  {
  }

  lemma {:induction false} RefListed(p: Parts, s: Stage, e: Dependency, effect: bool, r: string)
    requires Staged(p, s) && e in s.deps && r in RefsOf(e, effect)
    ensures Listed(s.ordered, r)
  {
    var v, q := RefComes(p.values, s, e, effect, r);
    var y, k := AliasRow(p.importers, s, q);
    assert s.ordered[k] in s.ordered;
  }

  lemma {:induction false} ValueOfRow(values: seq<Dependency>, s: Stage, e: Dependency) returns (v: Dependency)
    requires ValuesStaged(values, s) && e in s.deps
    ensures v in values && DependencyIdentity(v) == DependencyIdentity(e) && Shape(v) == Shape(e) && ValueIn(s.alias, v)
    ensures DependencyIdentity(e) in s.byId && PlacedRow(s.compact, s.byId[DependencyIdentity(e)], e)
  {
    var id := DependencyIdentity(e);
    assert PlacedRow(s.compact, s.byId[id], e) && RowMerged(values, s.alias, id, s.byId[id]);
    v :| v in values && DependencyIdentity(v) == id;
    assert Shape(s.byId[id]) == Shape(v);
  }

  lemma {:induction false} RowShaped(p: Parts, s: Stage, e: Dependency)
    requires Staged(p, s) && e in s.deps
    ensures ShapeFits(e)
  {
    var v := ValueOfRow(p.values, s, e);
    ShapeKeepsFit(e, v);
    var r := v.importerRefs[0];
    assert r in RefsOf(v, false) && r in v.importerRefs;
    var y, k := AliasRow(p.importers, s, r);
    RefGoes(p.values, s, v, false, r);
    assert s.compact[s.alias[r]] in RefsOf(e, false);
  }
}
