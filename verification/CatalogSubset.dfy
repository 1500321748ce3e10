/** What keeping some importers of a catalog leaves (internal/dependencies/catalog.go:314-360). */
module CatalogSubset {
  import opened Ordering
  import opened Canon
  import opened Catalog
  import opened CatalogFacts
  import opened CatalogParts

  // ----- what is kept -----

  function Filter<T>(s: seq<T>, keep: T -> bool): seq<T> {
    if s == [] then [] else Filter(s[..|s|-1], keep) + if keep(s[|s|-1]) then [s[|s|-1]] else []
  }

  lemma {:induction false} FilterMembers<T>(s: seq<T>, keep: T -> bool)
    ensures forall x :: x in Filter(s, keep) <==> x in s && keep(x)
  {
    if s != [] {
      FilterMembers(s[..|s|-1], keep);
      assert s == s[..|s|-1] + [s[|s|-1]];
    }
  }

  lemma {:induction false} FilterAll<T>(s: seq<T>, keep: T -> bool)
    requires forall x :: x in s ==> keep(x)
    ensures Filter(s, keep) == s
  {
    if s != [] {
      FilterAll(s[..|s|-1], keep);
      assert s == s[..|s|-1] + [s[|s|-1]];
    }
  }

  function KeptImporters(importers: seq<Importer>, refs: set<string>): seq<Importer> {
    Filter(importers, (x: Importer) => x.ref in refs)
  }

  function KeptRefs(importers: seq<Importer>, refs: set<string>): set<string> {
    set x | x in importers && x.ref in refs :: x.ref
  }

  function KeptOf(list: seq<string>, kept: set<string>): seq<string> {
    Filter(list, r => r in kept)
  }

  function KeptRow(d: Dependency, kept: set<string>): Dependency {
    d.(importerRefs := KeptOf(d.importerRefs, kept), effectImporterRefs := KeptOf(d.effectImporterRefs, kept))
  }

  function KeptRows(values: seq<Dependency>, kept: set<string>): seq<Dependency> {
    if values == [] then []
    else
      var row := KeptRow(values[|values|-1], kept);
      KeptRows(values[..|values|-1], kept) + if row.importerRefs == [] then [] else [row]
  }

  function KeptOmissions(omissions: seq<Omission>, kept: set<string>): seq<Omission> {
    Filter(omissions, (o: Omission) => o.importerRef != "" && o.importerRef in kept)
  }

  function SubsetOf(c: Catalog, refs: set<string>): Parts {
    var kept := KeptRefs(c.importers, refs);
    Parts(KeptImporters(c.importers, refs), KeptRows(c.dependencies, kept), KeptOmissions(c.coverage.omissions, kept))
  }

  ghost predicate Kept(importers: seq<Importer>, refs: set<string>, x: Importer) {
    exists y :: y in importers && y.ref in refs && Bare(y) == x
  }

  /** What is said of the kept importers, and nothing else. */
  ghost predicate Restricts(c: Catalog, refs: set<string>, p: Parts) {
    && (forall x :: Holds(p.importers, x) <==> Kept(c.importers, refs, x))
    && (forall d, x :: Uses(p, d, x) <==> Uses(PartsOf(c), d, x) && Kept(c.importers, refs, x))
    && (forall d, x :: Effects(p, d, x) <==> Effects(PartsOf(c), d, x) && Kept(c.importers, refs, x))
    && (forall o, x :: Omits(p, o, x) <==> x.Some? && Omits(PartsOf(c), o, x) && Kept(c.importers, refs, x.value))
  }

  // ----- references -----

  lemma {:induction false} RowKept(importers: seq<Importer>, refs: set<string>, k: nat)
    requires k < |importers|
    ensures importers[k].ref in refs ==>
            importers[k] in KeptImporters(importers, refs)
            && importers[k].ref in KeptRefs(importers, refs)
  {
    assert importers[k] in importers;
    FilterMembers(importers, (x: Importer) => x.ref in refs);
  }

  lemma {:induction false} KeptHolds(importers: seq<Importer>, refs: set<string>, x: Importer)
    ensures Holds(KeptImporters(importers, refs), x) <==> Kept(importers, refs, x)
  {
    FilterMembers(importers, (x: Importer) => x.ref in refs);
    if Kept(importers, refs, x) {
      var y :| y in importers && y.ref in refs && Bare(y) == x;
      assert y in KeptImporters(importers, refs);
    }
  }

  lemma {:induction false} RefersKept(importers: seq<Importer>, refs: set<string>, r: string, x: Importer)
    requires Numbered(importers) && Listed(importers, r)
    ensures Refers(KeptImporters(importers, refs), r, x) <==> r in refs && Refers(importers, r, x)
  {
    var k := RowRefers(importers, r, x);
    var b := KeptImporters(importers, refs);
    FilterMembers(importers, (x: Importer) => x.ref in refs);
    RowKept(importers, refs, k);
    if Refers(b, r, x) {
      var y :| y in b && Names(y, r) && Bare(y) == x;
      IdentityNotLocal(y, k + 1);
      assert y in importers && Refers(importers, r, x);
    }
    if r in refs && x == Bare(importers[k]) {
      ListedLocal(importers, r);
      assert importers[k] in b && Names(importers[k], r);
    }
  }

  lemma {:induction false} KeptAt(importers: seq<Importer>, refs: set<string>, k: nat)
    requires Numbered(importers) && Apart(importers) && k < |importers|
    ensures Kept(importers, refs, Bare(importers[k])) <==> importers[k].ref in refs
  {
    assert importers[k] in importers;
    if Kept(importers, refs, Bare(importers[k])) {
      var y :| y in importers && y.ref in refs && Bare(y) == Bare(importers[k]);
      SameBare(y, importers[k]);
    }
  }

  /** The kept references stand for the kept ones of the importers. */
  lemma {:induction false} ReachesKept(importers: seq<Importer>, refs: set<string>, list: seq<string>, x: Importer)
    requires Numbered(importers) && Apart(importers) && forall r :: r in list ==> Listed(importers, r)
    ensures var kept := KeptOf(list, KeptRefs(importers, refs));
            Reaches(KeptImporters(importers, refs), kept, x)
            <==> Reaches(importers, list, x) && Kept(importers, refs, x)
  {
    var kept := KeptRefs(importers, refs);
    FilterMembers(list, r => r in kept);
    if Reaches(KeptImporters(importers, refs), KeptOf(list, kept), x) {
      var r :| r in KeptOf(list, kept) && Refers(KeptImporters(importers, refs), r, x);
      RefersKept(importers, refs, r, x);
      var k := RowRefers(importers, r, x);
      KeptAt(importers, refs, k);
    }
    if Reaches(importers, list, x) && Kept(importers, refs, x) {
      var r :| r in list && Refers(importers, r, x);
      var k := RowRefers(importers, r, x);
      KeptAt(importers, refs, k);
      RowKept(importers, refs, k);
      RefersKept(importers, refs, r, x);
      assert r in KeptOf(list, kept);
    }
  }

  // ----- rows -----

  lemma {:induction false} RowsFrom(values: seq<Dependency>, kept: set<string>, w: Dependency) returns (v: Dependency)
    requires w in KeptRows(values, kept)
    ensures v in values && w == KeptRow(v, kept) && w.importerRefs != []
  {
    var rest, last := values[..|values|-1], values[|values|-1];
    if w in KeptRows(rest, kept) { v := RowsFrom(rest, kept, w); } else { v := last; }
  }

  lemma {:induction false} RowsTo(values: seq<Dependency>, kept: set<string>, v: Dependency)
    requires v in values && KeptRow(v, kept).importerRefs != []
    ensures KeptRow(v, kept) in KeptRows(values, kept)
  {
    var rest, last := values[..|values|-1], values[|values|-1];
    assert values == rest + [last];
    if v != last { RowsTo(rest, kept, v); }
  }

  lemma {:induction false} ReachesSome(importers: seq<Importer>, refs: seq<string>, x: Importer)
    requires Reaches(importers, refs, x)
    ensures refs != []
  {
  }

  lemma {:induction false} UsesKept(c: Catalog, refs: set<string>, d: Dependency, x: Importer)
    requires Valid(c) && Apart(c.importers)
    ensures Uses(SubsetOf(c, refs), d, x) <==> Uses(PartsOf(c), d, x) && Kept(c.importers, refs, x)
  {
    var p, kept := SubsetOf(c, refs), KeptRefs(c.importers, refs);
    if Uses(p, d, x) {
      var w :| w in p.values && Shape(w) == d && Reaches(p.importers, w.importerRefs, x);
      var v := RowsFrom(c.dependencies, kept, w);
      ReachesKept(c.importers, refs, v.importerRefs, x);
      assert Shape(v) == Shape(w);
    }
    if Uses(PartsOf(c), d, x) && Kept(c.importers, refs, x) {
      var v :| v in c.dependencies && Shape(v) == d && Reaches(c.importers, v.importerRefs, x);
      ReachesKept(c.importers, refs, v.importerRefs, x);
      ReachesSome(p.importers, KeptRow(v, kept).importerRefs, x);
      RowsTo(c.dependencies, kept, v);
      assert Shape(KeptRow(v, kept)) == Shape(v);
    }
  }

  lemma {:induction false} EffectReached(importers: seq<Importer>, d: Dependency, x: Importer)
    requires RefsFit(importers, d) && Reaches(importers, d.effectImporterRefs, x)
    ensures Reaches(importers, d.importerRefs, x)
  {
    var r :| r in d.effectImporterRefs && Refers(importers, r, x);
    assert r in d.importerRefs;
  }

  lemma {:induction false} EffectsKept(c: Catalog, refs: set<string>, d: Dependency, x: Importer)
    requires Valid(c) && Apart(c.importers)
    ensures Effects(SubsetOf(c, refs), d, x) <==> Effects(PartsOf(c), d, x) && Kept(c.importers, refs, x)
  {
    var p, kept := SubsetOf(c, refs), KeptRefs(c.importers, refs);
    if Effects(p, d, x) {
      var w :| w in p.values && Shape(w) == d && Reaches(p.importers, w.effectImporterRefs, x);
      var v := RowsFrom(c.dependencies, kept, w);
      ReachesKept(c.importers, refs, v.effectImporterRefs, x);
      assert Shape(v) == Shape(w);
    }
    if Effects(PartsOf(c), d, x) && Kept(c.importers, refs, x) {
      var v :| v in c.dependencies && Shape(v) == d && Reaches(c.importers, v.effectImporterRefs, x);
      ReachesKept(c.importers, refs, v.effectImporterRefs, x);
      EffectReached(c.importers, v, x);
      ReachesKept(c.importers, refs, v.importerRefs, x);
      ReachesSome(p.importers, KeptRow(v, kept).importerRefs, x);
      RowsTo(c.dependencies, kept, v);
      assert Shape(KeptRow(v, kept)) == Shape(v);
    }
  }

  lemma {:induction false} OmissionsKept(c: Catalog, refs: set<string>, q: Omission)
    ensures q in KeptOmissions(c.coverage.omissions, KeptRefs(c.importers, refs))
            <==> q in c.coverage.omissions && q.importerRef != "" && q.importerRef in KeptRefs(c.importers, refs)
  {
    var kept := KeptRefs(c.importers, refs);
    FilterMembers(c.coverage.omissions, (o: Omission) => o.importerRef != "" && o.importerRef in kept);
  }

  lemma {:induction false} OmitsKept(c: Catalog, refs: set<string>, o: Omission, x: Option<Importer>)
    requires Valid(c) && Apart(c.importers)
    ensures Omits(SubsetOf(c, refs), o, x) <==> x.Some? && Omits(PartsOf(c), o, x) && Kept(c.importers, refs, x.value)
  {
    var p := SubsetOf(c, refs);
    if Omits(p, o, x) {
      var q :| q in p.omissions && IsOmission(p.importers, q, o, x);
      OmissionsKept(c, refs, q);
      OmissionListed(c, q);
      RefersKept(c.importers, refs, q.importerRef, x.value);
      var k := RowRefers(c.importers, q.importerRef, x.value);
      KeptAt(c.importers, refs, k);
      assert IsOmission(c.importers, q, o, x);
    }
    if x.Some? && Omits(PartsOf(c), o, x) && Kept(c.importers, refs, x.value) {
      var q :| q in c.coverage.omissions && IsOmission(c.importers, q, o, x);
      OmissionListed(c, q);
      var k := RowRefers(c.importers, q.importerRef, x.value);
      KeptAt(c.importers, refs, k);
      RowKept(c.importers, refs, k);
      RefersKept(c.importers, refs, q.importerRef, x.value);
      OmissionsKept(c, refs, q);
      assert IsOmission(p.importers, q, o, x);
    }
  }

  lemma {:induction false} SubsetRestricts(c: Catalog, refs: set<string>)
    requires Valid(c) && Apart(c.importers)
    ensures Restricts(c, refs, SubsetOf(c, refs))
  {
    var p := SubsetOf(c, refs);
    forall x ensures Holds(p.importers, x) <==> Kept(c.importers, refs, x) { KeptHolds(c.importers, refs, x); }
    forall d, x ensures Uses(p, d, x) <==> Uses(PartsOf(c), d, x) && Kept(c.importers, refs, x) {
      UsesKept(c, refs, d, x);
    }
    forall d, x ensures Effects(p, d, x) <==> Effects(PartsOf(c), d, x) && Kept(c.importers, refs, x) {
      EffectsKept(c, refs, d, x);
    }
    forall o, x ensures Omits(p, o, x) <==> x.Some? && Omits(PartsOf(c), o, x) && Kept(c.importers, refs, x.value) {
      OmitsKept(c, refs, o, x);
    }
  }

  // ----- what is kept makes a catalog -----

  ghost predicate OneName(importers: seq<Importer>) {
    forall x, y :: x in importers && y in importers && Identity(x) == Identity(y) ==> Bare(x) == Bare(y)
  }

  lemma {:induction false} ImportersKept(importers: seq<Importer>, refs: set<string>)
    requires Numbered(importers) && forall x :: x in importers ==> ImporterFits(x)
    ensures ImportersFit(KeptImporters(importers, refs)) <==> OneName(KeptImporters(importers, refs))
  {
    FilterMembers(importers, (x: Importer) => x.ref in refs);
    var b := KeptImporters(importers, refs);
    forall x, y, ref | x in b && y in b && Names(x, ref) && Names(y, ref) ensures Identity(x) == Identity(y) {
      var j: nat :| j < |importers| && importers[j] == x;
      var k: nat :| k < |importers| && importers[k] == y;
      IdentityNotLocal(x, k + 1);
      IdentityNotLocal(y, j + 1);
      if x.ref == y.ref { SameNumber(importers, j, k); }
    }
  }

  lemma {:induction false} NamesKept(importers: seq<Importer>, refs: set<string>)
    requires Apart(importers)
    ensures OneName(KeptImporters(importers, refs))
  {
    FilterMembers(importers, (x: Importer) => x.ref in refs);
  }

  lemma {:induction false} ListKnown(importers: seq<Importer>, refs: set<string>, list: seq<string>)
    requires Numbered(importers) && forall r :: r in list ==> Listed(importers, r)
    ensures RefsKnown(KeptImporters(importers, refs), KeptOf(list, KeptRefs(importers, refs)))
  {
    var kept := KeptRefs(importers, refs);
    FilterMembers(list, r => r in kept);
    forall r | r in KeptOf(list, kept) ensures Known(KeptImporters(importers, refs), r) {
      var k := RowOf(importers, r);
      ListedLocal(importers, r);
      RowKept(importers, refs, k);
    }
  }

  lemma {:induction false} ValueKept(c: Catalog, refs: set<string>, w: Dependency)
    requires Valid(c) && w in SubsetOf(c, refs).values
    ensures ValueFits(SubsetOf(c, refs).importers, w)
  {
    var v := RowsFrom(c.dependencies, KeptRefs(c.importers, refs), w);
    ListKnown(c.importers, refs, v.importerRefs);
    ListKnown(c.importers, refs, v.effectImporterRefs);
    assert FieldsFit(v) == FieldsFit(w);
  }

  lemma {:induction false} ShapesKept(c: Catalog, refs: set<string>)
    requires KeysApart(c.dependencies)
    ensures OneShape(SubsetOf(c, refs).values)
  {
    var values, kept := SubsetOf(c, refs).values, KeptRefs(c.importers, refs);
    forall u, v | u in values && v in values && DependencyIdentity(u) == DependencyIdentity(v)
      ensures Shape(u) == Shape(v)
    {
      var s := RowsFrom(c.dependencies, kept, u);
      var t := RowsFrom(c.dependencies, kept, v);
      assert Shape(s) == Shape(u) && Shape(t) == Shape(v);
      SameShape(s, u);
      SameShape(t, v);
    }
  }

  lemma {:induction false} OmissionKeptPlaced(c: Catalog, refs: set<string>, o: Omission)
    requires Valid(c) && o in SubsetOf(c, refs).omissions
    ensures OmissionPlaced(SubsetOf(c, refs).importers, o)
  {
    OmissionsKept(c, refs, o);
    assert OmissionFits(c.importers, o);
    var x :| x in c.importers && x.ref == o.importerRef && x.packagePath == o.importerPackagePath;
    var k: nat :| k < |c.importers| && c.importers[k] == x;
    var y :| y in c.importers && y.ref in refs && y.ref == o.importerRef;
    RowKept(c.importers, refs, k);
    assert Names(x, o.importerRef);
  }

  lemma {:induction false} EffectsUse(c: Catalog, d: Dependency, x: Importer)
    requires Valid(c) && Effects(PartsOf(c), d, x)
    ensures Uses(PartsOf(c), d, x)
  {
    var v :| v in c.dependencies && Shape(v) == d && Reaches(c.importers, v.effectImporterRefs, x);
    EffectReached(c.importers, v, x);
  }

  lemma {:induction false} KeptEffectUsed(c: Catalog, refs: set<string>, d: Dependency, x: Importer)
    requires Valid(c) && Effects(SubsetOf(c, refs), d, x)
    ensures Uses(SubsetOf(c, refs), d, x)
  {
    var p, kept := SubsetOf(c, refs), KeptRefs(c.importers, refs);
    var w :| w in p.values && Shape(w) == d && Reaches(p.importers, w.effectImporterRefs, x);
    var v := RowsFrom(c.dependencies, kept, w);
    var r :| r in w.effectImporterRefs && Refers(p.importers, r, x);
    FilterMembers(v.effectImporterRefs, q => q in kept);
    FilterMembers(v.importerRefs, q => q in kept);
    assert RefsFit(c.importers, v) && r in w.importerRefs;
    assert Reaches(p.importers, w.importerRefs, x);
  }

  /** What is kept of a valid catalog makes a catalog exactly where no identity kept has two
      names. */
  lemma {:induction false} SubsetAccepts(c: Catalog, refs: set<string>)
    requires Valid(c)
    ensures Accepts(SubsetOf(c, refs)) <==>
            OneName(KeptImporters(c.importers, refs))
            && OneShape(SubsetOf(c, refs).values)
  {
    var p := SubsetOf(c, refs);
    ImportersKept(c.importers, refs);
    forall v | v in p.values ensures ValueFits(p.importers, v) { ValueKept(c, refs, v); }
    forall d, x | Effects(p, d, x) ensures Uses(p, d, x) { KeptEffectUsed(c, refs, d, x); }
    forall o | o in p.omissions ensures OmissionPlaced(p.importers, o) { OmissionKeptPlaced(c, refs, o); }
  }

  lemma {:induction false} SubsetAccepted(c: Catalog, refs: set<string>)
    requires Valid(c) && Distinct(c)
    ensures Accepts(SubsetOf(c, refs))
  {
    SubsetAccepts(c, refs);
    NamesKept(c.importers, refs);
    ShapesKept(c, refs);
  }

  /** Keeping some importers of a catalog never fails, and keeps exactly the pairs, the effects
      and the omissions of those importers. */
  lemma {:induction false} SubsetKeeps(c: Catalog, refs: set<string>, r: Option<Catalog>)
    requires Valid(c) && Distinct(c) && Builds(SubsetOf(c, refs), r)
    ensures r.Some? && Restricts(c, refs, PartsOf(r.value))
  {
    SubsetAccepted(c, refs);
    SubsetRestricts(c, refs);
    var p, q := PartsOf(r.value), SubsetOf(c, refs);
    assert SameContent(p, q);
    forall x ensures Holds(p.importers, x) <==> Kept(c.importers, refs, x) {
      assert Holds(q.importers, x) <==> Kept(c.importers, refs, x);
    }
    forall d, x ensures Uses(p, d, x) <==> Uses(PartsOf(c), d, x) && Kept(c.importers, refs, x) {
      assert Uses(p, d, x) <==> Uses(q, d, x);
    }
    forall d, x ensures Effects(p, d, x) <==> Effects(PartsOf(c), d, x) && Kept(c.importers, refs, x) {
      assert Effects(p, d, x) <==> Effects(q, d, x);
    }
    forall o, x ensures Omits(p, o, x) <==> x.Some? && Omits(PartsOf(c), o, x) && Kept(c.importers, refs, x.value) {
      assert Omits(p, o, x) <==> Omits(q, o, x);
    }
  }

  // ----- keeping all importers -----

  lemma {:induction false} RowWhole(importers: seq<Importer>, d: Dependency, kept: set<string>)
    requires RefsFit(importers, d) && forall x :: x in importers ==> x.ref in kept
    ensures KeptRow(d, kept) == d
  {
    forall r | r in d.importerRefs ensures r in kept { var k := RowOf(importers, r); }
    FilterAll(d.importerRefs, r => r in kept);
    FilterAll(d.effectImporterRefs, r => r in kept);
  }

  lemma {:induction false} RowsWhole(importers: seq<Importer>, values: seq<Dependency>, kept: set<string>)
    requires forall d :: d in values ==> ShapeFits(d) && RefsFit(importers, d)
    requires forall x :: x in importers ==> x.ref in kept
    ensures KeptRows(values, kept) == values
  {
    if values != [] {
      var last := values[|values|-1];
      RowsWhole(importers, values[..|values|-1], kept);
      assert last in values;
      RowWhole(importers, last, kept);
      assert values == values[..|values|-1] + [last];
    }
  }

  lemma {:induction false} PlacedWhole(c: Catalog, refs: set<string>)
    requires Valid(c) && forall x :: x in c.importers ==> x.ref in refs
    requires forall o :: o in c.coverage.omissions ==> o.importerRef != ""
    ensures SubsetOf(c, refs) == PartsOf(c)
  {
    var kept := KeptRefs(c.importers, refs);
    FilterAll(c.importers, (x: Importer) => x.ref in refs);
    RowsWhole(c.importers, c.dependencies, kept);
    forall o | o in c.coverage.omissions ensures o.importerRef in kept {
      OmissionListed(c, o);
      var k := RowOf(c.importers, o.importerRef);
    }
    FilterAll(c.coverage.omissions, (o: Omission) => o.importerRef != "" && o.importerRef in kept);
  }

  /** Keeping every importer gives the catalog back exactly where no omission lacks one. */
  lemma {:induction false} SubsetWhole(c: Catalog, refs: set<string>, r: Option<Catalog>)
    requires Valid(c) && Distinct(c) && Builds(SubsetOf(c, refs), r)
    requires forall x :: x in c.importers ==> x.ref in refs
    ensures r == Some(c) <==> forall o :: o in c.coverage.omissions ==> o.importerRef != ""
  {
    SubsetKeeps(c, refs, r);
    if forall o :: o in c.coverage.omissions ==> o.importerRef != "" {
      PlacedWhole(c, refs);
      SameContentSame(r.value, c);
    } else {
      var o :| o in c.coverage.omissions && o.importerRef == "";
      assert IsOmission(c.importers, o, o, None);
      assert Omits(PartsOf(c), o, None) && !Omits(PartsOf(r.value), o, None);
    }
  }
}
