/** Which parts make a catalog, and what keeping some importers of one leaves
    (internal/dependencies/catalog.go:117-360). */
module CatalogParts {
  import opened Ordering
  import opened Canon
  import opened Catalog
  import opened CatalogFacts

  // ----- parts that make a catalog -----

  ghost predicate ImportersFit(importers: seq<Importer>) {
    && (forall x :: x in importers ==> ImporterFits(x))
    && (forall x, y :: x in importers && y in importers && Identity(x) == Identity(y) ==> Bare(x) == Bare(y))
    && (forall x, y, ref :: x in importers && y in importers && Names(x, ref) && Names(y, ref) ==>
          Identity(x) == Identity(y))
  }

  ghost predicate RefsKnown(importers: seq<Importer>, refs: seq<string>) {
    forall r :: r in refs ==> Known(importers, r)
  }

  ghost predicate ValueFits(importers: seq<Importer>, v: Dependency) {
    ShapeFits(v) && RefsKnown(importers, v.importerRefs) && RefsKnown(importers, v.effectImporterRefs)
  }

  ghost predicate OneShape(values: seq<Dependency>) {
    forall u, v :: u in values && v in values && DependencyIdentity(u) == DependencyIdentity(v) ==> Shape(u) == Shape(v)
  }

  ghost predicate OmissionPlaced(importers: seq<Importer>, o: Omission) {
    && OmissionPlain(o)
    && (o.importerRef != "" ==> exists x ::
          x in importers && Names(x, o.importerRef)
          && x.packagePath == o.importerPackagePath)
  }

  /** What a catalog can be built from: well-shaped rows, one name for each identity, one
      importer for each reference, and effects only of what is imported. */
  ghost predicate Accepts(p: Parts) {
    && ImportersFit(p.importers)
    && (forall v :: v in p.values ==> ValueFits(p.importers, v))
    && OneShape(p.values)
    && (forall d, x :: Effects(p, d, x) ==> Uses(p, d, x))
    && (forall o :: o in p.omissions ==> OmissionPlaced(p.importers, o))
  }

  /** The result of building: a catalog exactly from parts that make one, valid, with one row
      for each identity, and saying what the parts say. */
  ghost predicate Builds(p: Parts, r: Option<Catalog>) {
    && (r.Some? <==> Accepts(p))
    && (r.Some? ==> Valid(r.value) && Distinct(r.value) && SameContent(PartsOf(r.value), p))
  }

  // ----- order and repetition -----

  ghost predicate Alike(u: Dependency, v: Dependency) {
    && Shape(u) == Shape(v)
    && (forall r :: r in u.importerRefs <==> r in v.importerRefs)
    && (forall r :: r in u.effectImporterRefs <==> r in v.effectImporterRefs)
  }

  ghost predicate Within(p: Parts, q: Parts) {
    && (forall x :: x in p.importers <==> x in q.importers)
    && (forall v :: v in p.values ==> exists w :: w in q.values && Alike(v, w))
    && (forall o :: o in p.omissions <==> o in q.omissions)
  }

  /** The same rows in another order and number, their references too. */
  ghost predicate Rearranged(p: Parts, q: Parts) {
    Within(p, q) && Within(q, p)
  }

  lemma {:induction false} ReachesWithin(a: seq<Importer>, b: seq<Importer>, r: seq<string>, s: seq<string>,
                                         x: Importer)
    requires forall y :: y in a <==> y in b
    requires forall t :: t in r <==> t in s
    requires Reaches(a, r, x)
    ensures Reaches(b, s, x)
  {
    var t :| t in r && Refers(a, t, x);
    assert Refers(b, t, x);
  }

  lemma {:induction false} UsesWithin(p: Parts, q: Parts, d: Dependency, x: Importer)
    requires Within(p, q)
    ensures Uses(p, d, x) ==> Uses(q, d, x)
    ensures Effects(p, d, x) ==> Effects(q, d, x)
  {
    if Uses(p, d, x) {
      var v :| v in p.values && Shape(v) == d && Reaches(p.importers, v.importerRefs, x);
      var w :| w in q.values && Alike(v, w);
      ReachesWithin(p.importers, q.importers, v.importerRefs, w.importerRefs, x);
    }
    if Effects(p, d, x) {
      var v :| v in p.values && Shape(v) == d && Reaches(p.importers, v.effectImporterRefs, x);
      var w :| w in q.values && Alike(v, w);
      ReachesWithin(p.importers, q.importers, v.effectImporterRefs, w.effectImporterRefs, x);
    }
  }

  lemma {:induction false} OmitsWithin(p: Parts, q: Parts, o: Omission, x: Option<Importer>)
    requires Within(p, q) && Omits(p, o, x)
    ensures Omits(q, o, x)
  {
    var m :| m in p.omissions && IsOmission(p.importers, m, o, x);
    if m.importerRef != "" { assert Refers(q.importers, m.importerRef, x.value); }
    assert IsOmission(q.importers, m, o, x);
  }

  lemma {:induction false} RearrangedContent(p: Parts, q: Parts)
    requires Rearranged(p, q)
    ensures SameContent(p, q)
  {
    forall d, x ensures (Uses(p, d, x) <==> Uses(q, d, x)) && (Effects(p, d, x) <==> Effects(q, d, x)) {
      UsesWithin(p, q, d, x);
      UsesWithin(q, p, d, x);
    }
    forall o, x ensures Omits(p, o, x) <==> Omits(q, o, x) {
      if Omits(p, o, x) { OmitsWithin(p, q, o, x); }
      if Omits(q, o, x) { OmitsWithin(q, p, o, x); }
    }
  }

  lemma {:induction false} KnownWithin(a: seq<Importer>, b: seq<Importer>, refs: seq<string>)
    requires forall y :: y in a <==> y in b
    requires RefsKnown(a, refs)
    ensures RefsKnown(b, refs)
  {
    forall r | r in refs ensures Known(b, r) { var x :| x in a && Names(x, r); assert x in b; }
  }

  lemma {:induction false} Twin(p: Parts, q: Parts, v: Dependency) returns (w: Dependency)
    requires Within(p, q) && v in p.values
    ensures w in q.values && Alike(v, w)
  {
    w :| w in q.values && Alike(v, w);
  }

  lemma {:induction false} AlikeFits(a: seq<Importer>, b: seq<Importer>, v: Dependency, w: Dependency)
    requires Alike(w, v) && ValueFits(a, v) && forall x :: x in a <==> x in b
    ensures ValueFits(b, w)
  {
    assert FieldsFit(v) == FieldsFit(Shape(v)) && FieldsFit(w) == FieldsFit(Shape(w));
    assert v.importerRefs[0] in w.importerRefs;
    assert RefsKnown(a, w.importerRefs) && RefsKnown(a, w.effectImporterRefs);
    KnownWithin(a, b, w.importerRefs);
    KnownWithin(a, b, w.effectImporterRefs);
  }

  lemma {:induction false} ValueWithin(p: Parts, q: Parts, w: Dependency)
    requires Within(q, p) && w in q.values
    requires forall v :: v in p.values ==> ValueFits(p.importers, v)
    ensures ValueFits(q.importers, w)
  {
    var v := Twin(q, p, w);
    AlikeFits(p.importers, q.importers, v, w);
  }

  lemma {:induction false} ShapesWithin(p: Parts, q: Parts)
    requires Within(q, p) && OneShape(p.values)
    ensures OneShape(q.values)
  {
    forall u, v | u in q.values && v in q.values && DependencyIdentity(u) == DependencyIdentity(v)
      ensures Shape(u) == Shape(v)
    {
      var s := Twin(q, p, u);
      var t := Twin(q, p, v);
      SameShape(u, s);
      SameShape(v, t);
    }
  }

  lemma {:induction false} RearrangedAccepts(p: Parts, q: Parts)
    requires Rearranged(p, q) && Accepts(p)
    ensures Accepts(q)
  {
    forall v | v in q.values ensures ValueFits(q.importers, v) { ValueWithin(p, q, v); }
    ShapesWithin(p, q);
    forall d, x | Effects(q, d, x) ensures Uses(q, d, x) { UsesWithin(q, p, d, x); UsesWithin(p, q, d, x); }
    forall o | o in q.omissions ensures OmissionPlaced(q.importers, o) { assert OmissionPlaced(p.importers, o); }
  }

  /** The same rows in any order and with any repeats build the same catalog, or none. */
  lemma {:induction false} OneCatalog(p: Parts, q: Parts, c: Option<Catalog>, e: Option<Catalog>)
    requires Rearranged(p, q) && Builds(p, c) && Builds(q, e)
    ensures c == e
  {
    if Accepts(p) { RearrangedAccepts(p, q); }
    if Accepts(q) { RearrangedAccepts(q, p); }
    if c.Some? {
      RearrangedContent(p, q);
      SameContentSame(c.value, e.value);
    }
  }
}
