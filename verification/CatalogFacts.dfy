/** What a valid catalog says determines it (internal/dependencies/catalog.go). */
module CatalogFacts {
  import opened Ordering
  import opened Canon
  import opened Catalog

  // ----- local references -----

  lemma {:induction false} DecimalDigit(n: nat)
    ensures '0' <= Decimal(n)[0] <= '9'
  {
    if n >= 10 { DecimalDigit(n / 10); }
  }

  lemma {:induction false} IdentityNotLocal(x: Importer, n: nat)
    ensures Identity(x) != Compact('i', n)
  {
    DecimalDigit(n);
    assert Identity(x)[1] == "importer"[1];
  }

  lemma {:induction false} SameNumber(importers: seq<Importer>, j: nat, k: nat)
    requires Numbered(importers) && j < |importers| && k < |importers| && importers[j].ref == importers[k].ref
    ensures j == k
  {
    CompactOrder('i', j + 1, k + 1);
  }

  /** In numbered rows a row's reference stands for that row. */
  lemma {:induction false} RefersAt(importers: seq<Importer>, m: nat, x: Importer)
    requires Numbered(importers) && m < |importers|
    ensures Refers(importers, importers[m].ref, x) <==> x == Bare(importers[m])
  {
    var ref := importers[m].ref;
    assert importers[m] in importers && Names(importers[m], ref);
    if Refers(importers, ref, x) {
      var y :| y in importers && Names(y, ref) && Bare(y) == x;
      var j: nat :| j < |importers| && importers[j] == y;
      IdentityNotLocal(y, m + 1);
      SameNumber(importers, j, m);
    }
  }

  ghost predicate Apart(importers: seq<Importer>) {
    forall j, k :: 0 <= j < |importers| && 0 <= k < |importers| && Identity(importers[j]) == Identity(importers[k]) ==>
      j == k
  }

  lemma {:induction false} SameBare(x: Importer, y: Importer)
    requires Bare(x) == Bare(y)
    ensures Identity(x) == Identity(y)
  {
    assert ImporterFields(x) == ImporterFields(Bare(x)) && ImporterFields(y) == ImporterFields(Bare(y));
  }

  lemma {:induction false} SameShape(d: Dependency, e: Dependency)
    requires Shape(d) == Shape(e)
    ensures DependencyIdentity(d) == DependencyIdentity(e)
  {
    assert DependencyFields(d) == DependencyFields(Shape(d)) && DependencyFields(e) == DependencyFields(Shape(e));
  }

  // ----- one catalog -----

  function Bares(importers: seq<Importer>): (s: seq<Importer>)
    ensures |s| == |importers| && forall k :: 0 <= k < |s| ==> s[k] == Bare(importers[k])
  {
    seq(|importers|, k requires 0 <= k < |importers| => Bare(importers[k]))
  }

  lemma {:induction false} BaresOrdered(importers: seq<Importer>)
    requires Ordered(importers, ImporterLess) && Apart(importers)
    ensures Ordered(Bares(importers), ImporterLess) && Chained(Bares(importers), ImporterLess)
  {
    var s := Bares(importers);
    forall j, k | 0 <= j < k < |s| ensures ImporterLess(s[j], s[k]) {
      if s[j] == s[k] { SameBare(importers[j], importers[k]); }
      ImporterFirst(importers[j], importers[k], s[j], s[k]);
    }
    ImporterLine(s);
  }

  lemma {:induction false} BareHeld(importers: seq<Importer>, x: Importer)
    ensures x in Bares(importers) <==> Holds(importers, x)
  {
    if Holds(importers, x) {
      var y :| y in importers && Bare(y) == x;
      var k: nat :| k < |importers| && importers[k] == y;
      assert Bares(importers)[k] == x;
    }
  }

  lemma {:induction false} SameImporters(a: seq<Importer>, b: seq<Importer>)
    requires Numbered(a) && Ordered(a, ImporterLess) && Apart(a)
    requires Numbered(b) && Ordered(b, ImporterLess) && Apart(b)
    requires forall x :: Holds(a, x) <==> Holds(b, x)
    ensures a == b
  {
    BaresOrdered(a);
    BaresOrdered(b);
    forall x ensures x in Bares(a) <==> x in Bares(b) { BareHeld(a, x); BareHeld(b, x); }
    SameMembersSame(Bares(a), Bares(b), ImporterLess);
    forall k | 0 <= k < |a| ensures a[k] == b[k] {
      assert a[k] == Bares(a)[k].(ref := a[k].ref) && b[k] == Bares(b)[k].(ref := b[k].ref);
    }
  }

  lemma {:induction false} RowOf(importers: seq<Importer>, ref: string) returns (k: nat)
    requires Listed(importers, ref)
    ensures k < |importers| && importers[k].ref == ref
  {
    var x :| x in importers && x.ref == ref;
    k :| 0 <= k < |importers| && importers[k] == x;
  }

  lemma {:induction false} ListedLocal(importers: seq<Importer>, ref: string)
    requires Numbered(importers) && Listed(importers, ref)
    ensures Local(ref) && ref != ""
  {
    var k := RowOf(importers, ref);
    assert ref == Compact('i', k + 1);
  }

  /** A row and its reference stand for each other. */
  lemma {:induction false} RowRefers(importers: seq<Importer>, ref: string, x: Importer) returns (k: nat)
    requires Numbered(importers) && Listed(importers, ref)
    ensures k < |importers| && importers[k].ref == ref && (Refers(importers, ref, x) <==> x == Bare(importers[k]))
  {
    k := RowOf(importers, ref);
    RefersAt(importers, k, x);
  }

  lemma {:induction false} RefKept(importers: seq<Importer>, a: seq<string>, b: seq<string>, r: string)
    requires Numbered(importers) && Apart(importers) && r in a && Listed(importers, r)
    requires forall s :: s in b ==> Listed(importers, s)
    requires forall x :: Reaches(importers, a, x) ==> Reaches(importers, b, x)
    ensures r in b
  {
    var k := RowOf(importers, r);
    var x := Bare(importers[k]);
    RefersAt(importers, k, x);
    assert Reaches(importers, b, x);
    var s :| s in b && Refers(importers, s, x);
    var j := RowRefers(importers, s, x);
    SameBare(importers[k], importers[j]);
  }

  lemma {:induction false} SameRefs(importers: seq<Importer>, a: seq<string>, b: seq<string>)
    requires Numbered(importers) && Apart(importers) && Ordered(a, RefLess) && Ordered(b, RefLess)
    requires forall s :: s in a || s in b ==> Listed(importers, s)
    requires forall x :: Reaches(importers, a, x) <==> Reaches(importers, b, x)
    ensures a == b
  {
    forall r | r in a || r in b ensures Local(r) && r in a && r in b {
      ListedLocal(importers, r);
      if r in a { RefKept(importers, a, b, r); } else { RefKept(importers, b, a, r); }
    }
    RefLine(a);
    RefLine(b);
    SameMembersSame(a, b, RefLess);
  }

  ghost predicate KeysApart(values: seq<Dependency>) {
    forall j, k ::
      0 <= j < |values| && 0 <= k < |values|
      && DependencyIdentity(values[j]) == DependencyIdentity(values[k])
      ==> j == k
  }

  function Shapes(values: seq<Dependency>): (s: seq<Dependency>)
    ensures |s| == |values| && forall k :: 0 <= k < |s| ==> s[k] == Shape(values[k])
  {
    seq(|values|, k requires 0 <= k < |values| => Shape(values[k]))
  }

  lemma {:induction false} ShapesOrdered(values: seq<Dependency>)
    requires Ordered(values, DependencyLess) && KeysApart(values) && forall d :: d in values ==> FieldsFit(d)
    ensures Ordered(Shapes(values), DependencyLess) && Chained(Shapes(values), DependencyLess)
  {
    var s := Shapes(values);
    forall j, k | 0 <= j < k < |s| ensures DependencyLess(s[j], s[k]) {
      if s[j] == s[k] { SameShape(values[j], values[k]); }
      DependencyFirst(values[j], values[k], s[j], s[k]);
    }
    forall d | d in s ensures FieldsFit(d) {
      var k: nat :| k < |values| && Shape(values[k]) == d;
      assert values[k] in values;
    }
    DependencyChain(s);
  }

  lemma {:induction false} UseOf(c: Catalog, k: nat) returns (x: Importer)
    requires Valid(c) && k < |c.dependencies|
    ensures Reaches(c.importers, c.dependencies[k].importerRefs, x) && Uses(PartsOf(c), Shape(c.dependencies[k]), x)
  {
    var d := c.dependencies[k];
    assert d in c.dependencies && d.importerRefs[0] in d.importerRefs;
    var j := RowOf(c.importers, d.importerRefs[0]);
    x := Bare(c.importers[j]);
    RefersAt(c.importers, j, x);
    assert Reaches(c.importers, d.importerRefs, x);
  }

  lemma {:induction false} ShapeUsed(e: Catalog, s: Dependency, x: Importer)
    requires Uses(PartsOf(e), s, x)
    ensures s in Shapes(e.dependencies)
  {
    var v :| v in e.dependencies && Shape(v) == s && Reaches(e.importers, v.importerRefs, x);
    var j: nat :| j < |e.dependencies| && e.dependencies[j] == v;
    assert Shapes(e.dependencies)[j] == s;
  }

  lemma {:induction false} ShapeKept(c: Catalog, e: Catalog, s: Dependency)
    requires Valid(c) && s in Shapes(c.dependencies)
    requires forall d, x :: Uses(PartsOf(c), d, x) ==> Uses(PartsOf(e), d, x)
    ensures s in Shapes(e.dependencies)
  {
    var k: nat :| k < |c.dependencies| && Shape(c.dependencies[k]) == s;
    var x := UseOf(c, k);
    ShapeUsed(e, s, x);
  }

  /** Of one shape there is one row, so what the shape is used by is what that row names. */
  lemma {:induction false} UsesAt(c: Catalog, k: nat, x: Importer)
    requires Distinct(c) && k < |c.dependencies|
    ensures Uses(PartsOf(c), Shape(c.dependencies[k]), x) <==> Reaches(c.importers, c.dependencies[k].importerRefs, x)
    ensures Effects(PartsOf(c), Shape(c.dependencies[k]), x)
            <==> Reaches(c.importers, c.dependencies[k].effectImporterRefs, x)
  {
    var d := c.dependencies[k];
    assert d in c.dependencies;
    forall v | v in c.dependencies && Shape(v) == Shape(d) ensures v == d {
      var j: nat :| j < |c.dependencies| && c.dependencies[j] == v;
      SameShape(v, d);
    }
  }

  lemma {:induction false} SameRow(c: Catalog, e: Catalog, k: nat)
    requires Valid(c) && Valid(e) && Distinct(c) && Distinct(e) && SameContent(PartsOf(c), PartsOf(e))
             && c.importers == e.importers
    requires k < |c.dependencies| && k < |e.dependencies| && Shape(c.dependencies[k]) == Shape(e.dependencies[k])
    ensures c.dependencies[k] == e.dependencies[k]
  {
    var d, f := c.dependencies[k], e.dependencies[k];
    assert d in c.dependencies && f in e.dependencies;
    forall x ensures Reaches(c.importers, d.importerRefs, x) <==> Reaches(c.importers, f.importerRefs, x) {
      UsesAt(c, k, x);
      UsesAt(e, k, x);
    }
    forall x ensures Reaches(c.importers, d.effectImporterRefs, x) <==> Reaches(c.importers, f.effectImporterRefs, x) {
      UsesAt(c, k, x);
      UsesAt(e, k, x);
    }
    SameRefs(c.importers, d.importerRefs, f.importerRefs);
    SameRefs(c.importers, d.effectImporterRefs, f.effectImporterRefs);
    assert d == Shape(d).(id := d.id, importerRefs := d.importerRefs, effectImporterRefs := d.effectImporterRefs);
    assert f == Shape(f).(id := f.id, importerRefs := f.importerRefs, effectImporterRefs := f.effectImporterRefs);
  }

  lemma {:induction false} SameDependencies(c: Catalog, e: Catalog)
    requires Valid(c) && Valid(e) && Distinct(c) && Distinct(e) && SameContent(PartsOf(c), PartsOf(e))
             && c.importers == e.importers
    ensures c.dependencies == e.dependencies
  {
    ShapesOrdered(c.dependencies);
    ShapesOrdered(e.dependencies);
    forall s ensures s in Shapes(c.dependencies) <==> s in Shapes(e.dependencies) {
      if s in Shapes(c.dependencies) { ShapeKept(c, e, s); }
      if s in Shapes(e.dependencies) { ShapeKept(e, c, s); }
    }
    SameMembersSame(Shapes(c.dependencies), Shapes(e.dependencies), DependencyLess);
    assert |c.dependencies| == |e.dependencies|;
    forall k | 0 <= k < |c.dependencies| ensures c.dependencies[k] == e.dependencies[k] {
      assert Shapes(c.dependencies)[k] == Shapes(e.dependencies)[k];
      SameRow(c, e, k);
    }
  }

  lemma {:induction false} UnplacedKept(a: Parts, b: Parts, o: Omission)
    requires o in a.omissions && o.importerRef == "" && forall p, x :: Omits(a, p, x) ==> Omits(b, p, x)
    ensures o in b.omissions
  {
    assert IsOmission(a.importers, o, o, None);
    assert Omits(b, o, None);
    var q :| q in b.omissions && IsOmission(b.importers, q, o, None);
    assert q.(importerRef := "") == q;
  }

  lemma {:induction false} PlacedKept(a: Parts, b: Parts, o: Omission)
    requires o in a.omissions && Listed(a.importers, o.importerRef) && forall p, x :: Omits(a, p, x) ==> Omits(b, p, x)
    requires a.importers == b.importers && Numbered(a.importers) && Apart(a.importers)
    requires forall q :: q in b.omissions && q.importerRef != "" ==> Listed(b.importers, q.importerRef)
    ensures o in b.omissions
  {
    ListedLocal(a.importers, o.importerRef);
    var k := RowOf(a.importers, o.importerRef);
    var bare, x := o.(importerRef := ""), Bare(a.importers[k]);
    RefersAt(a.importers, k, x);
    assert IsOmission(a.importers, o, bare, Some(x));
    assert Omits(b, bare, Some(x));
    var q :| q in b.omissions && IsOmission(b.importers, q, bare, Some(x));
    var j := RowRefers(b.importers, q.importerRef, x);
    SameBare(a.importers[k], a.importers[j]);
    assert q == bare.(importerRef := q.importerRef) && o == bare.(importerRef := o.importerRef);
  }

  lemma {:induction false} OmissionListed(c: Catalog, o: Omission)
    requires Valid(c) && o in c.coverage.omissions && o.importerRef != ""
    ensures Listed(c.importers, o.importerRef)
  {
    var x :| x in c.importers && x.ref == o.importerRef && x.packagePath == o.importerPackagePath;
  }

  lemma {:induction false} OmissionKept(c: Catalog, e: Catalog, o: Omission)
    requires Valid(c) && Valid(e) && Distinct(c) && SameContent(PartsOf(c), PartsOf(e)) && c.importers == e.importers
    requires o in c.coverage.omissions
    ensures o in e.coverage.omissions
  {
    if o.importerRef == "" { UnplacedKept(PartsOf(c), PartsOf(e), o); }
    else {
      forall q | q in e.coverage.omissions && q.importerRef != "" ensures Listed(e.importers, q.importerRef) {
        OmissionListed(e, q);
      }
      OmissionListed(c, o);
      PlacedKept(PartsOf(c), PartsOf(e), o);
    }
  }

  lemma {:induction false} OmissionLocal(c: Catalog, o: Omission)
    requires Valid(c) && o in c.coverage.omissions
    ensures Local(o.importerRef)
  {
    if o.importerRef != "" {
      OmissionListed(c, o);
      ListedLocal(c.importers, o.importerRef);
    }
  }

  lemma {:induction false} SameOmissions(c: Catalog, e: Catalog)
    requires Valid(c) && Valid(e) && Distinct(c) && Distinct(e) && SameContent(PartsOf(c), PartsOf(e))
             && c.importers == e.importers
    ensures c.coverage.omissions == e.coverage.omissions
  {
    var a, b := c.coverage.omissions, e.coverage.omissions;
    forall o ensures o in a <==> o in b {
      if o in a { OmissionKept(c, e, o); }
      if o in b { OmissionKept(e, c, o); }
    }
    forall o | o in a ensures Local(o.importerRef) { OmissionLocal(c, o); }
    OmissionLine(a);
    OmissionLine(b);
    SameMembersSame(a, b, OmissionLess);
  }

  /** There is one valid catalog with one row for each identity that says the same: order,
      references, ids and counts all follow from what it says. */
  lemma {:induction false} SameContentSame(c: Catalog, e: Catalog)
    requires Valid(c) && Valid(e) && Distinct(c) && Distinct(e) && SameContent(PartsOf(c), PartsOf(e))
    ensures c == e
  {
    SameImporters(c.importers, e.importers);
    SameDependencies(c, e);
    SameOmissions(c, e);
  }

  // ----- what is counted -----

  /** The pairs of a package and an importer of it in the first rows. */
  ghost function Pairs(importers: seq<Importer>, values: seq<Dependency>): set<(Dependency, Importer)> {
    set k, j | 0 <= k < |values| && 0 <= j < |importers| && importers[j].ref in values[k].importerRefs ::
      (Shape(values[k]), Bare(importers[j]))
  }

  ghost function RowPairs(importers: seq<Importer>, d: Dependency, n: nat): set<(Dependency, Importer)>
    requires n <= |d.importerRefs|
  {
    set i, j | 0 <= i < n && 0 <= j < |importers| && importers[j].ref == d.importerRefs[i] ::
      (Shape(d), Bare(importers[j]))
  }

  lemma {:induction false} RowAdds(importers: seq<Importer>, d: Dependency, n: nat, m: nat)
    requires Numbered(importers) && n < |d.importerRefs| && m < |importers| && importers[m].ref == d.importerRefs[n]
    ensures RowPairs(importers, d, n + 1) == RowPairs(importers, d, n) + {(Shape(d), Bare(importers[m]))}
  {
    forall j: nat | j < |importers| && importers[j].ref == d.importerRefs[n] ensures j == m {
      SameNumber(importers, j, m);
    }
  }

  lemma {:induction false} RowNew(importers: seq<Importer>, d: Dependency, n: nat, m: nat)
    requires Numbered(importers) && Apart(importers) && Ordered(d.importerRefs, RefLess)
    requires n < |d.importerRefs| && m < |importers| && importers[m].ref == d.importerRefs[n]
    ensures (Shape(d), Bare(importers[m])) !in RowPairs(importers, d, n)
  {
    forall i: nat, j: nat | i < n && j < |importers| && importers[j].ref == d.importerRefs[i]
      ensures Bare(importers[j]) != Bare(importers[m])
    {
      if Bare(importers[j]) == Bare(importers[m]) {
        SameBare(importers[j], importers[m]);
        assert RefLess(d.importerRefs[i], d.importerRefs[n]);
        assert importers[m].ref == Compact('i', m + 1);
        CompactOrder('i', m + 1, m + 1);
      }
    }
  }

  lemma {:induction false} OneBigger(a: set<(Dependency, Importer)>, p: (Dependency, Importer),
                                     b: set<(Dependency, Importer)>)
    requires p !in a && b == a + {p}
    ensures |b| == |a| + 1
  {
  }

  lemma {:induction false} RowNext(importers: seq<Importer>, d: Dependency, n: nat)
    requires Numbered(importers) && Apart(importers) && RefsFit(importers, d) && n < |d.importerRefs|
    ensures |RowPairs(importers, d, n + 1)| == |RowPairs(importers, d, n)| + 1
  {
    assert d.importerRefs[n] in d.importerRefs;
    var m := RowOf(importers, d.importerRefs[n]);
    RowAdds(importers, d, n, m);
    RowNew(importers, d, n, m);
    OneBigger(RowPairs(importers, d, n), (Shape(d), Bare(importers[m])), RowPairs(importers, d, n + 1));
  }

  lemma {:induction false} RowCount(importers: seq<Importer>, d: Dependency, n: nat)
    requires Numbered(importers) && Apart(importers) && RefsFit(importers, d) && n <= |d.importerRefs|
    ensures |RowPairs(importers, d, n)| == n
  {
    if n > 0 {
      RowCount(importers, d, n - 1);
      RowNext(importers, d, n - 1);
    } else {
      assert RowPairs(importers, d, 0) == {};
    }
  }

  lemma {:induction false} RowMember(importers: seq<Importer>, d: Dependency, j: nat)
    requires j < |importers| && importers[j].ref in d.importerRefs
    ensures (Shape(d), Bare(importers[j])) in RowPairs(importers, d, |d.importerRefs|)
  {
    var i: nat :| i < |d.importerRefs| && d.importerRefs[i] == importers[j].ref;
  }

  lemma {:induction false} PairsAdd(importers: seq<Importer>, values: seq<Dependency>)
    requires values != []
    ensures var last := values[|values|-1];
            Pairs(importers, values) == Pairs(importers, values[..|values|-1])
              + RowPairs(importers, last, |last.importerRefs|)
  {
    var rest, last := values[..|values|-1], values[|values|-1];
    var row := RowPairs(importers, last, |last.importerRefs|);
    forall p | p in Pairs(importers, values) ensures p in Pairs(importers, rest) + row {
      var k: nat, j: nat :| k < |values| && j < |importers| && importers[j].ref in values[k].importerRefs
        && p == (Shape(values[k]), Bare(importers[j]));
      if k < |rest| { assert rest[k] == values[k]; } else { RowMember(importers, last, j); }
    }
    forall p | p in Pairs(importers, rest) ensures p in Pairs(importers, values) {
      var k: nat, j: nat :| k < |rest| && j < |importers| && importers[j].ref in rest[k].importerRefs
        && p == (Shape(rest[k]), Bare(importers[j]));
      assert rest[k] == values[k];
    }
  }

  lemma {:induction false} PairsApart(importers: seq<Importer>, values: seq<Dependency>)
    requires values != [] && KeysApart(values)
    ensures var last := values[|values|-1];
            Pairs(importers, values[..|values|-1]) !! RowPairs(importers, last, |last.importerRefs|)
  {
    var rest, last := values[..|values|-1], values[|values|-1];
    forall k: nat | k < |rest| ensures Shape(rest[k]) != Shape(last) {
      if Shape(rest[k]) == Shape(last) { SameShape(values[k], values[|values|-1]); }
    }
  }

  lemma {:induction false} PairsCount(importers: seq<Importer>, values: seq<Dependency>)
    requires Numbered(importers) && Apart(importers) && KeysApart(values)
    requires forall d :: d in values ==> RefsFit(importers, d)
    ensures |Pairs(importers, values)| == Retained(values)
  {
    if values != [] {
      var last := values[|values|-1];
      PairsCount(importers, values[..|values|-1]);
      RowCount(importers, last, |last.importerRefs|);
      PairsAdd(importers, values);
      PairsApart(importers, values);
    }
  }

  lemma {:induction false} PairUsed(importers: seq<Importer>, values: seq<Dependency>, d: Dependency, x: Importer)
    requires Numbered(importers) && (d, x) in Pairs(importers, values)
    ensures Uses(Parts(importers, values, []), d, x)
  {
    var k: nat, j: nat :| k < |values| && j < |importers| && importers[j].ref in values[k].importerRefs
      && d == Shape(values[k]) && x == Bare(importers[j]);
    RefersAt(importers, j, x);
    assert Reaches(importers, values[k].importerRefs, x);
  }

  lemma {:induction false} UsePaired(importers: seq<Importer>, values: seq<Dependency>, d: Dependency, x: Importer)
    requires Numbered(importers) && Uses(Parts(importers, values, []), d, x)
    requires forall v :: v in values ==> RefsFit(importers, v)
    ensures (d, x) in Pairs(importers, values)
  {
    var v :| v in values && Shape(v) == d && Reaches(importers, v.importerRefs, x);
    var k: nat :| k < |values| && values[k] == v;
    var r :| r in v.importerRefs && Refers(importers, r, x);
    var j := RowRefers(importers, r, x);
  }

  lemma {:induction false} PairsAre(c: Catalog, d: Dependency, x: Importer)
    requires Valid(c)
    ensures (d, x) in Pairs(c.importers, c.dependencies) <==> Uses(PartsOf(c), d, x)
  {
    var p := Parts(c.importers, c.dependencies, []);
    assert Uses(p, d, x) <==> Uses(PartsOf(c), d, x);
    if (d, x) in Pairs(c.importers, c.dependencies) { PairUsed(c.importers, c.dependencies, d, x); }
    if Uses(p, d, x) { UsePaired(c.importers, c.dependencies, d, x); }
  }

  /** What is retained is counted once for each package and importer of it. */
  lemma {:induction false} RetainedCounts(c: Catalog)
    requires Valid(c) && Distinct(c)
    ensures |Pairs(c.importers, c.dependencies)| == c.coverage.retained
    ensures forall d, x :: (d, x) in Pairs(c.importers, c.dependencies) <==> Uses(PartsOf(c), d, x)
  {
    PairsCount(c.importers, c.dependencies);
    forall d, x ensures (d, x) in Pairs(c.importers, c.dependencies) <==> Uses(PartsOf(c), d, x) { PairsAre(c, d, x); }
  }
}
