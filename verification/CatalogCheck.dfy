/** Checking a catalog (internal/dependencies/catalog.go:259-312, 362-393): order, numbers,
    references and counts. */
module CatalogCheck {
  import opened Ordering
  import opened Canon
  import opened Catalog
  import opened CatalogFacts

  lemma {:induction false} AdjacentOr<T(!new)>(s: seq<T>, less: (T, T) -> bool)
    requires Chained(s, less)
    ensures Ordered(s, less) <==> forall i :: 0 < i < |s| ==> less(s[i-1], s[i])
  {
    if forall i :: 0 < i < |s| ==> less(s[i-1], s[i]) { AdjacentOrders(s, less); }
  }

  ghost predicate ImportersValid(importers: seq<Importer>) {
    Numbered(importers) && (forall x :: x in importers ==> ImporterFits(x)) && Ordered(importers, ImporterLess)
  }

  lemma {:induction false} ImportersStep(importers: seq<Importer>)
    ensures ImportersValid(importers)
            <==> (forall k :: 0 <= k < |importers| ==>
              ImporterFits(importers[k]) && importers[k].ref == Compact('i', k + 1))
                 && (forall k :: 0 < k < |importers| ==> ImporterLess(importers[k-1], importers[k]))
  {
    ImporterLine(importers);
    AdjacentOr(importers, ImporterLess);
    if forall x :: x in importers ==> ImporterFits(x) {
      forall k | 0 <= k < |importers| ensures ImporterFits(importers[k]) { assert importers[k] in importers; }
    }
  }

  method ValidateImporters(importers: seq<Importer>) returns (ok: bool)
    ensures ok <==> ImportersValid(importers)
  {
    ImportersStep(importers);
    for k := 0 to |importers|
      invariant forall i :: 0 <= i < k ==> ImporterFits(importers[i]) && importers[i].ref == Compact('i', i + 1)
      invariant forall i :: 0 < i < k ==> ImporterLess(importers[i-1], importers[i])
    {
      if !ImporterFits(importers[k]) || importers[k].ref != Compact('i', k + 1) { return false; }
      if k > 0 && !ImporterLess(importers[k-1], importers[k]) { return false; }
    }
    ok := true;
  }

  function RefsListed(importers: seq<Importer>): set<string> {
    set x | x in importers :: x.ref
  }

  lemma {:induction false} ListedIn(importers: seq<Importer>, ref: string)
    ensures ref in RefsListed(importers) <==> Listed(importers, ref)
  {
  }

  lemma {:induction false} ListedCompact(importers: seq<Importer>, refs: seq<string>)
    requires Numbered(importers) && forall r :: r in refs ==> Listed(importers, r)
    ensures (forall r :: r in refs ==> IsCompact(r, 'i')) && Linear(refs, RefLess)
  {
    forall r | r in refs ensures IsCompact(r, 'i') && Local(r) {
      var k := RowOf(importers, r);
      CompactNumber('i', k + 1);
      ListedLocal(importers, r);
    }
    RefLine(refs);
  }

  lemma {:induction false} ListedOne(importers: seq<Importer>, ref: string)
    requires Numbered(importers) && Listed(importers, ref)
    ensures IsCompact(ref, 'i')
  {
    ListedCompact(importers, [ref]);
    assert ref in [ref];
  }

  method ValidateRefs(importers: seq<Importer>, refs: seq<string>) returns (ok: bool)
    requires Numbered(importers)
    ensures ok <==> (forall r :: r in refs ==> Listed(importers, r)) && Ordered(refs, RefLess)
  {
    for k := 0 to |refs|
      invariant forall i :: 0 <= i < k ==> Listed(importers, refs[i])
      invariant forall i :: 0 < i < k ==> RefLess(refs[i-1], refs[i])
    {
      ListedIn(importers, refs[k]);
      assert refs[k] in refs;
      if refs[k] !in RefsListed(importers) { return false; }
      ListedOne(importers, refs[k]);
      if !IsCompact(refs[k], 'i') || (k > 0 && !RefLess(refs[k-1], refs[k])) { return false; }
    }
    ListedCompact(importers, refs);
    AdjacentOr(refs, RefLess);
    ok := true;
  }

  lemma {:induction false} WithinLinear(importers: seq<Importer>, refs: seq<string>, effects: seq<string>)
    requires Numbered(importers) && (forall r :: r in refs ==> Listed(importers, r)) && forall r :: r in effects ==>
             r in refs
    ensures Linear(effects, RefLess)
  {
    ListedCompact(importers, effects);
  }

  method ValidateEffects(importers: seq<Importer>, refs: seq<string>, effects: seq<string>) returns (ok: bool)
    requires Numbered(importers) && forall r :: r in refs ==> Listed(importers, r)
    ensures ok <==> (forall r :: r in effects ==> r in refs) && Ordered(effects, RefLess)
  {
    for k := 0 to |effects|
      invariant forall i :: 0 <= i < k ==> effects[i] in refs
      invariant forall i :: 0 < i < k ==> RefLess(effects[i-1], effects[i])
    {
      assert effects[k] in effects;
      if effects[k] !in refs || (k > 0 && !RefLess(effects[k-1], effects[k])) { return false; }
    }
    WithinLinear(importers, refs, effects);
    AdjacentOr(effects, RefLess);
    ok := true;
  }

  ghost predicate RowFits(importers: seq<Importer>, d: Dependency) {
    ShapeFits(d) && RefsFit(importers, d)
  }

  ghost predicate DependenciesValid(importers: seq<Importer>, values: seq<Dependency>) {
    && (forall k :: 0 <= k < |values| ==> values[k].id == Compact('d', k + 1))
    && (forall k :: 0 <= k < |values| ==> RowFits(importers, values[k]))
    && Ordered(values, DependencyLess)
  }

  method ValidateRow(importers: seq<Importer>, d: Dependency) returns (ok: bool)
    requires Numbered(importers)
    ensures ok <==> RowFits(importers, d)
  {
    if !ShapeFits(d) { return false; }
    ok := ValidateRefs(importers, d.importerRefs);
    if !ok { return; }
    ok := ValidateEffects(importers, d.importerRefs, d.effectImporterRefs);
  }

  lemma {:induction false} RowsChain(importers: seq<Importer>, values: seq<Dependency>)
    requires forall k :: 0 <= k < |values| ==> RowFits(importers, values[k])
    ensures Ordered(values, DependencyLess) <==> forall i :: 0 < i < |values| ==> DependencyLess(values[i-1], values[i])
  {
    forall d | d in values ensures FieldsFit(d) {
      var k: nat :| k < |values| && values[k] == d;
      assert RowFits(importers, values[k]);
    }
    DependencyChain(values);
    AdjacentOr(values, DependencyLess);
  }

  method ValidateDependencies(importers: seq<Importer>, values: seq<Dependency>) returns (ok: bool)
    requires Numbered(importers)
    ensures ok <==> DependenciesValid(importers, values)
  {
    for k := 0 to |values|
      invariant forall i :: 0 <= i < k ==> values[i].id == Compact('d', i + 1)
      invariant forall i :: 0 <= i < k ==> RowFits(importers, values[i])
      invariant forall i :: 0 < i < k ==> DependencyLess(values[i-1], values[i])
    {
      if values[k].id != Compact('d', k + 1) || (k > 0 && !DependencyLess(values[k-1], values[k])) { return false; }
      ok := ValidateRow(importers, values[k]);
      if !ok { return; }
    }
    RowsChain(importers, values);
    ok := true;
  }

  method CountRetained(values: seq<Dependency>) returns (n: nat)
    ensures n == Retained(values)
  {
    n := 0;
    for k := 0 to |values|
      invariant n == Retained(values[..k])
    {
      assert values[..k+1][..k] == values[..k];
      n := n + |values[k].importerRefs|;
    }
    assert values[..|values|] == values;
  }

  /** The importers by their references, to look one up. */
  function PathOf(importers: seq<Importer>, ref: string): Option<string> {
    if importers == [] then None
    else if importers[|importers|-1].ref == ref then Some(importers[|importers|-1].packagePath)
    else PathOf(importers[..|importers|-1], ref)
  }

  lemma {:induction false} PathIs(importers: seq<Importer>, ref: string, path: string)
    requires Numbered(importers)
    ensures PathOf(importers, ref) == Some(path) <==> exists x ::
            x in importers && x.ref == ref
            && x.packagePath == path
  {
    if importers != [] {
      var rest, last := importers[..|importers|-1], importers[|importers|-1];
      assert importers == rest + [last];
      PathIs(rest, ref, path);
      forall x | x in rest ensures x.ref != last.ref {
        var k: nat :| k < |rest| && rest[k] == x;
        if importers[k].ref == importers[|importers|-1].ref { SameNumber(importers, k, |importers| - 1); }
      }
      assert (exists x :: x in rest && x.ref == ref && x.packagePath == path) ==>
        exists x :: x in importers && x.ref == ref && x.packagePath == path;
      assert last in importers;
    }
  }

  method ValidateOmission(importers: seq<Importer>, o: Omission) returns (ok: bool)
    requires Numbered(importers)
    ensures ok <==> OmissionFits(importers, o)
  {
    PathIs(importers, o.importerRef, o.importerPackagePath);
    ok := OmissionPlain(o) && (o.importerRef == "" || PathOf(importers, o.importerRef) == Some(o.importerPackagePath));
  }

  lemma {:induction false} OmissionsChain(importers: seq<Importer>, omissions: seq<Omission>)
    requires Numbered(importers) && forall k :: 0 <= k < |omissions| ==> OmissionFits(importers, omissions[k])
    ensures Ordered(omissions, OmissionLess) <==> forall i :: 0 < i < |omissions| ==>
            OmissionLess(omissions[i-1], omissions[i])
  {
    forall o | o in omissions ensures Local(o.importerRef) {
      var k: nat :| k < |omissions| && omissions[k] == o;
      assert OmissionFits(importers, omissions[k]);
      if o.importerRef != "" {
        var x :| x in importers && x.ref == o.importerRef && x.packagePath == o.importerPackagePath;
        ListedLocal(importers, o.importerRef);
      }
    }
    OmissionLine(omissions);
    AdjacentOr(omissions, OmissionLess);
  }

  method ValidateCoverage(c: Coverage, importers: seq<Importer>, values: seq<Dependency>) returns (ok: bool)
    requires Numbered(importers)
    ensures ok <==> CoverageFits(c, importers, values)
  {
    var retained := CountRetained(values);
    if c.retained != retained || c.observed != retained + |c.omissions| { return false; }
    if |c.omissions| == 0 { if !c.state.Complete? { return false; } }
    else { if !c.state.Partial? { return false; } }
    for k := 0 to |c.omissions|
      invariant forall i :: 0 <= i < k ==> OmissionFits(importers, c.omissions[i])
      invariant forall i :: 0 < i < k ==> OmissionLess(c.omissions[i-1], c.omissions[i])
    {
      assert c.omissions[k] in c.omissions;
      ok := ValidateOmission(importers, c.omissions[k]);
      if !ok { return; }
      if k > 0 && !OmissionLess(c.omissions[k-1], c.omissions[k]) { return false; }
    }
    OmissionsChain(importers, c.omissions);
    ok := true;
  }

  lemma {:induction false} ValidParts(c: Catalog)
    ensures Valid(c) <==>
            c.version == VERSION && ImportersValid(c.importers)
            && DependenciesValid(c.importers, c.dependencies)
                          && CoverageFits(c.coverage, c.importers, c.dependencies)
  {
    if DependenciesValid(c.importers, c.dependencies) {
      forall d | d in c.dependencies ensures ShapeFits(d) && RefsFit(c.importers, d) {
        var k: nat :| k < |c.dependencies| && c.dependencies[k] == d;
        assert RowFits(c.importers, c.dependencies[k]);
      }
    }
    if Valid(c) {
      forall k | 0 <= k < |c.dependencies| ensures RowFits(c.importers, c.dependencies[k]) {
        assert c.dependencies[k] in c.dependencies;
      }
    }
  }

  /** Checks order, numbers, references and counts. */
  method Validate(c: Catalog) returns (ok: bool)
    ensures ok <==> Valid(c)
  {
    ValidParts(c);
    if c.version != VERSION { return false; }
    ok := ValidateImporters(c.importers);
    if !ok { return; }
    ok := ValidateDependencies(c.importers, c.dependencies);
    if !ok { return; }
    ok := ValidateCoverage(c.coverage, c.importers, c.dependencies);
  }
}
