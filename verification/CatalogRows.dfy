/** The dependency rows of a catalog (internal/dependencies/catalog.go:155-216): uses of one
    package are merged, then every row is placed among the numbered importers. */
module CatalogRows {
  import opened Ordering
  import opened Canon
  import opened Catalog
  import opened CatalogFacts
  import opened CatalogParts
  import CatalogBuilder

  // ----- what happens to references -----

  /** A row's importers, or those that import it for effect. */
  function RefsOf(d: Dependency, effect: bool): seq<string> {
    if effect then d.effectImporterRefs else d.importerRefs
  }

  /** Some reference of the list is sent to `r`. */
  ghost predicate Sent(to: map<string, string>, refs: seq<string>, r: string) {
    exists q :: q in refs && q in to && to[q] == r
  }

  ghost predicate AllIn(refs: seq<string>, to: map<string, string>) {
    forall r :: r in refs ==> r in to
  }

  /** Replaces each reference by what it leads to, in place. */
  method ResolveRefs(refs: seq<string>, alias: map<string, string>) returns (ok: bool, resolved: seq<string>)
    ensures ok <==> AllIn(refs, alias)
    ensures ok ==> forall r :: r in resolved <==> Sent(alias, refs, r)
  {
    resolved := refs;
    for k := 0 to |refs|
      invariant |resolved| == |refs|
      invariant forall i :: 0 <= i < k ==> refs[i] in alias && resolved[i] == alias[refs[i]]
      invariant forall i :: k <= i < |refs| ==> resolved[i] == refs[i]
    {
      if resolved[k] !in alias {
        assert refs[k] in refs;
        return false, resolved;
      }
      resolved := resolved[k := alias[resolved[k]]];
    }
    ok := true;
    forall r ensures r in resolved <==> Sent(alias, refs, r) {
      if r in resolved {
        var i: nat :| i < |resolved| && resolved[i] == r;
        assert refs[i] in refs;
      }
      if Sent(alias, refs, r) {
        var q :| q in refs && q in alias && alias[q] == r;
        var i: nat :| i < |refs| && refs[i] == q;
        assert resolved[i] == r;
      }
    }
  }

  // ----- merging -----

  /** Some use of the package is sent to `r`. */
  ghost predicate Sends(values: seq<Dependency>, alias: map<string, string>, id: string, effect: bool, r: string) {
    exists v :: v in values && DependencyIdentity(v) == id && Sent(alias, RefsOf(v, effect), r)
  }

  /** The row of the identity holds all that its uses are sent to. */
  ghost predicate RowMerged(values: seq<Dependency>, alias: map<string, string>, id: string, row: Dependency) {
    && row.id == id && DependencyIdentity(row) == id
    && (exists v :: v in values && DependencyIdentity(v) == id)
    && (forall effect, r :: r in RefsOf(row, effect) <==> Sends(values, alias, id, effect, r))
  }

  ghost predicate ShapesMerged(values: seq<Dependency>, byId: map<string, Dependency>) {
    forall v :: v in values ==> DependencyIdentity(v) in byId && Shape(byId[DependencyIdentity(v)]) == Shape(v)
  }

  /** One row for each package, with all it is used by. */
  ghost predicate Merged(values: seq<Dependency>, alias: map<string, string>, byId: map<string, Dependency>) {
    ShapesMerged(values, byId) && forall id :: id in byId ==> RowMerged(values, alias, id, byId[id])
  }

  ghost predicate ValueIn(alias: map<string, string>, v: Dependency) {
    ShapeFits(v) && AllIn(v.importerRefs, alias) && AllIn(v.effectImporterRefs, alias)
  }

  /** The row of one use, under its identity. */
  ghost predicate RowFor(alias: map<string, string>, v: Dependency, row: Dependency) {
    && row.id == DependencyIdentity(v) && Shape(row) == Shape(v)
    && forall effect, r :: r in RefsOf(row, effect) <==> Sent(alias, RefsOf(v, effect), r)
  }

  lemma {:induction false} ShapeKeepsFit(u: Dependency, v: Dependency)
    requires Shape(u) == Shape(v)
    ensures FieldsFit(u) <==> FieldsFit(v)
  {
    assert FieldsFit(u) == FieldsFit(Shape(u)) && FieldsFit(v) == FieldsFit(Shape(v));
  }

  method SealRow(v: Dependency, alias: map<string, string>) returns (ok: bool, row: Dependency)
    ensures ok <==> ValueIn(alias, v)
    ensures ok ==> RowFor(alias, v, row)
  {
    row := v;
    var known, refs := ResolveRefs(v.importerRefs, alias);
    if !known { return false, row; }
    CanonicalKeeps(refs, Less);
    var importers := Canonical(refs, Less);
    known, refs := ResolveRefs(v.effectImporterRefs, alias);
    if !known { return false, row; }
    CanonicalKeeps(refs, Less);
    var effects := Canonical(refs, Less);
    row := v.(importerRefs := importers, effectImporterRefs := effects, id := DependencyIdentity(v));
    assert Shape(row) == Shape(v);
    ShapeKeepsFit(row, v);
    if v.importerRefs != [] {
      assert v.importerRefs[0] in v.importerRefs;
      assert Sent(alias, v.importerRefs, alias[v.importerRefs[0]]);
    }
    if importers != [] {
      assert importers[0] in importers;
      var q :| q in v.importerRefs && q in alias && alias[q] == importers[0];
    }
    ok := ShapeFits(row);
  }

  /** The row that was there and the new one's references. */
  ghost predicate Joined(byId: map<string, Dependency>, alias: map<string, string>, v: Dependency,
                         more: map<string, Dependency>) {
    var id := DependencyIdentity(v);
    && more.Keys == byId.Keys + {id}
    && (forall i :: i in byId && i != id ==> more[i] == byId[i])
    && more[id].id == id && Shape(more[id]) == Shape(v) && (id in byId ==> Shape(byId[id]) == Shape(v))
    && (forall effect, r :: r in RefsOf(more[id], effect) <==>
          (id in byId && r in RefsOf(byId[id], effect))
          || Sent(alias, RefsOf(v, effect), r))
  }

  /** Adds a row to the one of its identity, unless their names differ. */
  method JoinRow(byId: map<string, Dependency>, row: Dependency, ghost alias: map<string, string>, ghost v: Dependency)
    returns (ok: bool, more: map<string, Dependency>)
    requires RowFor(alias, v, row) && forall id :: id in byId ==> byId[id].id == id
    ensures ok <==> row.id in byId ==> Shape(byId[row.id]) == Shape(v)
    ensures ok ==> Joined(byId, alias, v, more)
  {
    more := byId;
    if row.id in byId {
      var previous := byId[row.id];
      if Shape(previous) != Shape(row) { return false, more; }
      CanonicalKeeps(previous.importerRefs + row.importerRefs, Less);
      var refs := Canonical(previous.importerRefs + row.importerRefs, Less);
      var effects := previous.effectImporterRefs;
      if |row.effectImporterRefs| > 0 {
        CanonicalKeeps(previous.effectImporterRefs + row.effectImporterRefs, Less);
        effects := Canonical(previous.effectImporterRefs + row.effectImporterRefs, Less);
      }
      var joined := previous.(importerRefs := refs, effectImporterRefs := effects);
      assert Shape(joined) == Shape(previous);
      more := byId[row.id := joined];
    } else {
      more := byId[row.id := row];
    }
    ok := true;
  }

  lemma {:induction false} SendsMore(values: seq<Dependency>, n: nat, alias: map<string, string>, id: string,
                                     effect: bool, r: string)
    requires n < |values|
    ensures Sends(values[..n+1], alias, id, effect, r)
            <==>
              Sends(values[..n], alias, id, effect, r)
              || (id == DependencyIdentity(values[n]) && Sent(alias, RefsOf(values[n], effect), r))
  {
    CatalogBuilder.OneMore(values, n);
    if Sends(values[..n], alias, id, effect, r) {
      var v :| v in values[..n] && DependencyIdentity(v) == id && Sent(alias, RefsOf(v, effect), r);
      assert v in values[..n+1];
    }
    assert values[n] in values[..n+1];
  }

  lemma {:induction false} SendsKnown(values: seq<Dependency>, alias: map<string, string>,
                                      byId: map<string, Dependency>, id: string, effect: bool, r: string)
    requires ShapesMerged(values, byId)
    ensures Sends(values, alias, id, effect, r) ==> id in byId
  {
  }

  lemma {:induction false} RefMerged(values: seq<Dependency>, n: nat, alias: map<string, string>,
                                     byId: map<string, Dependency>, more: map<string, Dependency>,
      id: string, effect: bool, r: string)
    requires n < |values| && ShapesMerged(values[..n], byId) && Joined(byId, alias, values[n], more) && id in more
    requires id in byId ==> (r in RefsOf(byId[id], effect) <==> Sends(values[..n], alias, id, effect, r))
    ensures r in RefsOf(more[id], effect) <==> Sends(values[..n+1], alias, id, effect, r)
  {
    SendsMore(values, n, alias, id, effect, r);
    SendsKnown(values[..n], alias, byId, id, effect, r);
  }

  lemma {:induction false} MergedRow(values: seq<Dependency>, n: nat, alias: map<string, string>,
                                     byId: map<string, Dependency>, more: map<string, Dependency>, id: string)
    requires n < |values| && ShapesMerged(values[..n], byId) && Joined(byId, alias, values[n], more) && id in more
    requires id in byId ==> RowMerged(values[..n], alias, id, byId[id])
    ensures RowMerged(values[..n+1], alias, id, more[id])
  {
    assert exists v :: v in values[..n+1] && DependencyIdentity(v) == id by {
      CatalogBuilder.OneMore(values, n);
      if id == DependencyIdentity(values[n]) { assert values[n] in values[..n+1]; }
      else {
        var v :| v in values[..n] && DependencyIdentity(v) == id;
        assert v in values[..n+1];
      }
    }
    if id == DependencyIdentity(values[n]) { SameShape(more[id], values[n]); }
    forall effect, r ensures r in RefsOf(more[id], effect) <==> Sends(values[..n+1], alias, id, effect, r) {
      RefMerged(values, n, alias, byId, more, id, effect, r);
    }
  }

  lemma {:induction false} ShapesOn(values: seq<Dependency>, n: nat, alias: map<string, string>,
                                    byId: map<string, Dependency>, more: map<string, Dependency>)
    requires n < |values| && ShapesMerged(values[..n], byId) && Joined(byId, alias, values[n], more)
    ensures ShapesMerged(values[..n+1], more)
  {
    CatalogBuilder.OneMore(values, n);
    var id := DependencyIdentity(values[n]);
    forall v | v in values[..n+1]
      ensures DependencyIdentity(v) in more && Shape(more[DependencyIdentity(v)]) == Shape(v)
    {
      if v in values[..n] && DependencyIdentity(v) == id { assert Shape(byId[id]) == Shape(v); }
    }
  }

  lemma {:induction false} MergedOn(values: seq<Dependency>, n: nat, alias: map<string, string>,
                                    byId: map<string, Dependency>, more: map<string, Dependency>)
    requires n < |values| && Merged(values[..n], alias, byId) && Joined(byId, alias, values[n], more)
    ensures Merged(values[..n+1], alias, more)
  {
    forall id | id in more ensures RowMerged(values[..n+1], alias, id, more[id]) {
      MergedRow(values, n, alias, byId, more, id);
    }
    ShapesOn(values, n, alias, byId, more);
  }

  lemma {:induction false} MergedOne(values: seq<Dependency>, alias: map<string, string>, byId: map<string, Dependency>)
    requires Merged(values, alias, byId)
    ensures OneShape(values)
  {
    forall u, v | u in values && v in values && DependencyIdentity(u) == DependencyIdentity(v)
      ensures Shape(u) == Shape(v)
    {
      assert Shape(byId[DependencyIdentity(u)]) == Shape(u);
    }
  }

  lemma {:induction false} NamesClash(values: seq<Dependency>, n: nat, alias: map<string, string>,
                                      byId: map<string, Dependency>)
    requires n < |values| && Merged(values[..n], alias, byId)
    requires var id := DependencyIdentity(values[n]); id in byId && Shape(byId[id]) != Shape(values[n])
    ensures !OneShape(values)
  {
    CatalogBuilder.OneMore(values, n);
    var v :| v in values[..n] && DependencyIdentity(v) == DependencyIdentity(values[n]);
    assert Shape(byId[DependencyIdentity(v)]) == Shape(v);
    assert values[n] in values && v in values;
  }

  lemma {:induction false} AllMore(values: seq<Dependency>, n: nat, alias: map<string, string>)
    requires n < |values| && forall v :: v in values[..n] ==> ValueIn(alias, v)
    ensures values[n] in values
    ensures ValueIn(alias, values[n]) ==> forall v :: v in values[..n+1] ==> ValueIn(alias, v)
  {
    CatalogBuilder.OneMore(values, n);
  }

  /** Merges the uses of each package. */
  method MergeRows(values: seq<Dependency>, alias: map<string, string>)
    returns (ok: bool, byId: map<string, Dependency>)
    ensures ok <==> (forall v :: v in values ==> ValueIn(alias, v)) && OneShape(values)
    ensures ok ==> Merged(values, alias, byId)
  {
    byId := map[];
    for n := 0 to |values|
      invariant forall v :: v in values[..n] ==> ValueIn(alias, v)
      invariant Merged(values[..n], alias, byId)
    {
      AllMore(values, n, alias);
      var row;
      ok, row := SealRow(values[n], alias);
      if !ok { return; }
      ghost var before := byId;
      ok, byId := JoinRow(byId, row, alias, values[n]);
      if !ok {
        NamesClash(values, n, alias, before);
        return;
      }
      MergedOn(values, n, alias, before, byId);
    }
    assert values[..|values|] == values;
    MergedOne(values, alias, byId);
    ok := true;
  }
}
