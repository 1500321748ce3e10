/** Building a catalog (internal/dependencies/catalog.go:117-237): sealing the importers,
    merging the uses of a package, and placing every reference. */
module CatalogBuilder {
  import opened Ordering
  import opened Canon
  import opened Catalog
  import opened CatalogFacts
  import opened CatalogParts

  // ----- sealing importers -----

  /** The sealed rows, by identity. */
  ghost predicate ByRef(importers: seq<Importer>, byRef: map<string, Importer>) {
    && (forall x :: x in importers ==> Identity(x) in byRef && byRef[Identity(x)] == x.(ref := Identity(x)))
    && (forall id :: id in byRef ==> exists x :: x in importers && Identity(x) == id)
  }

  /** Every name of an importer leads to its identity. */
  ghost predicate Aliased(importers: seq<Importer>, alias: map<string, string>) {
    && (forall x, a :: x in importers && Names(x, a) ==> a in alias && alias[a] == Identity(x))
    && (forall a :: a in alias ==> Known(importers, a))
  }

  lemma {:induction false} SealedFit(importers: seq<Importer>, byRef: map<string, Importer>, alias: map<string, string>)
    requires ByRef(importers, byRef) && Aliased(importers, alias) && forall x :: x in importers ==> ImporterFits(x)
    ensures ImportersFit(importers)
  {
    forall x, y | x in importers && y in importers && Identity(x) == Identity(y) ensures Bare(x) == Bare(y) {
      assert byRef[Identity(x)] == x.(ref := Identity(x)) && byRef[Identity(y)] == y.(ref := Identity(y));
      assert Bare(x) == Bare(x.(ref := Identity(x))) && Bare(y) == Bare(y.(ref := Identity(x)));
    }
  }

  lemma {:induction false} OneMore<T>(s: seq<T>, n: nat)
    requires n < |s|
    ensures forall x :: x in s[..n+1] <==> x in s[..n] || x == s[n]
    ensures forall x :: x in s[..n] ==> x in s
  {
    assert s[..n+1] == s[..n] + [s[n]];
  }

  lemma {:induction false} AddRow(importers: seq<Importer>, n: nat, byRef: map<string, Importer>)
    requires n < |importers| && ByRef(importers[..n], byRef)
    requires var id := Identity(importers[n]); id in byRef ==> byRef[id] == importers[n].(ref := id)
    ensures var id := Identity(importers[n]); ByRef(importers[..n+1], byRef[id := importers[n].(ref := id)])
  {
    OneMore(importers, n);
    var id := Identity(importers[n]);
    assert importers[n] in importers[..n+1];
    forall i | i in byRef ensures exists x :: x in importers[..n+1] && Identity(x) == i {
      var x :| x in importers[..n] && Identity(x) == i;
      assert x in importers[..n+1];
    }
  }

  lemma {:induction false} RowClash(importers: seq<Importer>, n: nat, byRef: map<string, Importer>)
    requires n < |importers| && ByRef(importers[..n], byRef)
    requires var id := Identity(importers[n]); id in byRef && byRef[id] != importers[n].(ref := id)
    ensures !ImportersFit(importers)
  {
    OneMore(importers, n);
    var id := Identity(importers[n]);
    var x :| x in importers[..n] && Identity(x) == id;
    assert x in importers && importers[n] in importers;
    assert x.(ref := id) == Bare(x).(ref := id) && importers[n].(ref := id) == Bare(importers[n]).(ref := id);
  }

  function WithAlias(alias: map<string, string>, a: string, id: string): map<string, string> {
    if a == "" then alias else alias[a := id]
  }

  lemma {:induction false} AddNames(importers: seq<Importer>, n: nat, alias: map<string, string>)
    requires n < |importers| && Aliased(importers[..n], alias)
    requires forall a :: Names(importers[n], a) && a in alias ==> alias[a] == Identity(importers[n])
    ensures var x := importers[n]; Aliased(importers[..n+1],
            WithAlias(WithAlias(alias, x.ref, Identity(x)), Identity(x), Identity(x)))
  {
    OneMore(importers, n);
    var x := importers[n];
    var more := WithAlias(WithAlias(alias, x.ref, Identity(x)), Identity(x), Identity(x));
    assert x in importers[..n+1] && Identity(x)[0] == 'i';
    forall y, a | y in importers[..n+1] && Names(y, a) ensures a in more && more[a] == Identity(y) {
      if Names(x, a) {
        assert more[a] == Identity(x);
        if y != x { assert a in alias && alias[a] == Identity(y); }
      } else { assert a in alias && more[a] == alias[a]; }
    }
    forall a | a in more ensures Known(importers[..n+1], a) {
      if Names(x, a) {
      } else {
        var y :| y in importers[..n] && Names(y, a);
        assert y in importers[..n+1];
      }
    }
  }

  lemma {:induction false} NameClash(importers: seq<Importer>, n: nat, alias: map<string, string>, a: string)
    requires n < |importers| && Aliased(importers[..n], alias)
    requires Names(importers[n], a) && a in alias && alias[a] != Identity(importers[n])
    ensures !ImportersFit(importers)
  {
    OneMore(importers, n);
    var y :| y in importers[..n] && Names(y, a);
    assert y in importers && importers[n] in importers;
  }

  /** Lets an importer's own reference and its identity lead to its identity. */
  method AddAliases(importers: seq<Importer>, n: nat, alias: map<string, string>)
    returns (ok: bool, more: map<string, string>)
    requires n < |importers| && Aliased(importers[..n], alias)
    ensures ok ==> Aliased(importers[..n+1], more)
    ensures !ok ==> !ImportersFit(importers)
  {
    var inputRef, identity := importers[n].ref, Identity(importers[n]);
    assert identity[0] == 'i';
    if inputRef != "" && inputRef in alias && alias[inputRef] != identity {
      NameClash(importers, n, alias, inputRef);
      return false, alias;
    }
    if identity in alias && alias[identity] != identity {
      NameClash(importers, n, alias, identity);
      return false, alias;
    }
    AddNames(importers, n, alias);
    return true, WithAlias(WithAlias(alias, inputRef, identity), identity, identity);
  }

  lemma {:induction false} FitsOn(importers: seq<Importer>, n: nat)
    requires n < |importers| && forall x :: x in importers[..n] ==> ImporterFits(x)
    ensures ImporterFits(importers[n]) ==> forall x :: x in importers[..n+1] ==> ImporterFits(x)
    ensures !ImporterFits(importers[n]) ==> !ImportersFit(importers)
  {
    OneMore(importers, n);
    assert importers[n] in importers;
  }

  /** Seals each importer and collects what it goes by. */
  method SealImporters(importers: seq<Importer>)
    returns (ok: bool, byRef: map<string, Importer>, alias: map<string, string>)
    ensures ok <==> ImportersFit(importers)
    ensures ok ==> ByRef(importers, byRef) && Aliased(importers, alias)
  {
    byRef, alias := map[], map[];
    for n := 0 to |importers|
      invariant ByRef(importers[..n], byRef)
      invariant Aliased(importers[..n], alias)
      invariant forall x :: x in importers[..n] ==> ImporterFits(x)
    {
      var identity := Identity(importers[n]);
      var importer := importers[n].(ref := identity);
      FitsOn(importers, n);
      if !ImporterFits(importer) { return false, byRef, alias; }
      if identity in byRef && byRef[identity] != importer {
        RowClash(importers, n, byRef);
        return false, byRef, alias;
      }
      AddRow(importers, n, byRef);
      byRef := byRef[identity := importer];
      ok, alias := AddAliases(importers, n, alias);
      if !ok { return; }
    }
    assert importers[..|importers|] == importers;
    SealedFit(importers, byRef, alias);
    ok := true;
  }

  // ----- numbering importers -----

  ghost predicate Keyed(byRef: map<string, Importer>) {
    forall id :: id in byRef ==> byRef[id].ref == id && Identity(byRef[id]) == id
  }

  lemma {:induction false} SealedKeyed(importers: seq<Importer>, byRef: map<string, Importer>)
    requires ByRef(importers, byRef)
    ensures Keyed(byRef)
  {
    forall id | id in byRef ensures byRef[id].ref == id && Identity(byRef[id]) == id {
      var x :| x in importers && Identity(x) == id;
      SameBare(x, byRef[id]);
    }
  }

  /** Each row once. */
  ghost predicate RowsOf(byRef: map<string, Importer>, s: seq<Importer>) {
    && (forall k :: 0 <= k < |s| ==> s[k].ref in byRef && byRef[s[k].ref] == s[k])
    && (forall id :: id in byRef ==> byRef[id] in s)
    && (forall j, k :: 0 <= j < k < |s| ==> s[j] != s[k])
  }

  lemma {:induction false} SortedTwice<T(!new)>(s: seq<T>, less: (T, T) -> bool)
    requires Linear(s, less) && forall j, k :: 0 <= j < k < |s| ==> s[j] != s[k]
    ensures Ordered(Sorted(s, less), less) && forall x :: x in Sorted(s, less) <==> x in s
  {
    forall i, j | 0 <= i < j < |s| ensures less(s[i], s[j]) || less(s[j], s[i]) { assert s[i] in s && s[j] in s; }
    SortedOrders(s, less);
    SortedKeeps(s, less);
    KeptMembers(Sorted(s, less), s);
  }

  lemma {:induction false} SortedRows(byRef: map<string, Importer>, s: seq<Importer>)
    requires Keyed(byRef) && RowsOf(byRef, s)
    ensures var t := Sorted(s, ImporterLess); Ordered(t, ImporterLess) && RowsOf(byRef, t)
  {
    var t := Sorted(s, ImporterLess);
    ImporterLine(s);
    SortedTwice(s, ImporterLess);
    forall k | 0 <= k < |t| ensures t[k].ref in byRef && byRef[t[k].ref] == t[k] { assert t[k] in s; }
    ImporterLine(t);
    forall j, k | 0 <= j < k < |t| ensures t[j] != t[k] { assert ImporterLess(t[j], t[k]) && t[j] in t && t[k] in t; }
  }

  function Renumbered(s: seq<Importer>): (t: seq<Importer>)
    ensures |t| == |s| && forall k :: 0 <= k < |t| ==> t[k] == s[k].(ref := Compact('i', k + 1))
  {
    seq(|s|, k requires 0 <= k < |s| => s[k].(ref := Compact('i', k + 1)))
  }

  /** The numbered rows, and where each identity has its number. */
  ghost predicate Ranked(byRef: map<string, Importer>, ordered: seq<Importer>, compact: map<string, string>) {
    && Numbered(ordered) && Ordered(ordered, ImporterLess) && Apart(ordered)
    && (forall k :: 0 <= k < |ordered| ==>
          Identity(ordered[k]) in byRef && Bare(ordered[k]) == Bare(byRef[Identity(ordered[k])]))
    && (forall id :: id in byRef ==> id in compact && exists k ::
          0 <= k < |ordered| && Identity(ordered[k]) == id
          && ordered[k].ref == compact[id])
  }

  lemma {:induction false} RenumberedRow(byRef: map<string, Importer>, s: seq<Importer>, k: nat)
    requires Keyed(byRef) && RowsOf(byRef, s) && k < |s|
    ensures var t := Renumbered(s); Bare(t[k]) == Bare(s[k]) && Identity(t[k]) == s[k].ref && Identity(s[k]) == s[k].ref
  {
    SameBare(Renumbered(s)[k], s[k]);
  }

  lemma {:induction false} RenumberedOrdered(byRef: map<string, Importer>, s: seq<Importer>)
    requires Keyed(byRef) && RowsOf(byRef, s) && Ordered(s, ImporterLess)
    ensures Apart(Renumbered(s)) && Ordered(Renumbered(s), ImporterLess)
  {
    var t := Renumbered(s);
    forall j, k | 0 <= j < |t| && 0 <= k < |t| && Identity(t[j]) == Identity(t[k]) ensures j == k {
      RenumberedRow(byRef, s, j);
      RenumberedRow(byRef, s, k);
      assert s[j] == s[k];
    }
    forall j, k | 0 <= j < k < |t| ensures ImporterLess(t[j], t[k]) {
      RenumberedRow(byRef, s, j);
      RenumberedRow(byRef, s, k);
      if Bare(s[j]) == Bare(s[k]) { SameBare(s[j], s[k]); }
      ImporterFirst(s[j], s[k], t[j], t[k]);
    }
  }

  /** Which identities have their number among the first rows. */
  ghost predicate NumberedTo(s: seq<Importer>, n: nat, compact: map<string, string>)
    requires n <= |s|
  {
    forall k :: 0 <= k < n ==> s[k].ref in compact && compact[s[k].ref] == Compact('i', k + 1)
  }

  lemma {:induction false} RanksAll(byRef: map<string, Importer>, s: seq<Importer>, compact: map<string, string>)
    requires Keyed(byRef) && RowsOf(byRef, s) && Ordered(s, ImporterLess) && NumberedTo(s, |s|, compact)
    ensures Ranked(byRef, Renumbered(s), compact)
  {
    var t := Renumbered(s);
    RenumberedOrdered(byRef, s);
    forall k | 0 <= k < |t| ensures Identity(t[k]) in byRef && Bare(t[k]) == Bare(byRef[Identity(t[k])]) {
      RenumberedRow(byRef, s, k);
    }
    forall id | id in byRef
      ensures id in compact && exists k :: 0 <= k < |t| && Identity(t[k]) == id && t[k].ref == compact[id]
    {
      var k: nat :| k < |s| && s[k] == byRef[id];
      RenumberedRow(byRef, s, k);
    }
  }

  /** The rows, in whichever order the map gives them. */
  method CollectRows(byRef: map<string, Importer>) returns (s: seq<Importer>)
    requires Keyed(byRef)
    ensures RowsOf(byRef, s)
  {
    s := [];
    var left := byRef.Keys;
    while left != {}
      invariant left <= byRef.Keys
      invariant forall k :: 0 <= k < |s| ==> s[k].ref in byRef && s[k].ref !in left && byRef[s[k].ref] == s[k]
      invariant forall id :: id in byRef && id !in left ==> byRef[id] in s
      invariant forall j, k :: 0 <= j < k < |s| ==> s[j] != s[k]
    {
      var id :| id in left;
      left := left - {id};
      s := s + [byRef[id]];
    }
  }

  lemma {:induction false} NumbersOn(byRef: map<string, Importer>, s: seq<Importer>, n: nat,
                                     compact: map<string, string>)
    requires RowsOf(byRef, s) && n < |s| && NumberedTo(s, n, compact)
    ensures NumberedTo(s, n + 1, compact[s[n].ref := Compact('i', n + 1)])
  {
    forall i | 0 <= i < n ensures s[i].ref != s[n].ref {
      assert s[i] == byRef[s[i].ref] && s[n] == byRef[s[n].ref] && s[i] != s[n];
    }
  }

  lemma {:induction false} RenumbersOn(s: seq<Importer>, k: nat)
    requires k < |s|
    ensures (Renumbered(s)[..k] + s[k..])[k] == s[k]
    ensures (Renumbered(s)[..k] + s[k..])[k := s[k].(ref := Compact('i', k + 1))] == Renumbered(s)[..k+1] + s[k+1..]
  {
  }

  ghost predicate LocalValues(compact: map<string, string>) {
    forall id :: id in compact ==> Local(compact[id])
  }

  /** Numbers the rows in place, noting each identity's number. */
  method GiveNumbers(s: seq<Importer>, ghost byRef: map<string, Importer>)
    returns (ordered: seq<Importer>, compact: map<string, string>)
    requires RowsOf(byRef, s)
    ensures ordered == Renumbered(s) && NumberedTo(s, |s|, compact) && LocalValues(compact)
  {
    ordered, compact := s, map[];
    for k := 0 to |s|
      invariant ordered == Renumbered(s)[..k] + s[k..]
      invariant NumberedTo(s, k, compact) && LocalValues(compact)
    {
      RenumbersOn(s, k);
      NumbersOn(byRef, s, k, compact);
      var identity, ref := ordered[k].ref, Compact('i', k + 1);
      ordered := ordered[k := ordered[k].(ref := ref)];
      compact := compact[identity := ref];
    }
  }

  /** Sorts the importers and gives each its number. */
  method NumberImporters(byRef: map<string, Importer>) returns (ordered: seq<Importer>, compact: map<string, string>)
    requires Keyed(byRef)
    ensures Ranked(byRef, ordered, compact) && LocalValues(compact)
  {
    var rows := CollectRows(byRef);
    SortedRows(byRef, rows);
    var s := Sorted(rows, ImporterLess);
    ordered, compact := GiveNumbers(s, byRef);
    RanksAll(byRef, s, compact);
  }
}
