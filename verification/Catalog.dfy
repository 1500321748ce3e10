/** The catalog of imported packages (internal/dependencies/catalog.go): what a catalog says,
    when it is valid, and that what it says determines it. */
module Catalog {
  import opened Ordering
  import opened Canon
  import opened Characters

  const VERSION := 2

  datatype Importer = Importer(ref: string, language: string, name: string,
                               modulePath: string, packagePath: string, repositoryPath: string)

  datatype Replacement = Replacement(modulePath: string, moduleVersion: string, local: bool, repositoryPath: string)

  datatype Dependency = Dependency(id: string, language: string, kind: string, name: string,
                                   modulePath: string, moduleVersion: string, packagePath: string,
                                   repositoryPath: string, replacement: Option<Replacement>,
                                   importerRefs: seq<string>, effectImporterRefs: seq<string>)

  datatype Omission = Omission(importerRef: string, importerPackagePath: string, packagePath: string, reason: string)

  datatype State = Complete | Partial

  datatype Coverage = Coverage(state: State, observed: nat, retained: nat, omissions: seq<Omission>)

  datatype Catalog = Catalog(version: nat, importers: seq<Importer>, dependencies: seq<Dependency>, coverage: Coverage)

  /** What a catalog is built from; a catalog's own rows are such parts. */
  datatype Parts = Parts(importers: seq<Importer>, values: seq<Dependency>, omissions: seq<Omission>)

  function PartsOf(c: Catalog): Parts {
    Parts(c.importers, c.dependencies, c.coverage.omissions)
  }

  /** An importer without its local reference. */
  function Bare(x: Importer): Importer {
    x.(ref := "")
  }

  /** A dependency without its local id and without who imports it. */
  function Shape(d: Dependency): Dependency {
    d.(id := "", importerRefs := [], effectImporterRefs := [])
  }

  // ----- texts and shapes -----

  predicate Plain(s: string) {
    s != "" && !IsSpace(s[0]) && !IsSpace(s[|s|-1]) && '\0' !in s && '\r' !in s && '\n' !in s
  }

  predicate PartsFit(s: string)
    decreases |s|
  {
    var k := Before(s, '/');
    s[..k] != "" && s[..k] != ".." && (k < |s| ==> PartsFit(s[k+1..]))
  }

  predicate RepositoryPath(s: string) {
    Plain(s) && '\\' !in s && PartsFit(s)
  }

  predicate ImporterFits(x: Importer) {
    Plain(x.language) && Plain(x.name) && Plain(x.modulePath) && Plain(x.packagePath)
      && RepositoryPath(x.repositoryPath)
  }

  predicate ReplacementFits(r: Replacement) {
    if r.local then r.modulePath == "" && r.moduleVersion == ""
      && (r.repositoryPath == "" || RepositoryPath(r.repositoryPath))
    else Plain(r.modulePath) && r.repositoryPath == "" && (r.moduleVersion == "" || Plain(r.moduleVersion))
  }

  predicate KindFits(d: Dependency) {
    if d.kind == "workspace" then Plain(d.modulePath) && d.moduleVersion == "" && RepositoryPath(d.repositoryPath)
      && d.replacement.None?
    else if d.kind == "stdlib" then d.modulePath == "" && d.moduleVersion == "" && d.repositoryPath == ""
      && d.replacement.None?
    else d.kind == "external" && Plain(d.modulePath) && d.repositoryPath == ""
  }

  /** The fields of a dependency, whoever imports it. */
  predicate FieldsFit(d: Dependency) {
    && Plain(d.language) && Plain(d.name) && Plain(d.packagePath)
    && (d.moduleVersion == "" || Plain(d.moduleVersion))
    && KindFits(d)
    && (d.replacement.Some? ==> ReplacementFits(d.replacement.value))
  }

  predicate ShapeFits(d: Dependency) {
    d.importerRefs != [] && FieldsFit(d)
  }

  predicate ReasonFits(reason: string) {
    || reason == "importer_identity_unavailable"
    || reason == "dependency_metadata_missing"
    || reason == "dependency_load_unavailable"
    || reason == "dependency_identity_missing"
    || reason == "module_authority_missing"
  }

  predicate OmissionPlain(o: Omission) {
    && Plain(o.packagePath) && ReasonFits(o.reason)
    && (o.importerPackagePath == "" || Plain(o.importerPackagePath))
    && (o.importerRef == "" ==> o.reason == "importer_identity_unavailable")
  }

  // ----- identities; the digest of a text stands as the text -----

  function StableId(prefix: string, fields: seq<string>): string {
    prefix + "-" + Encoded(["dependencies-v1", prefix] + fields)
  }

  function ImporterFields(x: Importer): seq<string> {
    [x.language, x.modulePath, x.packagePath, x.repositoryPath]
  }

  function Identity(x: Importer): string {
    StableId("importer", ImporterFields(x))
  }

  function Flag(b: bool): string {
    if b then "true" else "false"
  }

  function DependencyFields(d: Dependency): seq<string> {
    [d.language, d.kind, d.modulePath, d.moduleVersion, d.packagePath, d.repositoryPath]
    + if d.replacement.None? then []
      else [d.replacement.value.modulePath, d.replacement.value.moduleVersion, Flag(d.replacement.value.local),
        d.replacement.value.repositoryPath]
  }

  function DependencyIdentity(d: Dependency): string {
    StableId("dependency", DependencyFields(d))
  }

  lemma {:induction false} SameFields(prefix: string, a: seq<string>, b: seq<string>)
    requires StableId(prefix, a) == StableId(prefix, b)
    ensures a == b
  {
    var head := ["dependencies-v1", prefix];
    assert StableId(prefix, a)[|prefix|+1..] == Encoded(head + a);
    assert StableId(prefix, b)[|prefix|+1..] == Encoded(head + b);
    EncodedOnce(head + a, head + b);
    assert (head + a)[2..] == a && (head + b)[2..] == b;
  }

  /** Importers of one identity differ in name only. */
  lemma {:induction false} OneImporter(x: Importer, y: Importer)
    requires Identity(x) == Identity(y)
    ensures Bare(x) == Bare(y).(name := x.name)
  {
    SameFields("importer", ImporterFields(x), ImporterFields(y));
    var a, b := ImporterFields(x), ImporterFields(y);
    assert a[0] == b[0] && a[1] == b[1] && a[2] == b[2] && a[3] == b[3];
  }

  /** Dependencies of one identity differ in name only. */
  lemma {:induction false} OneDependency(d: Dependency, e: Dependency)
    requires DependencyIdentity(d) == DependencyIdentity(e)
    ensures Shape(d) == Shape(e).(name := d.name)
  {
    SameFields("dependency", DependencyFields(d), DependencyFields(e));
    var a, b := DependencyFields(d), DependencyFields(e);
    assert a[0] == b[0] && a[1] == b[1] && a[2] == b[2] && a[3] == b[3] && a[4] == b[4] && a[5] == b[5];
    assert |a| == |b|;
    if d.replacement.Some? {
      assert a[6] == b[6] && a[7] == b[7] && a[8] == b[8] && a[9] == b[9];
      assert Flag(true)[0] == 't' && Flag(false)[0] == 'f';
    }
  }

  // ----- the orders of the rows -----

  function ImporterKey(x: Importer): seq<string> {
    [x.repositoryPath, x.packagePath, x.language, x.modulePath, x.name]
  }

  predicate ImporterLess(x: Importer, y: Importer) {
    FieldsLess(ImporterKey(x) + [x.ref], ImporterKey(y) + [y.ref])
  }

  lemma {:induction false} ImporterKeyTells(x: Importer, y: Importer)
    requires ImporterKey(x) == ImporterKey(y)
    ensures Bare(x) == Bare(y)
  {
    var a, b := ImporterKey(x), ImporterKey(y);
    assert a[0] == b[0] && a[1] == b[1] && a[2] == b[2] && a[3] == b[3] && a[4] == b[4];
  }

  lemma {:induction false} ImporterLine(s: seq<Importer>)
    ensures Linear(s, ImporterLess)
  {
    forall x, y | ImporterLess(x, y) ensures x != y && !ImporterLess(y, x) {
      FieldsOneWay(ImporterKey(x) + [x.ref], ImporterKey(y) + [y.ref]);
    }
    forall x, y, z | ImporterLess(x, y) && ImporterLess(y, z) ensures ImporterLess(x, z) {
      FieldsOn(ImporterKey(x) + [x.ref], ImporterKey(y) + [y.ref], ImporterKey(z) + [z.ref]);
    }
    forall x, y ensures x == y || ImporterLess(x, y) || ImporterLess(y, x) {
      var a, b := ImporterKey(x) + [x.ref], ImporterKey(y) + [y.ref];
      FieldsTotal(a, b);
      if a == b {
        assert a[..5] == ImporterKey(x) && b[..5] == ImporterKey(y) && a[5] == b[5];
        ImporterKeyTells(x, y);
        assert x == Bare(x).(ref := x.ref) && y == Bare(y).(ref := y.ref);
      }
    }
  }

  /** Which of two different importers is first does not depend on their references. */
  lemma {:induction false} ImporterFirst(x: Importer, y: Importer, u: Importer, v: Importer)
    requires Bare(x) == Bare(u) && Bare(y) == Bare(v) && Bare(x) != Bare(y)
    ensures ImporterLess(x, y) == ImporterLess(u, v)
  {
    assert ImporterKey(x) == ImporterKey(Bare(x)) == ImporterKey(u);
    assert ImporterKey(y) == ImporterKey(Bare(y)) == ImporterKey(v);
    if ImporterKey(x) == ImporterKey(y) { ImporterKeyTells(x, y); }
    FieldsFirst(ImporterKey(x), ImporterKey(y), [x.ref], [y.ref]);
    FieldsFirst(ImporterKey(u), ImporterKey(v), [u.ref], [v.ref]);
  }

  function Rank(kind: string): nat {
    if kind == "workspace" then 0 else if kind == "stdlib" then 1 else if kind == "external" then 2 else 3
  }

  /** Texts one after another, with a NUL between. */
  function Joined(a: string, rest: string): string {
    a + ['\0'] + rest
  }

  function ReplacementKey(r: Option<Replacement>): string {
    if r.None? then ""
    else Joined(r.value.modulePath, Joined(r.value.moduleVersion, Joined(Flag(r.value.local), r.value.repositoryPath)))
  }

  function DependencyKey(d: Dependency): seq<string> {
    [d.packagePath, d.modulePath, d.moduleVersion, d.repositoryPath, d.language, d.name, ReplacementKey(d.replacement)]
  }

  predicate DependencyLess(d: Dependency, e: Dependency) {
    if d.kind != e.kind then Rank(d.kind) < Rank(e.kind)
    else FieldsLess(DependencyKey(d) + [d.id], DependencyKey(e) + [e.id])
  }

  lemma {:induction false} JoinedOnce(a: string, x: string, b: string, y: string)
    requires '\0' !in a && '\0' !in b && Joined(a, x) == Joined(b, y)
    ensures a == b && x == y
  {
    SameCut(a, b, '\0', x, y);
  }

  lemma {:induction false} ReplacementKeyTells(a: Replacement, b: Replacement)
    requires ReplacementFits(a) && ReplacementFits(b) && ReplacementKey(Some(a)) == ReplacementKey(Some(b))
    ensures a == b
  {
    var u, v := Joined(Flag(a.local), a.repositoryPath), Joined(Flag(b.local), b.repositoryPath);
    JoinedOnce(a.modulePath, Joined(a.moduleVersion, u), b.modulePath, Joined(b.moduleVersion, v));
    JoinedOnce(a.moduleVersion, u, b.moduleVersion, v);
    JoinedOnce(Flag(a.local), a.repositoryPath, Flag(b.local), b.repositoryPath);
    assert Flag(true)[0] == 't' && Flag(false)[0] == 'f';
  }

  /** Kind and key hold every field but the id and the importers. */
  lemma {:induction false} DependencyKeyTells(d: Dependency, e: Dependency)
    requires FieldsFit(d) && FieldsFit(e) && d.kind == e.kind && DependencyKey(d) == DependencyKey(e)
    ensures Shape(d) == Shape(e)
  {
    var a, b := DependencyKey(d), DependencyKey(e);
    assert a[0] == b[0] && a[1] == b[1] && a[2] == b[2] && a[3] == b[3] && a[4] == b[4] && a[5] == b[5] && a[6] == b[6];
    if d.replacement.Some? && e.replacement.Some? { ReplacementKeyTells(d.replacement.value, e.replacement.value); }
  }

  /** Dependencies of the known kinds are in one line, told apart by id where nothing else does. */
  lemma {:induction false} DependencyChain(s: seq<Dependency>)
    requires forall d :: d in s ==> FieldsFit(d)
    ensures Chained(s, DependencyLess)
  {
    forall d, e | d in s && e in s && DependencyLess(d, e) ensures d != e && !DependencyLess(e, d) {
      if d.kind == e.kind { FieldsOneWay(DependencyKey(d) + [d.id], DependencyKey(e) + [e.id]); }
    }
    forall c, d, e | c in s && d in s && e in s && DependencyLess(c, d) && DependencyLess(d, e)
      ensures DependencyLess(c, e)
    {
      if c.kind == d.kind == e.kind {
        FieldsOn(DependencyKey(c) + [c.id], DependencyKey(d) + [d.id], DependencyKey(e) + [e.id]);
      }
    }
  }

  lemma {:induction false} DependencyTotal(d: Dependency, e: Dependency)
    requires FieldsFit(d) && FieldsFit(e) && Shape(d) != Shape(e)
    ensures DependencyLess(d, e) || DependencyLess(e, d)
  {
    if d.kind == e.kind {
      if DependencyKey(d) == DependencyKey(e) { DependencyKeyTells(d, e); }
      var a, b := DependencyKey(d) + [d.id], DependencyKey(e) + [e.id];
      assert a[..7] == DependencyKey(d) && b[..7] == DependencyKey(e);
      FieldsTotal(a, b);
    }
  }

  /** Which of two different dependencies is first does not depend on their ids. */
  lemma {:induction false} DependencyFirst(c: Dependency, d: Dependency, e: Dependency, f: Dependency)
    requires FieldsFit(c) && FieldsFit(d)
    requires Shape(c) == Shape(e) && Shape(d) == Shape(f) && Shape(c) != Shape(d)
    ensures DependencyLess(c, d) == DependencyLess(e, f)
  {
    assert DependencyKey(c) == DependencyKey(Shape(c)) == DependencyKey(e) && c.kind == Shape(c).kind == e.kind;
    assert DependencyKey(d) == DependencyKey(Shape(d)) == DependencyKey(f) && d.kind == Shape(d).kind == f.kind;
    if c.kind == d.kind {
      if DependencyKey(c) == DependencyKey(d) { DependencyKeyTells(c, d); }
      FieldsFirst(DependencyKey(c), DependencyKey(d), [c.id], [d.id]);
      FieldsFirst(DependencyKey(e), DependencyKey(f), [e.id], [f.id]);
    }
  }

  predicate RefLess(a: string, b: string) {
    CompactLess(a, b, 'i')
  }

  predicate OmissionLess(o: Omission, p: Omission) {
    var a, b := [o.importerPackagePath, o.packagePath, o.reason], [p.importerPackagePath, p.packagePath, p.reason];
    if a != b then FieldsLess(a, b)
    else o.importerRef != p.importerRef && RefLess(o.importerRef, p.importerRef)
  }

  /** Local references: none, or a numbered one. */
  ghost predicate Local(ref: string) {
    ref == "" || exists n: nat :: ref == Compact('i', n)
  }

  lemma {:induction false} LocalLess(a: string, b: string)
    requires Local(a) && Local(b)
    ensures RefLess(a, b) ==> a != b && !RefLess(b, a)
    ensures a == b || RefLess(a, b) || RefLess(b, a)
  {
    if a != "" && b != "" {
      var m: nat :| a == Compact('i', m);
      var n: nat :| b == Compact('i', n);
      CompactOrder('i', m, n);
      CompactOrder('i', n, m);
    }
  }

  lemma {:induction false} LocalOn(a: string, b: string, c: string)
    requires Local(a) && Local(b) && Local(c) && RefLess(a, b) && RefLess(b, c)
    ensures RefLess(a, c)
  {
    if a != "" && b != "" && c != "" {
      var l: nat :| a == Compact('i', l);
      var m: nat :| b == Compact('i', m);
      var n: nat :| c == Compact('i', n);
      CompactOrder('i', l, m);
      CompactOrder('i', m, n);
      CompactOrder('i', l, n);
    }
  }

  lemma {:induction false} RefLine(s: seq<string>)
    requires forall r :: r in s ==> Local(r)
    ensures Linear(s, RefLess)
  {
    forall a, b | a in s && b in s
      ensures (RefLess(a, b) ==> a != b && !RefLess(b, a)) && (a == b || RefLess(a, b) || RefLess(b, a))
    {
      LocalLess(a, b);
    }
    forall a, b, c | a in s && b in s && c in s && RefLess(a, b) && RefLess(b, c) ensures RefLess(a, c) {
      LocalOn(a, b, c);
    }
  }

  function OmissionKey(o: Omission): seq<string> {
    [o.importerPackagePath, o.packagePath, o.reason]
  }

  lemma {:induction false} OmissionPair(o: Omission, p: Omission)
    requires Local(o.importerRef) && Local(p.importerRef)
    ensures OmissionLess(o, p) ==> o != p && !OmissionLess(p, o)
    ensures o == p || OmissionLess(o, p) || OmissionLess(p, o)
  {
    var a, b := OmissionKey(o), OmissionKey(p);
    FieldsTotal(a, b);
    LocalLess(o.importerRef, p.importerRef);
    if a == b { assert a[0] == b[0] && a[1] == b[1] && a[2] == b[2]; }
    else if FieldsLess(a, b) { FieldsOneWay(a, b); }
    else { FieldsOneWay(b, a); }
  }

  lemma {:induction false} OmissionOn(o: Omission, p: Omission, q: Omission)
    requires Local(o.importerRef) && Local(p.importerRef) && Local(q.importerRef) && OmissionLess(o, p)
             && OmissionLess(p, q)
    ensures OmissionLess(o, q)
  {
    var a, b, c := OmissionKey(o), OmissionKey(p), OmissionKey(q);
    if a == b == c {
      LocalOn(o.importerRef, p.importerRef, q.importerRef);
      LocalLess(o.importerRef, q.importerRef);
    } else if a != b && b != c {
      FieldsOn(a, b, c);
      FieldsOneWay(a, c);
    }
  }

  lemma {:induction false} OmissionLine(s: seq<Omission>)
    requires forall o :: o in s ==> Local(o.importerRef)
    ensures Linear(s, OmissionLess)
  {
    forall o, p | o in s && p in s
      ensures (OmissionLess(o, p) ==> o != p && !OmissionLess(p, o))
              && (o == p || OmissionLess(o, p) || OmissionLess(p, o))
    {
      OmissionPair(o, p);
    }
    forall o, p, q | o in s && p in s && q in s && OmissionLess(o, p) && OmissionLess(p, q) ensures OmissionLess(o, q) {
      OmissionOn(o, p, q);
    }
  }

  // ----- what parts say -----

  /** The importer goes by its own reference and by its identity. */
  predicate Names(x: Importer, ref: string) {
    ref != "" && (ref == x.ref || ref == Identity(x))
  }

  ghost predicate Known(importers: seq<Importer>, ref: string) {
    exists x :: x in importers && Names(x, ref)
  }

  /** The reference stands for the importer. */
  ghost predicate Refers(importers: seq<Importer>, ref: string, x: Importer) {
    exists y :: y in importers && Names(y, ref) && Bare(y) == x
  }

  ghost predicate Holds(importers: seq<Importer>, x: Importer) {
    exists y :: y in importers && Bare(y) == x
  }

  /** Some reference of the list stands for the importer. */
  ghost predicate Reaches(importers: seq<Importer>, refs: seq<string>, x: Importer) {
    exists r :: r in refs && Refers(importers, r, x)
  }

  /** The package is imported by the importer. */
  ghost predicate Uses(p: Parts, d: Dependency, x: Importer) {
    exists v :: v in p.values && Shape(v) == d && Reaches(p.importers, v.importerRefs, x)
  }

  /** The package is imported by the importer for the effect of importing it. */
  ghost predicate Effects(p: Parts, d: Dependency, x: Importer) {
    exists v :: v in p.values && Shape(v) == d && Reaches(p.importers, v.effectImporterRefs, x)
  }

  ghost predicate IsOmission(importers: seq<Importer>, q: Omission, o: Omission, x: Option<Importer>) {
    && q.(importerRef := "") == o
    && if q.importerRef == "" then x.None? else x.Some? && Refers(importers, q.importerRef, x.value)
  }

  /** An import left out, and who imports it where that is known. */
  ghost predicate Omits(p: Parts, o: Omission, x: Option<Importer>) {
    exists q :: q in p.omissions && IsOmission(p.importers, q, o, x)
  }

  ghost predicate SameContent(p: Parts, q: Parts) {
    && (forall x :: Holds(p.importers, x) <==> Holds(q.importers, x))
    && (forall d, x :: Uses(p, d, x) <==> Uses(q, d, x))
    && (forall d, x :: Effects(p, d, x) <==> Effects(q, d, x))
    && (forall o, x :: Omits(p, o, x) <==> Omits(q, o, x))
  }

  // ----- valid catalogs -----

  ghost predicate Numbered(importers: seq<Importer>) {
    forall k :: 0 <= k < |importers| ==> importers[k].ref == Compact('i', k + 1)
  }

  /** The reference is some row's. */
  ghost predicate Listed(importers: seq<Importer>, ref: string) {
    exists x :: x in importers && x.ref == ref
  }

  ghost predicate RefsFit(importers: seq<Importer>, d: Dependency) {
    && (forall r :: r in d.importerRefs ==> Listed(importers, r))
    && Ordered(d.importerRefs, RefLess)
    && (forall r :: r in d.effectImporterRefs ==> r in d.importerRefs)
    && Ordered(d.effectImporterRefs, RefLess)
  }

  ghost predicate OmissionFits(importers: seq<Importer>, o: Omission) {
    && OmissionPlain(o)
    && (o.importerRef != "" ==> exists x ::
          x in importers && x.ref == o.importerRef
          && x.packagePath == o.importerPackagePath)
  }

  /** How many imports the rows hold. */
  function Retained(values: seq<Dependency>): nat {
    if values == [] then 0 else Retained(values[..|values|-1]) + |values[|values|-1].importerRefs|
  }

  ghost predicate CoverageFits(c: Coverage, importers: seq<Importer>, values: seq<Dependency>) {
    && c.retained == Retained(values)
    && c.observed == c.retained + |c.omissions|
    && (c.state.Complete? <==> c.omissions == [])
    && (forall o :: o in c.omissions ==> OmissionFits(importers, o))
    && Ordered(c.omissions, OmissionLess)
  }

  ghost predicate Valid(c: Catalog) {
    && c.version == VERSION
    && Numbered(c.importers)
    && (forall x :: x in c.importers ==> ImporterFits(x))
    && Ordered(c.importers, ImporterLess)
    && (forall k :: 0 <= k < |c.dependencies| ==> c.dependencies[k].id == Compact('d', k + 1))
    && (forall d :: d in c.dependencies ==> ShapeFits(d) && RefsFit(c.importers, d))
    && Ordered(c.dependencies, DependencyLess)
    && CoverageFits(c.coverage, c.importers, c.dependencies)
  }

  /** No identity has two rows. */
  ghost predicate Distinct(c: Catalog) {
    && (forall j, k ::
          0 <= j < |c.importers| && 0 <= k < |c.importers|
          && Identity(c.importers[j]) == Identity(c.importers[k])
          ==> j == k)
    && (forall j, k ::
          0 <= j < |c.dependencies| && 0 <= k < |c.dependencies|
          && DependencyIdentity(c.dependencies[j]) == DependencyIdentity(c.dependencies[k])
          ==> j == k)
  }
}
