/** What the fields of a catalog's rows may be, and in which order the rows stand, said field by field
    (internal/dependencies/catalog.go:362-468, 538-650). */
module CatalogShapes {
  import opened Ordering
  import opened Canon
  import opened Characters
  import opened Texts
  import opened Catalog

  // ----- texts -----

  const SPACES := {9, 10, 11, 12, 13, 0x20, 0x85, 0xA0, 0x1680, 0x2000, 0x2001, 0x2002, 0x2003, 0x2004, 0x2005, 0x2006,
    0x2007, 0x2008, 0x2009, 0x200A, 0x2028, 0x2029, 0x202F, 0x205F, 0x3000}

  /** What is left of a text without the white space around it. */
  function Trimmed(s: string): string
    decreases |s|
  {
    if s != "" && s[0] as int in SPACES then Trimmed(s[1..])
    else if s != "" && s[|s|-1] as int in SPACES then Trimmed(s[..|s|-1])
    else s
  }

  lemma {:induction false} TrimmedShorter(s: string)
    ensures |Trimmed(s)| <= |s|
    decreases |s|
  {
    if s != "" && s[0] as int in SPACES { TrimmedShorter(s[1..]); }
    else if s != "" && s[|s|-1] as int in SPACES { TrimmedShorter(s[..|s|-1]); }
  }

  lemma {:induction false} SpaceExactly(c: char)
    ensures IsSpace(c) <==> c as int in SPACES
  {
  }

  /** A plain text is one that trimming leaves as it is, not empty and on one line. */
  lemma {:induction false} PlainExactly(s: string)
    ensures Plain(s) <==> s != "" && Trimmed(s) == s && forall c :: c in s ==> c as int !in {0, 10, 13}
  {
    if s != "" {
      SpaceExactly(s[0]);
      SpaceExactly(s[|s|-1]);
      if s[0] as int in SPACES { TrimmedShorter(s[1..]); }
      else if s[|s|-1] as int in SPACES { TrimmedShorter(s[..|s|-1]); }
    }
  }

  /** `s[a..b]` is one of the parts the slashes of a path make. */
  predicate IsPart(s: string, a: int, b: int) {
    && 0 <= a <= b <= |s| && (a == 0 || s[a-1] == '/') && (b == |s| || s[b] == '/')
    && '/' !in s[a..b]
  }

  lemma {:induction false} BeforeFirst(s: string)
    ensures var k := Before(s, '/'); '/' !in s[..k] && (k == |s| || s[k] == '/')
  {
    if s != "" && s[0] != '/' {
      BeforeFirst(s[1..]);
      var k := Before(s, '/');
      assert s[..k] == [s[0]] + s[1..][..k-1];
    }
  }

  lemma {:induction false} FirstPart(s: string, b: nat)
    ensures IsPart(s, 0, b) <==> b == Before(s, '/')
  {
    var k := Before(s, '/');
    BeforeFirst(s);
    assert s[0..k] == s[..k];
    if b <= |s| {
      if b < k { assert s[b] in s[..k]; }
      if k < b { assert s[0..b][k] == s[k]; }
    }
  }

  lemma {:induction false} Slices(s: string, k: nat, rest: string, a: nat, b: nat)
    requires k < |s| && rest == s[k+1..] && k < a <= b <= |s|
    ensures rest[a-k-1..b-k-1] == s[a..b]
  {
    forall j | 0 <= j < b - a ensures rest[a-k-1..b-k-1][j] == s[a..b][j] {}
  }

  lemma {:induction false} LaterPart(s: string, a: nat, b: nat)
    requires a > 0
    ensures var k := Before(s, '/');
            IsPart(s, a, b) <==> k < a && k < b && k < |s| && IsPart(s[k+1..], a - k - 1, b - k - 1)
  {
    var k := Before(s, '/');
    BeforeFirst(s);
    if a <= b <= |s| {
      if a <= k { assert s[a-1] in s[..k]; }
      else if k < |s| { Slices(s, k, s[k+1..], a, b); }
    }
  }

  /** No part of the path is empty or leads up. */
  ghost predicate PartsWell(s: string) {
    forall a, b :: IsPart(s, a, b) ==> s[a..b] != "" && s[a..b] != ".."
  }

  lemma {:induction false} RestPart(s: string, k: nat, rest: string, a: nat, b: nat)
    requires PartsWell(s) && k == Before(s, '/') && k < |s| && rest == s[k+1..] && IsPart(rest, a, b)
    ensures rest[a..b] != "" && rest[a..b] != ".."
  {
    LaterPart(s, a + k + 1, b + k + 1);
    Slices(s, k, rest, a + k + 1, b + k + 1);
    assert IsPart(s, a + k + 1, b + k + 1);
  }

  lemma {:induction false} RestWell(s: string, k: nat, rest: string)
    requires PartsWell(s) && k == Before(s, '/') && k < |s| && rest == s[k+1..]
    ensures PartsWell(rest)
  {
    forall a, b | IsPart(rest, a, b) ensures rest[a..b] != "" && rest[a..b] != ".." { RestPart(s, k, rest, a, b); }
  }

  lemma {:induction false} PartsExactly(s: string)
    ensures PartsFit(s) <==> PartsWell(s)
    decreases |s|
  {
    var k := Before(s, '/');
    FirstPart(s, k);
    assert s[0..k] == s[..k];
    if k < |s| { PartsExactly(s[k+1..]); }
    if PartsFit(s) {
      forall a, b | IsPart(s, a, b) ensures s[a..b] != "" && s[a..b] != ".." { PartFits(s, a, b); }
    }
    if PartsWell(s) && k < |s| { RestWell(s, k, s[k+1..]); }
  }

  lemma {:induction false} PartFits(s: string, a: nat, b: nat)
    requires PartsFit(s) && IsPart(s, a, b)
    requires Before(s, '/') < |s| ==> PartsWell(s[Before(s, '/')+1..])
    ensures s[a..b] != "" && s[a..b] != ".."
  {
    var k := Before(s, '/');
    if a == 0 {
      FirstPart(s, b);
      assert s[0..k] == s[..k];
    } else {
      LaterPart(s, a, b);
      Slices(s, k, s[k+1..], a, b);
    }
  }

  /** A repository path leads nowhere but down: it is plain, has no backslash, does not begin at the root
      or above the repository, and no part of it is empty or leads up. */
  lemma {:induction false} PathExactly(s: string)
    ensures RepositoryPath(s) <==>
            && Plain(s) && '\\' !in s && PartsWell(s)
            && s[0] != '/' && s != ".." && !(|s| > 2 && s[..3] == "../")
  {
    PartsExactly(s);
    if s != "" {
      var k := Before(s, '/');
      FirstPart(s, k);
      assert s[0..k] == s[..k];
      if |s| > 2 && s[..3] == "../" { StartsUp(s); }
    }
  }

  lemma {:induction false} StartsUp(s: string)
    requires |s| > 2 && s[..3] == "../"
    ensures Before(s, '/') == 2 && s[..2] == ".."
  {
    assert s[0] == s[..3][0] && s[1] == s[..3][1] && s[2] == s[..3][2];
    assert s[1..][1..][0] == '/' && Before(s[1..][1..], '/') == 0;
    assert Before(s[1..], '/') == 1;
    assert s[..2] == [s[0], s[1]];
  }

  // ----- the fields of the rows -----

  datatype Field = LanguageField | NameField | ModulePathField | ModuleVersionField | PackagePathField | RepositoryField

  datatype Demand = Nothing | Text | TextOrNothing | Path | PathOrNothing

  predicate Meets(s: string, demand: Demand) {
    match demand
    case Nothing => s == ""
    case Text => Plain(s)
    case TextOrNothing => s == "" || Plain(s)
    case Path => RepositoryPath(s)
    case PathOrNothing => s == "" || RepositoryPath(s)
  }

  const KINDS := {"workspace", "stdlib", "external"}

  function FieldOf(d: Dependency, field: Field): string {
    match field
    case LanguageField => d.language
    case NameField => d.name
    case ModulePathField => d.modulePath
    case ModuleVersionField => d.moduleVersion
    case PackagePathField => d.packagePath
    case RepositoryField => d.repositoryPath
  }

  /** What a dependency's field has to be, by its kind. */
  function Demanded(kind: string, field: Field): Demand {
    match field
    case ModulePathField => if kind == "stdlib" then Nothing else Text
    case ModuleVersionField => if kind == "external" then TextOrNothing else Nothing
    case RepositoryField => if kind == "workspace" then Path else Nothing
    case _ => Text
  }

  /** Only an external dependency is replaced: by a module, or by a place in the repository or outside. */
  predicate ReplacedWell(d: Dependency) {
    match d.replacement
    case None => true
    case Some(r) =>
      && d.kind == "external"
      && Meets(r.modulePath, if r.local then Nothing else Text)
      && Meets(r.moduleVersion, if r.local then Nothing else TextOrNothing)
      && Meets(r.repositoryPath, if r.local then PathOrNothing else Nothing)
  }

  ghost predicate MeetsAll(d: Dependency) {
    forall field :: Meets(FieldOf(d, field), Demanded(d.kind, field))
  }

  /** A dependency's fields fit when each is what its kind demands. */
  lemma {:induction false} RowExactly(d: Dependency)
    ensures FieldsFit(d) <==> d.kind in KINDS && MeetsAll(d) && ReplacedWell(d)
    ensures ShapeFits(d) <==> d.kind in KINDS && MeetsAll(d) && ReplacedWell(d) && d.importerRefs != []
  {
    if MeetsAll(d) {
      assert Meets(FieldOf(d, LanguageField), Text) && Meets(FieldOf(d, NameField), Text);
      assert Meets(FieldOf(d, PackagePathField), Text);
      assert Meets(FieldOf(d, ModulePathField), Demanded(d.kind, ModulePathField));
      assert Meets(FieldOf(d, ModuleVersionField), Demanded(d.kind, ModuleVersionField));
      assert Meets(FieldOf(d, RepositoryField), Demanded(d.kind, RepositoryField));
    }
    if FieldsFit(d) {
      forall field ensures Meets(FieldOf(d, field), Demanded(d.kind, field)) {
        match field
        case LanguageField =>
        case NameField =>
        case ModulePathField =>
        case ModuleVersionField =>
        case PackagePathField =>
        case RepositoryField =>
      }
    }
  }

  /** An importer has every field, the last a path in the repository. */
  lemma {:induction false} ImporterExactly(x: Importer)
    ensures ImporterFits(x) <==>
            && Meets(x.language, Text) && Meets(x.name, Text) && Meets(x.modulePath, Text) && Meets(x.packagePath, Text)
            && Meets(x.repositoryPath, Path)
  {
    PathExactly(x.repositoryPath);
  }

  const REASONS := {"importer_identity_unavailable", "dependency_metadata_missing", "dependency_load_unavailable",
    "dependency_identity_missing", "module_authority_missing"}

  /** An omission names a package and one of five reasons, and its importer unless that is the reason. */
  lemma {:induction false} OmissionExactly(o: Omission)
    ensures OmissionPlain(o) <==>
            && Meets(o.packagePath, Text) && Meets(o.importerPackagePath, TextOrNothing) && o.reason in REASONS
            && (o.importerRef != "" || o.reason == "importer_identity_unavailable")
  {
    PlainExactly(o.packagePath);
  }

  // ----- the order of the rows -----

  lemma {:induction false} FieldsStep(a: string, x: seq<string>, b: string, y: seq<string>)
    ensures FieldsLess([a] + x, [b] + y) == if a != b then Less(a, b) else FieldsLess(x, y)
  {
    assert ([a] + x)[1..] == x && ([b] + y)[1..] == y;
  }

  /** By repository path, then package path, language, module path, name and reference. */
  lemma {:induction false} ImporterOrder(x: Importer, y: Importer)
    ensures ImporterLess(x, y) <==>
            if x.repositoryPath != y.repositoryPath then Less(x.repositoryPath, y.repositoryPath)
            else if x.packagePath != y.packagePath then Less(x.packagePath, y.packagePath)
            else if x.language != y.language then Less(x.language, y.language)
            else if x.modulePath != y.modulePath then Less(x.modulePath, y.modulePath)
            else if x.name != y.name then Less(x.name, y.name)
            else x.ref != y.ref && Less(x.ref, y.ref)
  {
    var a5, b5 := [x.ref], [y.ref];
    var a4, b4 := [x.name] + a5, [y.name] + b5;
    var a3, b3 := [x.modulePath] + a4, [y.modulePath] + b4;
    var a2, b2 := [x.language] + a3, [y.language] + b3;
    var a1, b1 := [x.packagePath] + a2, [y.packagePath] + b2;
    assert ImporterKey(x) + [x.ref] == [x.repositoryPath] + a1 && ImporterKey(y) + [y.ref] == [y.repositoryPath] + b1;
    FieldsStep(x.repositoryPath, a1, y.repositoryPath, b1);
    FieldsStep(x.packagePath, a2, y.packagePath, b2);
    FieldsStep(x.language, a3, y.language, b3);
    FieldsStep(x.modulePath, a4, y.modulePath, b4);
    FieldsStep(x.name, a5, y.name, b5);
    FieldsStep(x.ref, [], y.ref, []);
    assert a5 == [x.ref] + [] && b5 == [y.ref] + [];
  }

  /** By package path, then module path, module version, repository path, language, name, replacement
      and id. */
  predicate KeysRise(d: Dependency, e: Dependency) {
    if d.packagePath != e.packagePath then Less(d.packagePath, e.packagePath)
    else if d.modulePath != e.modulePath then Less(d.modulePath, e.modulePath)
    else if d.moduleVersion != e.moduleVersion then Less(d.moduleVersion, e.moduleVersion)
    else if d.repositoryPath != e.repositoryPath then Less(d.repositoryPath, e.repositoryPath)
    else if d.language != e.language then Less(d.language, e.language)
    else if d.name != e.name then Less(d.name, e.name)
    else if ReplacementKey(d.replacement) != ReplacementKey(e.replacement)
      then Less(ReplacementKey(d.replacement), ReplacementKey(e.replacement))
    else d.id != e.id && Less(d.id, e.id)
  }

  lemma {:induction false} KeyOrder(d: Dependency, e: Dependency)
    ensures FieldsLess(DependencyKey(d) + [d.id], DependencyKey(e) + [e.id]) <==> KeysRise(d, e)
  {
    var k, l := ReplacementKey(d.replacement), ReplacementKey(e.replacement);
    var a7, b7 := [d.id] + [], [e.id] + [];
    var a6, b6 := [k] + a7, [l] + b7;
    var a5, b5 := [d.name] + a6, [e.name] + b6;
    var a4, b4 := [d.language] + a5, [e.language] + b5;
    var a3, b3 := [d.repositoryPath] + a4, [e.repositoryPath] + b4;
    var a2, b2 := [d.moduleVersion] + a3, [e.moduleVersion] + b3;
    var a1, b1 := [d.modulePath] + a2, [e.modulePath] + b2;
    assert DependencyKey(d) + [d.id] == [d.packagePath] + a1 && DependencyKey(e) + [e.id] == [e.packagePath] + b1;
    FieldsStep(d.packagePath, a1, e.packagePath, b1);
    FieldsStep(d.modulePath, a2, e.modulePath, b2);
    FieldsStep(d.moduleVersion, a3, e.moduleVersion, b3);
    FieldsStep(d.repositoryPath, a4, e.repositoryPath, b4);
    FieldsStep(d.language, a5, e.language, b5);
    FieldsStep(d.name, a6, e.name, b6);
    FieldsStep(k, a7, l, b7);
    FieldsStep(d.id, [], e.id, []);
  }

  /** Workspace packages first, then the standard library's, then external ones; of one kind by their
      keys. */
  lemma {:induction false} DependencyOrder(d: Dependency, e: Dependency)
    requires d.kind in KINDS && e.kind in KINDS
    ensures d.kind != e.kind ==>
            (DependencyLess(d, e) <==> d.kind == "workspace" || (d.kind == "stdlib" && e.kind == "external"))
    ensures d.kind == e.kind ==> (DependencyLess(d, e) <==> KeysRise(d, e))
  {
    KeyOrder(d, e);
  }

  /** A replacement is compared as its fields with a NUL between them. */
  lemma {:induction false} ReplacementText(r: Replacement)
    ensures ReplacementKey(Some(r)) ==
            r.modulePath + "\0" + r.moduleVersion + "\0" + (if r.local then "true" else "false") + "\0"
            + r.repositoryPath
  {
  }

  /** By the importer's package, the package, the reason, and references by number. */
  lemma {:induction false} OmissionOrder(o: Omission, p: Omission)
    ensures OmissionLess(o, p) <==>
            if o.importerPackagePath != p.importerPackagePath then Less(o.importerPackagePath, p.importerPackagePath)
            else if o.packagePath != p.packagePath then Less(o.packagePath, p.packagePath)
            else if o.reason != p.reason then Less(o.reason, p.reason)
            else o.importerRef != p.importerRef && CompactLess(o.importerRef, p.importerRef, 'i')
  {
    var a2, b2 := [o.reason] + [], [p.reason] + [];
    var a1, b1 := [o.packagePath] + a2, [p.packagePath] + b2;
    var a, b := OmissionKey(o), OmissionKey(p);
    assert a == [o.importerPackagePath] + a1 && b == [p.importerPackagePath] + b1;
    FieldsStep(o.importerPackagePath, a1, p.importerPackagePath, b1);
    FieldsStep(o.packagePath, a2, p.packagePath, b2);
    FieldsStep(o.reason, [], p.reason, []);
    if a == b { assert a[0] == b[0] && a[1] == b[1] && a[2] == b[2]; }
  }

  // ----- identities -----

  /** Importers have one identity exactly when they agree in all but name and reference. */
  lemma {:induction false} ImporterIdentity(x: Importer, y: Importer)
    ensures Identity(x) == Identity(y) <==> Bare(x) == Bare(y).(name := x.name)
  {
    if Identity(x) == Identity(y) { OneImporter(x, y); }
    if Bare(x) == Bare(y).(name := x.name) {
      assert x.language == Bare(x).language && x.modulePath == Bare(x).modulePath;
      assert x.packagePath == Bare(x).packagePath && x.repositoryPath == Bare(x).repositoryPath;
    }
  }

  /** Dependencies have one identity exactly when they agree in all but name, id and importers. */
  lemma {:induction false} SameDependency(d: Dependency, e: Dependency)
    ensures DependencyIdentity(d) == DependencyIdentity(e) <==> Shape(d) == Shape(e).(name := d.name)
  {
    if DependencyIdentity(d) == DependencyIdentity(e) { OneDependency(d, e); }
    if Shape(d) == Shape(e).(name := d.name) {
      assert d.language == Shape(d).language && d.kind == Shape(d).kind && d.modulePath == Shape(d).modulePath;
      assert d.moduleVersion == Shape(d).moduleVersion && d.packagePath == Shape(d).packagePath;
      assert d.repositoryPath == Shape(d).repositoryPath && d.replacement == Shape(d).replacement;
    }
  }
}
