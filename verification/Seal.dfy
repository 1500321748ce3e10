/** Sealing a graph: every place gets a short id, and everything that refers to it follows
    (internal/atlas/atlas.go:1217-1391, 1627-1647). */
module Seal {
  import opened Ordering

  /** In the order of their names. */
  datatype Kind = Boundary | Directory | Document | Entity | File | SourceFact | Symbol

  function KindRank(k: Kind): nat {
    match k
    case Boundary => 0
    case Directory => 1
    case Document => 2
    case Entity => 3
    case File => 4
    case SourceFact => 5
    case Symbol => 6
  }

  function Prefix(k: Kind): char {
    match k
    case Directory => 'd'
    case File => 'f'
    case Symbol => 's'
    case Entity => 'y'
    case Document => 'm'
    case SourceFact => 'a'
    case Boundary => 'b'
  }

  /** `name` is a declaration's. What refers to places does so by an id or by a source key: `parent`,
      the lists `callers` and `callees`, and `related` for the references that keep their order. */
  datatype Place = Place(id: string, kind: Kind, path: string, line: nat, column: int, name: Option<string>,
                         parent: string, callers: seq<string>, callees: seq<string>, related: seq<string>)

  /** `evidence` is all else an edge carries. */
  datatype Edge = Edge(from: string, to: string, kind: string, evidence: string)

  datatype Graph = Graph(places: seq<Place>, edges: seq<Edge>, seeds: seq<string>, seedDecls: seq<string>)

  // ----- orders -----

  predicate SamePlace(a: Place, b: Place) {
    a.kind == b.kind && a.path == b.path && a.line == b.line && a.column == b.column
  }

  predicate Precedes(a: Place, b: Place) {
    if a.kind != b.kind then KindRank(a.kind) < KindRank(b.kind)
    else if a.path != b.path then Less(a.path, b.path)
    else if a.line != b.line then a.line < b.line
    else a.column < b.column
  }

  /** The order numbers are given in; only places that stand at the same place are told apart by
      their ids. */
  predicate Before(a: Place, b: Place) {
    if SamePlace(a, b) then Less(a.id, b.id) else Precedes(a, b)
  }

  lemma {:induction false} PrecedesOneWay(a: Place, b: Place)
    ensures !SamePlace(a, b) ==> Precedes(a, b) || Precedes(b, a)
    ensures Precedes(a, b) ==> !Precedes(b, a)
  {
    LessTotal(a.path, b.path);
    if Less(a.path, b.path) { LessAsymmetric(a.path, b.path); }
    if Less(b.path, a.path) { LessAsymmetric(b.path, a.path); }
  }

  lemma {:induction false} BeforeOneWay(a: Place, b: Place)
    ensures a.id != b.id ==> Before(a, b) || Before(b, a)
    ensures Before(a, b) ==> !Before(b, a)
  {
    PrecedesOneWay(a, b);
    LessTotal(a.id, b.id);
    if Less(a.id, b.id) { LessAsymmetric(a.id, b.id); }
  }

  lemma {:induction false} BeforeTransitive(a: Place, b: Place, c: Place)
    requires Before(a, b) && Before(b, c)
    ensures Before(a, c)
  {
    if Less(a.path, b.path) && Less(b.path, c.path) {
      LessTransitive(a.path, b.path, c.path);
      LessAsymmetric(a.path, c.path);
    }
    if Less(a.id, b.id) && Less(b.id, c.id) { LessTransitive(a.id, b.id, c.id); }
  }

  predicate Sign(s: string) {
    s != "" && (s[0] == '-' || s[0] == '+')
  }

  function Atoi(s: string): Option<int> {
    match Number(if Sign(s) then s[1..] else s)
    case None => None
    case Some(n) =>
      var v: int := n;
      Some(if Sign(s) && s[0] == '-' then -v else v)
  }

  /** Ids of one kind by number, others as text. */
  predicate PlaceIdLess(left: string, right: string) {
    if |left| < 2 || |right| < 2 || left[0] != right[0] then Less(left, right)
    else
      var l, r := Atoi(left[1..]), Atoi(right[1..]);
      if l.None? || r.None? then Less(left, right) else l.value < r.value
  }

  predicate PlaceLess(a: Place, b: Place) {
    PlaceIdLess(a.id, b.id)
  }

  predicate EdgeLess(a: Edge, b: Edge) {
    if a.from != b.from then PlaceIdLess(a.from, b.from)
    else if a.to != b.to then PlaceIdLess(a.to, b.to)
    else Less(a.kind, b.kind)
  }

  function Compact(k: Kind, n: nat): string {
    [Prefix(k)] + Decimal(n)
  }

  lemma {:induction false} DecimalDigits(n: nat)
    ensures '0' <= Decimal(n)[0] <= '9'
  {
    if n >= 10 { DecimalDigits(n / 10); }
  }

  lemma {:induction false} AtoiDecimal(n: nat)
    ensures Atoi(Decimal(n)) == Some(n)
  {
    DecimalDigits(n);
    NumberOfDecimal(n);
  }

  lemma {:induction false} CompactLess(a: Kind, m: nat, b: Kind, n: nat)
    ensures PlaceIdLess(Compact(a, m), Compact(b, n)) == if a == b then m < n else Prefix(a) < Prefix(b)
  {
    var x, y := Compact(a, m), Compact(b, n);
    assert x[1..] == Decimal(m) && y[1..] == Decimal(n);
    AtoiDecimal(m);
    AtoiDecimal(n);
  }

  lemma {:induction false} CompactDistinct(a: Kind, m: nat, b: Kind, n: nat)
    requires Compact(a, m) == Compact(b, n)
    ensures a == b && m == n
  {
    assert Compact(a, m)[1..] == Decimal(m) && Compact(b, n)[1..] == Decimal(n);
    assert Compact(a, m)[0] == Prefix(a) && Compact(b, n)[0] == Prefix(b);
    AtoiDecimal(m);
    AtoiDecimal(n);
  }

  // ----- numbering -----

  function Count(places: seq<Place>, k: Kind, n: nat): nat
    requires n <= |places|
  {
    if n == 0 then 0 else Count(places, k, n - 1) + if places[n-1].kind == k then 1 else 0
  }

  function NewId(places: seq<Place>, k: nat): string
    requires k < |places|
  {
    Compact(places[k].kind, Count(places, places[k].kind, k + 1))
  }

  lemma {:induction false} CountGrows(places: seq<Place>, k: Kind, m: nat, n: nat)
    requires m <= n <= |places|
    ensures Count(places, k, m) <= Count(places, k, n)
  {
    if m < n { CountGrows(places, k, m, n - 1); }
  }

  lemma {:induction false} CountsDiffer(places: seq<Place>, i: nat, j: nat)
    requires i < j < |places| && places[i].kind == places[j].kind
    ensures Count(places, places[i].kind, i + 1) < Count(places, places[j].kind, j + 1)
  {
    CountGrows(places, places[i].kind, i + 1, j);
  }

  lemma {:induction false} NewIdsDiffer(places: seq<Place>, i: nat, j: nat)
    requires i < |places| && j < |places| && NewId(places, i) == NewId(places, j)
    ensures i == j
  {
    CompactDistinct(places[i].kind, Count(places, places[i].kind, i + 1), places[j].kind,
      Count(places, places[j].kind, j + 1));
    if i < j { CountsDiffer(places, i, j); } else if j < i { CountsDiffer(places, j, i); }
  }

  /** The key construction helpers know a place by. */
  function SourceKey(p: Place): Option<string> {
    match p.kind
    case Directory => Some("dir:" + Clean(p.path))
    case File => Some("file:" + Clean(p.path))
    case Symbol => if p.name.Some? then Some("sym:" + Clean(p.path) + ":" + Decimal(p.line) + ":" + p.name.value)
      else None
    case _ => None
  }

  function Clean(path: string): string {
    var p := if |path| >= 2 && path[..2] == "./" then path[2..] else path;
    if p == "" then "." else p
  }

  function Own(places: seq<Place>, n: nat): map<string, string>
    requires n <= |places|
  {
    if n == 0 then map[] else Own(places, n - 1)[places[n-1].id := NewId(places, n - 1)]
  }

  /** Source keys then name what the place's id names by now. */
  function Keyed(places: seq<Place>, n: nat): (m: map<string, string>)
    requires n <= |places|
    ensures forall k :: 0 <= k < |places| ==> places[k].id in m
  {
    if n == 0 then OwnNames(places, |places|); Own(places, |places|)
    else
      var before := Keyed(places, n - 1);
      var key := SourceKey(places[n-1]);
      if key.Some? then before[key.value := before[places[n-1].id]] else before
  }

  lemma {:induction false} OwnNames(places: seq<Place>, n: nat)
    requires n <= |places|
    ensures forall k :: 0 <= k < n ==> places[k].id in Own(places, n)
  {
    if n > 0 { OwnNames(places, n - 1); }
  }

  function Remap(places: seq<Place>): map<string, string> {
    Keyed(places, |places|)
  }

  function MapId(remap: map<string, string>, id: string): string {
    if id != "" && id in remap then remap[id] else id
  }

  function MapIds(remap: map<string, string>, ids: seq<string>): (r: seq<string>)
    ensures |r| == |ids| && forall k :: 0 <= k < |ids| ==> r[k] == MapId(remap, ids[k])
  {
    if ids == [] then [] else MapIds(remap, ids[..|ids|-1]) + [MapId(remap, ids[|ids|-1])]
  }

  function Renamed(remap: map<string, string>, p: Place): Place {
    p.(id := MapId(remap, p.id), parent := MapId(remap, p.parent),
       callers := SortedIds(remap, p.callers), callees := SortedIds(remap, p.callees), related :=
         MapIds(remap, p.related))
  }

  function SortedIds(remap: map<string, string>, ids: seq<string>): seq<string> {
    Sorted(MapIds(remap, ids), PlaceIdLess)
  }

  function RenamedEdge(remap: map<string, string>, e: Edge): Edge {
    e.(from := MapId(remap, e.from), to := MapId(remap, e.to))
  }

  function RenamedAll(remap: map<string, string>, places: seq<Place>): (r: seq<Place>)
    ensures |r| == |places|
    ensures forall k :: 0 <= k < |places| ==> r[k] == Renamed(remap, places[k])
  {
    if places == [] then [] else RenamedAll(remap, places[..|places|-1]) + [Renamed(remap, places[|places|-1])]
  }

  function RenamedEdges(remap: map<string, string>, edges: seq<Edge>): (r: seq<Edge>)
    ensures |r| == |edges|
    ensures forall k :: 0 <= k < |edges| ==> r[k] == RenamedEdge(remap, edges[k])
  {
    if edges == [] then [] else RenamedEdges(remap, edges[..|edges|-1]) + [RenamedEdge(remap, edges[|edges|-1])]
  }

  datatype Result = Nameless | Duplicate(id: string) | Sealed(graph: Graph)

  predicate HasId(places: seq<Place>, n: nat, id: string)
    requires n <= |places|
  {
    exists k :: 0 <= k < n && places[k].id == id
  }

  /** The first place without an id, or with an earlier one's. */
  function Fault(places: seq<Place>, n: nat): Option<Result>
    requires n <= |places|
  {
    if n == 0 then None
    else
      var before := Fault(places, n - 1);
      if before.Some? then before
      else if places[n-1].id == "" then Some(Nameless)
      else if HasId(places, n - 1, places[n-1].id) then Some(Duplicate(places[n-1].id))
      else None
  }

  function Numbered(g: Graph): seq<Place> {
    Sorted(g.places, Before)
  }

  function SealOf(g: Graph): Result {
    var places := Numbered(g);
    var fault := Fault(places, |places|);
    if fault.Some? then fault.value
    else
      var remap := Remap(places);
      Sealed(Graph(Sorted(RenamedAll(remap, places), PlaceLess), Sorted(RenamedEdges(remap, g.edges), EdgeLess),
                   SortedIds(remap, g.seeds), SortedIds(remap, g.seedDecls)))
  }

  // ----- the renaming -----

  ghost predicate Distinct(places: seq<Place>) {
    forall i, j :: 0 <= i < j < |places| ==> places[i].id != places[j].id
  }

  /** No place is known by another's id. */
  ghost predicate Unambiguous(places: seq<Place>) {
    forall i, j :: 0 <= i < |places| && 0 <= j < |places| && SourceKey(places[i]) == Some(places[j].id) ==> i == j
  }

  lemma {:induction false} OwnIs(places: seq<Place>, n: nat, k: nat)
    requires Distinct(places) && k < n <= |places|
    ensures places[k].id in Own(places, n) && Own(places, n)[places[k].id] == NewId(places, k)
  {
    if k < n - 1 { OwnIs(places, n - 1, k); }
  }

  /** From where no place is known by another's id on, ids keep what they name. */
  lemma {:induction false} KeyedKeeps(places: seq<Place>, m: nat, n: nat, k: nat)
    requires Distinct(places) && m <= n <= |places| && k < |places|
    requires forall t, u :: m <= t < n && 0 <= u < |places| && SourceKey(places[t]) == Some(places[u].id) ==> t == u
    ensures Keyed(places, n)[places[k].id] == Keyed(places, m)[places[k].id]
  {
    if m < n {
      KeyedKeeps(places, m, n - 1, k);
      if SourceKey(places[n-1]) == Some(places[k].id) { assert n - 1 == k; }
    }
  }

  /** Every place then gets its own number. */
  lemma {:induction false} OwnNumbers(places: seq<Place>, k: nat)
    requires Distinct(places) && Unambiguous(places) && k < |places|
    ensures Remap(places)[places[k].id] == NewId(places, k)
  {
    KeyedKeeps(places, 0, |places|, k);
    OwnIs(places, |places|, k);
  }

  lemma {:induction false} LastClash(places: seq<Place>, n: nat) returns (t: nat, u: nat)
    requires n <= |places|
    requires exists i, j :: 0 <= i < n && 0 <= j < |places| && SourceKey(places[i]) == Some(places[j].id) && i != j
    ensures t < n && u < |places| && t != u && SourceKey(places[t]) == Some(places[u].id)
    ensures forall i, j :: t < i < n && 0 <= j < |places| && SourceKey(places[i]) == Some(places[j].id) ==> i == j
  {
    if j :| 0 <= j < |places| && SourceKey(places[n-1]) == Some(places[j].id) && n - 1 != j { t, u := n - 1, j; }
    else { t, u := LastClash(places, n - 1); }
  }

  /** The renaming tells any two places apart exactly when no place is known by another's id. */
  lemma {:induction false} RenamingInjective(places: seq<Place>)
    requires Distinct(places)
    ensures Unambiguous(places) <==> forall i, j :: 0 <= i < j < |places| ==>
            Remap(places)[places[i].id] != Remap(places)[places[j].id]
  {
    if Unambiguous(places) {
      forall i, j | 0 <= i < j < |places| ensures Remap(places)[places[i].id] != Remap(places)[places[j].id] {
        OwnNumbers(places, i);
        OwnNumbers(places, j);
        if NewId(places, i) == NewId(places, j) { NewIdsDiffer(places, i, j); }
      }
    } else {
      var t, u := LastClash(places, |places|);
      KeyedKeeps(places, t + 1, |places|, t);
      KeyedKeeps(places, t + 1, |places|, u);
      assert places[t].id != places[u].id;
      assert Keyed(places, t + 1)[places[u].id] == Keyed(places, t + 1)[places[t].id];
      assert Remap(places)[places[if t < u then t else u].id] == Remap(places)[places[if t < u then u else t].id];
    }
  }

  // ----- what sealing gives -----

  /** Construction ids are given and distinct, and no place is known by another's. */
  ghost predicate Sealable(g: Graph) {
    Distinct(g.places) && Unambiguous(g.places) && forall k :: 0 <= k < |g.places| ==> g.places[k].id != ""
  }

  lemma {:induction false} BeforeTotal(places: seq<Place>)
    requires Distinct(places)
    ensures Total(places, Before)
  {
    forall i, j | 0 <= i < j < |places| ensures Before(places[i], places[j]) || Before(places[j], places[i]) {
      BeforeOneWay(places[i], places[j]);
    }
    forall x, y, z | x in places && y in places && z in places && Before(x, y) && Before(y, z) ensures Before(x, z) {
      BeforeTransitive(x, y, z);
    }
  }

  lemma {:induction false} SameIndex(places: seq<Place>, i: nat, j: nat)
    requires Distinct(places) && i < |places| && j < |places| && places[i].id == places[j].id
    ensures i == j
  {
  }

  /** Of a list without repetitions every permutation is one. */
  lemma {:induction false} DistinctSame(a: seq<Place>, b: seq<Place>)
    requires Distinct(a) && multiset(a) == multiset(b)
    ensures Distinct(b)
  {
    KeptMembers(a, b);
    forall i, j | 0 <= i < j < |b| ensures b[i].id != b[j].id {
      if b[i] == b[j] { Twice(b, i, j); Once(a, b[i]); }
      else {
        assert b[i] in a && b[j] in a;
        var x :| 0 <= x < |a| && a[x] == b[i];
        var y :| 0 <= y < |a| && a[y] == b[j];
      }
    }
  }

  lemma {:induction false} Twice(s: seq<Place>, i: nat, j: nat)
    requires i < j < |s| && s[i] == s[j]
    ensures multiset(s)[s[i]] >= 2
  {
    assert s == s[..j] + s[j..];
    assert s[i] in s[..j] && s[j] in s[j..];
  }

  lemma {:induction false} Once(s: seq<Place>, p: Place)
    requires Distinct(s)
    ensures multiset(s)[p] <= 1
  {
    if s != [] {
      Once(s[1..], p);
      assert s == [s[0]] + s[1..];
      if s[0] == p { assert p !in s[1..]; }
    }
  }

  lemma {:induction false} UnambiguousSame(a: seq<Place>, b: seq<Place>)
    requires Distinct(a) && Unambiguous(a) && multiset(a) == multiset(b)
    ensures Unambiguous(b)
  {
    KeptMembers(a, b);
    DistinctSame(a, b);
    forall i, j | 0 <= i < |b| && 0 <= j < |b| && SourceKey(b[i]) == Some(b[j].id) ensures i == j {
      assert b[i] in a && b[j] in a;
      var x :| 0 <= x < |a| && a[x] == b[i];
      var y :| 0 <= y < |a| && a[y] == b[j];
      assert x == y;
      SameIndex(b, i, j);
    }
  }

  lemma {:induction false} NoFault(places: seq<Place>, n: nat)
    requires Distinct(places) && n <= |places| && forall k :: 0 <= k < |places| ==> places[k].id != ""
    ensures Fault(places, n) == None
  {
    if n > 0 { NoFault(places, n - 1); }
  }

  /** The places in the order they are numbered in. */
  lemma {:induction false} NumberedWell(g: Graph)
    requires Sealable(g)
    ensures var s := Numbered(g);
            && multiset(s) == multiset(g.places) && Distinct(s) && Unambiguous(s) && Ordered(s, Before)
            && (forall k :: 0 <= k < |s| ==> s[k].id != "") && Fault(s, |s|) == None
  {
    var s := Numbered(g);
    SortedKeeps(g.places, Before);
    BeforeTotal(g.places);
    SortedOrders(g.places, Before);
    DistinctSame(g.places, s);
    UnambiguousSame(g.places, s);
    KeptMembers(g.places, s);
    forall k | 0 <= k < |s| ensures s[k].id != "" { assert s[k] in g.places; }
    NoFault(s, |s|);
  }

  /** The places with their new ids, before they are put in the order of those. */
  function Renumbered(g: Graph): seq<Place> {
    RenamedAll(Remap(Numbered(g)), Numbered(g))
  }

  lemma {:induction false} RenumberedIs(g: Graph, k: nat)
    requires Sealable(g) && k < |Numbered(g)|
    ensures var s, r := Numbered(g), Renumbered(g);
            && r[k].id == NewId(s, k) == NewId(r, k) && SamePlace(r[k], s[k]) && r[k].name == s[k].name
  {
    var s, r := Numbered(g), Renumbered(g);
    NumberedWell(g);
    OwnNumbers(s, k);
    CountSame(s, r, s[k].kind, k + 1);
  }

  lemma {:induction false} CountSame(a: seq<Place>, b: seq<Place>, kind: Kind, n: nat)
    requires |a| == |b| && n <= |a| && forall k :: 0 <= k < |a| ==> a[k].kind == b[k].kind
    ensures Count(a, kind, n) == Count(b, kind, n)
  {
    if n > 0 { CountSame(a, b, kind, n - 1); }
  }

  predicate ValidPlaceId(id: string, k: Kind) {
    && |id| > 1 && id[0] == Prefix(k)
    && var n := Atoi(id[1..]); n.Some? && n.value > 0 && id == Compact(k, n.value)
  }

  lemma {:induction false} NewIdValid(places: seq<Place>, k: nat)
    requires k < |places|
    ensures ValidPlaceId(NewId(places, k), places[k].kind)
  {
    var n := Count(places, places[k].kind, k + 1);
    assert Compact(places[k].kind, n)[1..] == Decimal(n);
    AtoiDecimal(n);
  }

  function Ordinal(places: seq<Place>, k: nat): nat
    requires k < |places|
  {
    Count(places, places[k].kind, k + 1)
  }

  /** The places of a graph have the ids numbering them gives. */
  ghost predicate KeepsIds(s: seq<Place>) {
    forall k :: 0 <= k < |s| ==> s[k].id == NewId(s, k)
  }

  lemma {:induction false} KeptCompare(r: seq<Place>, i: nat, j: nat)
    requires KeepsIds(r) && i < |r| && j < |r|
    ensures PlaceLess(r[i], r[j]) == if r[i].kind == r[j].kind then Ordinal(r, i) < Ordinal(r, j)
            else Prefix(r[i].kind) < Prefix(r[j].kind)
  {
    CompactLess(r[i].kind, Ordinal(r, i), r[j].kind, Ordinal(r, j));
  }

  lemma {:induction false} KeptDiffer(r: seq<Place>, i: nat, j: nat)
    requires KeepsIds(r) && i < j < |r|
    ensures r[i].id != r[j].id && (PlaceLess(r[i], r[j]) || PlaceLess(r[j], r[i]))
  {
    if r[i].id == r[j].id { NewIdsDiffer(r, i, j); }
    if r[i].kind == r[j].kind { CountsDiffer(r, i, j); }
    KeptCompare(r, i, j);
    KeptCompare(r, j, i);
  }

  lemma {:induction false} KeptTransitive(r: seq<Place>, i: nat, j: nat, k: nat)
    requires KeepsIds(r) && i < |r| && j < |r| && k < |r| && PlaceLess(r[i], r[j]) && PlaceLess(r[j], r[k])
    ensures PlaceLess(r[i], r[k])
  {
    KeptCompare(r, i, j);
    KeptCompare(r, j, k);
    KeptCompare(r, i, k);
  }

  /** New ids order places one way. */
  lemma {:induction false} KeptTotal(r: seq<Place>)
    requires KeepsIds(r)
    ensures Total(r, PlaceLess) && Distinct(r)
  {
    forall i, j | 0 <= i < j < |r| ensures r[i].id != r[j].id && (PlaceLess(r[i], r[j]) || PlaceLess(r[j], r[i])) {
      KeptDiffer(r, i, j);
    }
    forall x, y, z | x in r && y in r && z in r && PlaceLess(x, y) && PlaceLess(y, z) ensures PlaceLess(x, z) {
      var i :| 0 <= i < |r| && r[i] == x;
      var j :| 0 <= j < |r| && r[j] == y;
      var k :| 0 <= k < |r| && r[k] == z;
      KeptTransitive(r, i, j, k);
    }
  }

  lemma {:induction false} RenumberedKeeps(g: Graph)
    requires Sealable(g)
    ensures KeepsIds(Renumbered(g))
  {
    forall k | 0 <= k < |Renumbered(g)| ensures Renumbered(g)[k].id == NewId(Renumbered(g), k) { RenumberedIs(g, k); }
  }

  lemma {:induction false} SealsTo(g: Graph)
    requires Sealable(g)
    ensures var r, remap := SealOf(g), Remap(Numbered(g));
            && r.Sealed? && r.graph.places == Sorted(Renumbered(g), PlaceLess)
            && r.graph.edges == Sorted(RenamedEdges(remap, g.edges), EdgeLess)
            && r.graph.seeds == SortedIds(remap, g.seeds) && r.graph.seedDecls == SortedIds(remap, g.seedDecls)
  {
    NumberedWell(g);
  }

  lemma {:induction false} RenumberedValid(g: Graph, p: Place)
    requires Sealable(g) && p in Renumbered(g)
    ensures ValidPlaceId(p.id, p.kind)
  {
    var j :| 0 <= j < |Renumbered(g)| && Renumbered(g)[j] == p;
    RenumberedIs(g, j);
    NewIdValid(Renumbered(g), j);
  }

  lemma {:induction false} PlacesInOrder(g: Graph, places: seq<Place>)
    requires Sealable(g) && places == Sorted(Renumbered(g), PlaceLess)
    ensures Ordered(places, PlaceLess) && Distinct(places) && |places| == |g.places|
    ensures forall k :: 0 <= k < |places| ==> ValidPlaceId(places[k].id, places[k].kind)
  {
    var r := Renumbered(g);
    NumberedWell(g);
    RenumberedKeeps(g);
    KeptTotal(r);
    SortedOrders(r, PlaceLess);
    SortedKeeps(r, PlaceLess);
    KeptMembers(places, r);
    KeptMembers(Numbered(g), g.places);
    DistinctSame(r, places);
    forall k | 0 <= k < |places| ensures ValidPlaceId(places[k].id, places[k].kind) {
      assert places[k] in r;
      RenumberedValid(g, places[k]);
    }
  }

  /** A sealed graph's places stand in the order of their ids, each distinct and valid for its
      kind. */
  lemma {:induction false} SealedInOrder(g: Graph)
    requires Sealable(g)
    ensures SealOf(g).Sealed?
    ensures var places := SealOf(g).graph.places;
            && Ordered(places, PlaceLess) && Distinct(places) && |places| == |g.places|
            && (forall k :: 0 <= k < |places| ==> ValidPlaceId(places[k].id, places[k].kind))
  {
    SealsTo(g);
    PlacesInOrder(g, SealOf(g).graph.places);
  }
}
