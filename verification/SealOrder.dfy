/** The new ids on the fields of the places: which letter, which number and in which order
    (internal/atlas/atlas.go:1235-1275, 1798-1815), and the keys a place is known by
    (internal/atlas/atlas.go:1193-1211). */
module SealOrder {
  import opened Ordering
  import opened Seal
  import opened SealReferences

  // ----- the order of the numbers -----

  /** In the order of paths, of lines in a file, of columns on a line, and of construction ids at
      one place. */
  predicate ComesFirst(p: Place, q: Place) {
    || Less(p.path, q.path)
    || (p.path == q.path && p.line < q.line)
    || (p.path == q.path && p.line == q.line && p.column < q.column)
    || (p.path == q.path && p.line == q.line && p.column == q.column && Less(p.id, q.id))
  }

  lemma {:induction false} BeforeIs(p: Place, q: Place)
    requires p.kind == q.kind
    ensures Before(p, q) <==> ComesFirst(p, q)
  {
    if Less(p.path, q.path) { LessAsymmetric(p.path, q.path); }
  }

  lemma {:induction false} NumberLess(g: Graph, i: nat, j: nat)
    requires Sealable(g) && i < |Numbered(g)| && j < |Numbered(g)| && Numbered(g)[i].kind == Numbered(g)[j].kind
    ensures PlaceIdLess(NewId(Numbered(g), i), NewId(Numbered(g), j)) <==> i < j
  {
    var s := Numbered(g);
    CompactLess(s[i].kind, Ordinal(s, i), s[j].kind, Ordinal(s, j));
    if i < j { CountsDiffer(s, i, j); } else if j < i { CountsDiffer(s, j, i); }
  }

  /** The new ids of a kind are in the order of the source. */
  lemma {:induction false} NumbersFollowSource(g: Graph, p: Place, q: Place)
    requires Sealable(g) && p in g.places && q in g.places && p.kind == q.kind
    ensures PlaceIdLess(NewRef(g, p.id), NewRef(g, q.id)) <==> ComesFirst(p, q)
  {
    var s := Numbered(g);
    var i := PlaceAt(g, p);
    var j := PlaceAt(g, q);
    NumberedWell(g);
    NumberLess(g, i, j);
    BeforeIs(p, q);
    if i == j { BeforeOneWay(p, p); } else if j < i { BeforeOneWay(s[j], s[i]); }
  }

  // ----- the numbers themselves -----

  /** The places of one kind. */
  function OfKind(places: seq<Place>, kind: Kind): set<Place> {
    set p | p in places && p.kind == kind
  }

  lemma {:induction false} OneMore(a: seq<Place>, p: Place, kind: Kind)
    requires p !in a
    ensures |OfKind(a + [p], kind)| == |OfKind(a, kind)| + if p.kind == kind then 1 else 0
  {
    assert OfKind(a + [p], kind) == OfKind(a, kind) + if p.kind == kind then {p} else {};
  }

  lemma {:induction false} CountIsSize(s: seq<Place>, kind: Kind, n: nat)
    requires Distinct(s) && n <= |s|
    ensures Count(s, kind, n) == |OfKind(s[..n], kind)|
  {
    if n > 0 {
      CountIsSize(s, kind, n - 1);
      assert s[..n] == s[..n-1] + [s[n-1]];
      OneMore(s[..n-1], s[n-1], kind);
    }
  }

  predicate HasLetter(kind: Kind, id: string) {
    && id != ""
    && (kind.Directory? ==> id[0] == 'd') && (kind.File? ==> id[0] == 'f') && (kind.Symbol? ==> id[0] == 's')
    && (kind.Entity? ==> id[0] == 'y') && (kind.Document? ==> id[0] == 'm') && (kind.SourceFact? ==> id[0] == 'a')
    && (kind.Boundary? ==> id[0] == 'b')
  }

  /** The id has the kind's letter and the number `n`. */
  predicate IsNumbered(kind: Kind, n: nat, id: string) {
    HasLetter(kind, id) && id[1..] == Decimal(n)
  }

  lemma {:induction false} NewIdNumbered(s: seq<Place>, i: nat)
    requires i < |s|
    ensures IsNumbered(s[i].kind, Ordinal(s, i), NewId(s, i))
  {
    assert NewId(s, i)[1..] == Decimal(Ordinal(s, i));
  }

  lemma {:induction false} SameOfKind(g: Graph, kind: Kind)
    requires Sealable(g)
    ensures Count(Numbered(g), kind, |Numbered(g)|) == |OfKind(g.places, kind)|
  {
    var s := Numbered(g);
    NumberedWell(g);
    KeptMembers(s, g.places);
    CountIsSize(s, kind, |s|);
    assert s[..|s|] == s;
    assert OfKind(s, kind) == OfKind(g.places, kind);
  }

  /** The place's new id is one of the first `m` of its kind. */
  predicate IsGiven(g: Graph, p: Place, m: nat) {
    exists n: nat :: n <= m && n != 0 && IsNumbered(p.kind, n, NewRef(g, p.id))
  }

  /** Some place of the kind has the number. */
  predicate IsTaken(g: Graph, kind: Kind, n: nat) {
    exists p :: p in g.places && p.kind == kind && IsNumbered(kind, n, NewRef(g, p.id))
  }

  /** The places of a kind are numbered from 1 to their count: every place has one of these numbers
      behind the kind's letter, and every number is some place's. */
  lemma {:induction false} NumbersFill(g: Graph, kind: Kind)
    requires Sealable(g)
    ensures forall p :: p in g.places && p.kind == kind ==> IsGiven(g, p, |OfKind(g.places, kind)|)
    ensures forall n: nat :: n <= |OfKind(g.places, kind)| && n != 0 ==> IsTaken(g, kind, n)
  {
    var s := Numbered(g);
    SameOfKind(g, kind);
    forall p | p in g.places && p.kind == kind ensures IsGiven(g, p, |OfKind(g.places, kind)|) {
      var i := PlaceAt(g, p);
      NewIdNumbered(s, i);
      CountGrows(s, kind, i + 1, |s|);
    }
    forall n: nat | n <= |OfKind(g.places, kind)| && n != 0 ensures IsTaken(g, kind, n) {
      var i := NthOf(s, kind, n, |s|);
      NumberedIn(g, i);
      NewIdNumbered(s, i);
    }
  }

  // ----- the ids the check accepts -----

  lemma {:induction false} ValidNumbered(id: string, kind: Kind) returns (n: nat)
    requires ValidPlaceId(id, kind)
    ensures n != 0 && IsNumbered(kind, n, id)
  {
    n := Atoi(id[1..]).value;
    assert id == Compact(kind, n) && id[1..] == Decimal(n);
  }

  lemma {:induction false} NumberedValid(id: string, kind: Kind, n: nat)
    requires n != 0 && IsNumbered(kind, n, id)
    ensures ValidPlaceId(id, kind)
  {
    AtoiDecimal(n);
    assert id == [id[0]] + id[1..];
    assert id == Compact(kind, n);
  }

  /** An id is valid when it is the kind's letter and a positive number as it is written. */
  lemma {:induction false} ValidIdExactly(id: string, kind: Kind)
    ensures ValidPlaceId(id, kind) <==> exists n: nat :: n != 0 && IsNumbered(kind, n, id)
  {
    if ValidPlaceId(id, kind) { var n := ValidNumbered(id, kind); }
    else if n: nat :| n != 0 && IsNumbered(kind, n, id) { NumberedValid(id, kind, n); }
  }

  /** Ids of different letters are compared as texts, numbered ids of one kind by their numbers. */
  lemma {:induction false} IdOrder(left: string, right: string, kind: Kind, m: nat, n: nat)
    ensures left != "" && right != "" && left[0] != right[0] ==> (PlaceIdLess(left, right) <==> Less(left, right))
    ensures IsNumbered(kind, m, left) && IsNumbered(kind, n, right) ==> (PlaceIdLess(left, right) <==> m < n)
  {
    AtoiDecimal(m);
    AtoiDecimal(n);
  }

  /** Edges are in the order of where they start, where they end, and of their kinds. */
  lemma {:induction false} EdgeOrder(a: Edge, b: Edge)
    ensures EdgeLess(a, b) <==>
            || (a.from != b.from && PlaceIdLess(a.from, b.from))
            || (a.from == b.from && a.to != b.to && PlaceIdLess(a.to, b.to))
            || (a.from == b.from && a.to == b.to && Less(a.kind, b.kind))
  {
    if a.kind == b.kind && Less(a.kind, b.kind) { LessAsymmetric(a.kind, b.kind); }
  }

  // ----- the keys -----

  /** A path and how construction helpers write it. */
  predicate IsPathOf(path: string, written: string) {
    || (path == written && path != "" && !("./" <= path))
    || (path == "./" + written && written != "")
    || ((path == "" || path == "./") && written == ".")
  }

  lemma {:induction false} CleanIs(path: string, written: string)
    ensures IsPathOf(path, written) ==> Clean(path) == written
  {
    assert "./" <= path <==> |path| >= 2 && path[..2] == "./";
    if path == "./" + written { assert path[..2] == "./" && path[2..] == written; }
  }

  lemma {:induction false} KeyIs(p: Place, written: string)
    requires IsPathOf(p.path, written)
    ensures p.kind.Directory? ==> SourceKey(p) == Some("dir:" + written)
    ensures p.kind.File? ==> SourceKey(p) == Some("file:" + written)
    ensures p.kind.Symbol? && p.name.Some? ==>
            SourceKey(p) == Some("sym:" + written + ":" + Decimal(p.line) + ":" + p.name.value)
    ensures !p.kind.Directory? && !p.kind.File? && !(p.kind.Symbol? && p.name.Some?) ==> SourceKey(p) == None
  {
    CleanIs(p.path, written);
  }

  /** A reference written by the path names the directory or file, one written by path, line and
      name the declaration, unless a place numbered later is known by the same. */
  lemma {:induction false} KeysLead(g: Graph, p: Place, written: string)
    requires Sealable(g) && p in g.places && IsPathOf(p.path, written)
    ensures p.kind.Directory? && LastKnown(g, "dir:" + written, p) ==> NewRef(g, "dir:" + written) == NewRef(g, p.id)
    ensures p.kind.File? && LastKnown(g, "file:" + written, p) ==> NewRef(g, "file:" + written) == NewRef(g, p.id)
    ensures p.kind.Symbol? && p.name.Some? ==>
            var key := "sym:" + written + ":" + Decimal(p.line) + ":" + p.name.value;
            LastKnown(g, key, p) ==> NewRef(g, key) == NewRef(g, p.id)
  {
    KeyIs(p, written);
    match p.kind
    case Directory => SourceKeyFollows(g, p, "dir:" + written);
    case File => SourceKeyFollows(g, p, "file:" + written);
    case Symbol =>
      if p.name.Some? { SourceKeyFollows(g, p, "sym:" + written + ":" + Decimal(p.line) + ":" + p.name.value); }
    case _ =>
  }
}
