/** Checking the zones of a target as a forest (internal/atlas/zone_tree.go:5-41).  That ids are
    given and unique was checked before (internal/atlas/atlas.go:1927-1935). */
module ZoneTree {

  datatype Option<+T> = None | Some(value: T)

  /** `boxes` is how many boxes the zone names itself; no parent is written as an empty id. */
  datatype Zone = Zone(id: string, parent: string, boxes: nat)

  ghost predicate Unique(zones: seq<Zone>) {
    && (forall i, j :: 0 <= i < j < |zones| ==> zones[i].id != zones[j].id)
    && forall i :: 0 <= i < |zones| ==> zones[i].id != ""
  }

  // ----- parents -----

  datatype Step = At(k: nat) | Root | Unknown

  function Find(zones: seq<Zone>, id: string, n: nat): Option<nat>
    requires n <= |zones|
  {
    if n == 0 then None else if zones[n-1].id == id then Some(n - 1) else Find(zones, id, n - 1)
  }

  lemma {:induction false} FindIs(zones: seq<Zone>, id: string, n: nat, k: nat)
    requires Unique(zones) && k < n <= |zones| && zones[k].id == id
    ensures Find(zones, id, n) == Some(k)
  {
    if k < n - 1 { FindIs(zones, id, n - 1, k); }
  }

  lemma {:induction false} Found(zones: seq<Zone>, id: string, n: nat)
    requires n <= |zones|
    ensures Find(zones, id, n).Some? ==> Find(zones, id, n).value < n && zones[Find(zones, id, n).value].id == id
    ensures Find(zones, id, n).None? ==> forall k :: 0 <= k < n ==> zones[k].id != id
  {
    if n > 0 { Found(zones, id, n - 1); }
  }

  function Up(zones: seq<Zone>, k: nat): (s: Step)
    requires k < |zones|
    ensures s.At? ==> s.k < |zones|
  {
    if zones[k].parent == "" then Root
    else
      Found(zones, zones[k].parent, |zones|);
      match Find(zones, zones[k].parent, |zones|) case None => Unknown case Some(j) => At(j)
  }

  /** Where `n` steps up from a zone lead. */
  function Climb(zones: seq<Zone>, k: nat, n: nat): (s: Step)
    requires k < |zones|
    ensures s.At? ==> s.k < |zones|
  {
    if n == 0 then At(k)
    else
      var before := Climb(zones, k, n - 1);
      if before.At? then Up(zones, before.k) else before
  }

  ghost predicate Rooted(zones: seq<Zone>, k: nat)
    requires k < |zones|
  {
    exists n: nat :: Climb(zones, k, n) == Root
  }

  ghost predicate AllRooted(zones: seq<Zone>) {
    forall k :: 0 <= k < |zones| ==> Rooted(zones, k)
  }

  lemma {:induction false} ClimbOn(zones: seq<Zone>, k: nat, m: nat, n: nat)
    requires k < |zones|
    ensures Climb(zones, k, m + n) == if Climb(zones, k, m).At? then Climb(zones, Climb(zones, k, m).k, n)
            else Climb(zones, k, m)
  {
    if n > 0 { ClimbOn(zones, k, m, n - 1); }
  }

  /** Who comes back to a zone never comes to a root. */
  lemma {:induction false} CycleNeverEnds(zones: seq<Zone>, k: nat, m: nat, n: nat)
    requires k < |zones| && m > 0 && Climb(zones, k, m) == At(k)
    ensures !Climb(zones, k, n).Root?
    decreases n
  {
    if n >= m {
      ClimbOn(zones, k, m, n - m);
      CycleNeverEnds(zones, k, m, n - m);
    } else if Climb(zones, k, n).Root? {
      ClimbOn(zones, k, n, m - n);
    }
  }

  // ----- what is under a zone -----

  ghost predicate Under(zones: seq<Zone>, j: nat, k: nat) {
    j < |zones| && exists n: nat :: Climb(zones, j, n) == At(k)
  }

  predicate IsChild(zones: seq<Zone>, c: nat, k: nat) {
    c < |zones| && Up(zones, c) == At(k)
  }

  lemma {:induction false} UnderChild(zones: seq<Zone>, j: nat, c: nat, k: nat)
    requires IsChild(zones, c, k) && Under(zones, j, c)
    ensures Under(zones, j, k)
  {
    var n: nat :| Climb(zones, j, n) == At(c);
    assert Climb(zones, j, n + 1) == At(k);
  }

  /** Nothing is under two children, nor a zone under its own child. */
  lemma {:induction false} ChildrenApart(zones: seq<Zone>, j: nat, c: nat, d: nat, k: nat)
    requires k < |zones| && Rooted(zones, k) && IsChild(zones, c, k) && IsChild(zones, d, k) && Under(zones, j, c)
             && Under(zones, j, d)
    ensures c == d
  {
    var m: nat :| Climb(zones, j, m) == At(c);
    var n: nat :| Climb(zones, j, n) == At(d);
    if m < n { Apart(zones, j, c, d, k, m, n); } else if n < m { Apart(zones, j, d, c, k, n, m); }
  }

  lemma {:induction false} Apart(zones: seq<Zone>, j: nat, c: nat, d: nat, k: nat, m: nat, n: nat)
    requires j < |zones| && k < |zones| && IsChild(zones, c, k) && IsChild(zones, d, k) && m < n
    requires Climb(zones, j, m) == At(c) && Climb(zones, j, n) == At(d)
    ensures !Rooted(zones, k)
  {
    assert Climb(zones, j, m + 1) == At(k) && Climb(zones, j, n + 1) == At(k);
    ClimbOn(zones, j, m + 1, n - m);
    forall t: nat ensures !Climb(zones, k, t).Root? { CycleNeverEnds(zones, k, n - m, t); }
  }

  lemma {:induction false} NotUnderChild(zones: seq<Zone>, c: nat, k: nat)
    requires k < |zones| && Rooted(zones, k) && IsChild(zones, c, k)
    ensures !Under(zones, k, c)
  {
    if Under(zones, k, c) {
      var n: nat :| Climb(zones, k, n) == At(c);
      assert Climb(zones, k, n + 1) == At(k);
      forall t: nat ensures !Climb(zones, k, t).Root? { CycleNeverEnds(zones, k, n + 1, t); }
    }
  }

  /** The boxes of a zone and of all zones under it, among the first `n`. */
  ghost function Total(zones: seq<Zone>, k: nat, n: nat): nat
    requires n <= |zones|
  {
    if n == 0 then 0 else Total(zones, k, n - 1) + if Under(zones, n - 1, k) then zones[n-1].boxes else 0
  }

  ghost predicate UnderSome(zones: seq<Zone>, j: nat, k: nat, m: nat) {
    exists c :: 0 <= c < m && IsChild(zones, c, k) && Under(zones, j, c)
  }

  /** The boxes of the zones under the first `m` zones that are children. */
  ghost function Part(zones: seq<Zone>, k: nat, m: nat, n: nat): nat
    requires n <= |zones|
  {
    if n == 0 then 0 else Part(zones, k, m, n - 1) + if UnderSome(zones, n - 1, k, m) then zones[n-1].boxes else 0
  }

  lemma {:induction false} PartNone(zones: seq<Zone>, k: nat, n: nat)
    requires n <= |zones|
    ensures Part(zones, k, 0, n) == 0
  {
    if n > 0 { PartNone(zones, k, n - 1); }
  }

  lemma {:induction false} PartMore(zones: seq<Zone>, k: nat, m: nat, n: nat)
    requires k < |zones| && Rooted(zones, k) && m < |zones| && n <= |zones|
    ensures Part(zones, k, m + 1, n) == Part(zones, k, m, n) + if IsChild(zones, m, k) then Total(zones, m, n) else 0
  {
    if n > 0 {
      PartMore(zones, k, m, n - 1);
      var j := n - 1;
      if UnderSome(zones, j, k, m) && IsChild(zones, m, k) && Under(zones, j, m) {
        var c :| 0 <= c < m && IsChild(zones, c, k) && Under(zones, j, c);
        ChildrenApart(zones, j, c, m, k);
      }
      if UnderSome(zones, j, k, m + 1) && !(IsChild(zones, m, k) && Under(zones, j, m)) {
        var c :| 0 <= c < m + 1 && IsChild(zones, c, k) && Under(zones, j, c);
        assert c < m;
      }
      if UnderSome(zones, j, k, m) {
        var c :| 0 <= c < m && IsChild(zones, c, k) && Under(zones, j, c);
        assert c < m + 1;
      }
    }
  }

  /** Under a zone are itself and what is under its children. */
  lemma {:induction false} UnderIs(zones: seq<Zone>, j: nat, k: nat)
    requires j < |zones| && k < |zones| && Rooted(zones, k)
    ensures Under(zones, j, k) <==> j == k || UnderSome(zones, j, k, |zones|)
    ensures !(j == k && UnderSome(zones, j, k, |zones|))
  {
    if Under(zones, j, k) && j != k {
      var n: nat :| Climb(zones, j, n) == At(k);
      var before := Climb(zones, j, n - 1);
      assert IsChild(zones, before.k, k) && Under(zones, j, before.k);
    }
    if UnderSome(zones, j, k, |zones|) {
      var c :| 0 <= c < |zones| && IsChild(zones, c, k) && Under(zones, j, c);
      UnderChild(zones, j, c, k);
      if j == k { NotUnderChild(zones, c, k); }
    }
    if j == k { assert Climb(zones, j, 0) == At(k); }
  }

  /** So a zone's total is its own boxes and its children's totals. */
  lemma {:induction false} TotalIs(zones: seq<Zone>, k: nat, n: nat)
    requires k < |zones| && Rooted(zones, k) && n <= |zones|
    ensures Total(zones, k, n) == Part(zones, k, |zones|, n) + if k < n then zones[k].boxes else 0
  {
    if n > 0 {
      TotalIs(zones, k, n - 1);
      UnderIs(zones, n - 1, k);
    }
  }

  ghost function Below(zones: seq<Zone>, k: nat): set<nat> {
    set j | 0 <= j < |zones| && Under(zones, j, k)
  }

  lemma {:induction false} BelowShrinks(zones: seq<Zone>, c: nat, k: nat)
    requires k < |zones| && Rooted(zones, k) && IsChild(zones, c, k)
    ensures Below(zones, c) < Below(zones, k)
  {
    forall j | j in Below(zones, c) ensures j in Below(zones, k) { UnderChild(zones, j, c, k); }
    NotUnderChild(zones, c, k);
    assert Climb(zones, k, 0) == At(k);
    assert k in Below(zones, k) && k !in Below(zones, c);
  }

  // ----- what the check accepts -----

  ghost predicate Fits(zones: seq<Zone>, k: nat)
    requires k < |zones|
  {
    && Total(zones, k, |zones|) >= 2
    && (Up(zones, k).At? ==> Total(zones, k, |zones|) < Total(zones, Up(zones, k).k, |zones|))
  }

  /** Every chain of parents ends at a root; every zone has two boxes or more in it and under it,
      and fewer than its parent. */
  ghost predicate WellFormed(zones: seq<Zone>) {
    AllRooted(zones) && forall k :: 0 <= k < |zones| ==> Fits(zones, k)
  }

  datatype Verdict = Fine | UnknownParent(zone: nat) | Cyclic(zone: nat) | TooFew(zone: nat) | Repeats(zone: nat)

  /** Why a list is refused. */
  ghost predicate Justified(zones: seq<Zone>, v: Verdict) {
    match v
    case Fine => WellFormed(zones)
    case UnknownParent(k) => k < |zones| && exists n: nat :: Climb(zones, k, n) == Unknown
    case Cyclic(k) => k < |zones| && !Rooted(zones, k) && forall n: nat :: Climb(zones, k, n).At?
    case TooFew(k) => AllRooted(zones) && k < |zones| && Total(zones, k, |zones|) < 2
    case Repeats(k) =>
      && AllRooted(zones) && k < |zones| && Up(zones, k).At?
      && Total(zones, k, |zones|) >= Total(zones, Up(zones, k).k, |zones|)
  }

  lemma {:induction false} JustifiedMeans(zones: seq<Zone>, v: Verdict)
    requires Unique(zones) && Justified(zones, v)
    ensures v.Fine? <==> WellFormed(zones)
  {
    match v
    case Fine =>
    case UnknownParent(k) =>
      var n: nat :| Climb(zones, k, n) == Unknown;
      forall m: nat ensures !Climb(zones, k, m).Root? {
        if m <= n { ClimbOn(zones, k, m, n - m); } else { ClimbOn(zones, k, n, m - n); }
      }
      assert !Rooted(zones, k);
    case Cyclic(k) =>
    case TooFew(k) => assert WellFormed(zones) ==> Fits(zones, k);
    case Repeats(k) => assert WellFormed(zones) ==> Fits(zones, k);
  }

  // ----- the check -----

  class Checker {
    const zones: seq<Zone>
    var byId: map<string, nat>

    ghost predicate Valid()
      reads this
    {
      && Unique(zones)
      && (forall id :: id in byId <==> Find(zones, id, |zones|).Some?)
      && forall id :: id in byId ==> Find(zones, id, |zones|) == Some(byId[id])
    }

    constructor (zones: seq<Zone>)
      requires Unique(zones)
      ensures this.zones == zones && Valid()
    {
      this.zones := zones;
      byId := map[];
      new;
      for n := 0 to |zones|
        invariant this.zones == zones
        invariant forall id :: id in byId <==> Find(zones, id, n).Some?
        invariant forall id :: id in byId ==> Find(zones, id, n) == Some(byId[id])
      {
        byId := byId[zones[n].id := n];
      }
    }

    /** Follows the parents of a zone until there is none. */
    method Follow(k: nat) returns (v: Verdict)
      requires Valid() && k < |zones|
      ensures v.Fine? ==> Rooted(zones, k)
      ensures !v.Fine? ==> (v == UnknownParent(k) || v == Cyclic(k)) && Justified(zones, v)
    {
      var seen: set<nat> := {k};
      var at: nat := k;
      ghost var n: nat := 0;
      assert Climb(zones, k, 0) == At(k);
      while zones[at].parent != ""
        invariant at < |zones| && Climb(zones, k, n) == At(at) && at in seen
        invariant forall j: nat :: j in seen <==> PassedBy(zones, k, n, j)
        decreases Indices(|zones|) - seen
      {
        Found(zones, zones[at].parent, |zones|);
        assert Climb(zones, k, n + 1) == Up(zones, at);
        if zones[at].parent !in byId { return UnknownParent(k); }
        var next := byId[zones[at].parent];
        if next in seen {
          Cycles(zones, k, n + 1, next);
          return Cyclic(k);
        }
        SeenMore(zones, k, n, seen, next);
        IndicesAre(|zones|, next);
        seen, at, n := seen + {next}, next, n + 1;
      }
      assert Climb(zones, k, n + 1) == Root;
      return Fine;
    }

    /** The boxes of a zone and of all zones under it. */
    method Count(k: nat) returns (n: nat)
      requires Valid() && k < |zones| && AllRooted(zones)
      ensures n == Total(zones, k, |zones|)
      decreases Below(zones, k)
    {
      n := zones[k].boxes;
      PartNone(zones, k, |zones|);
      for c := 0 to |zones|
        invariant n == zones[k].boxes + Part(zones, k, c, |zones|)
      {
        PartMore(zones, k, c, |zones|);
        ChildByName(zones, c, k);
        if zones[c].parent == zones[k].id {
          BelowShrinks(zones, c, k);
          var more := Count(c);
          n := n + more;
        }
      }
      TotalIs(zones, k, |zones|);
    }

    method Check() returns (v: Verdict)
      requires Valid()
      ensures Justified(zones, v)
    {
      for k := 0 to |zones|
        invariant forall j :: 0 <= j < k ==> Rooted(zones, j)
      {
        v := Follow(k);
        if !v.Fine? { return; }
      }
      for k := 0 to |zones|
        invariant forall j :: 0 <= j < k ==> Fits(zones, j)
      {
        var own := Count(k);
        if own < 2 { return TooFew(k); }
        if zones[k].parent != "" {
          RootedKnows(zones, k);
          Found(zones, zones[k].parent, |zones|);
          var parents := Count(byId[zones[k].parent]);
          if own >= parents { return Repeats(k); }
        }
      }
      return Fine;
    }
  }

  ghost predicate PassedBy(zones: seq<Zone>, k: nat, n: nat, j: nat)
    requires k < |zones|
  {
    exists m: nat :: m <= n && Climb(zones, k, m) == At(j)
  }

  function Indices(n: nat): set<nat> {
    if n == 0 then {} else Indices(n - 1) + {n - 1}
  }

  lemma {:induction false} IndicesAre(n: nat, j: nat)
    ensures j in Indices(n) <==> j < n
  {
    if n > 0 { IndicesAre(n - 1, j); }
  }

  lemma {:induction false} SeenMore(zones: seq<Zone>, k: nat, n: nat, seen: set<nat>, next: nat)
    requires k < |zones| && Climb(zones, k, n + 1) == At(next)
    requires forall j: nat :: j in seen <==> PassedBy(zones, k, n, j)
    ensures forall j: nat :: j in seen + {next} <==> PassedBy(zones, k, n + 1, j)
  {
    forall j: nat ensures j in seen + {next} <==> PassedBy(zones, k, n + 1, j) {
      if PassedBy(zones, k, n + 1, j) {
        var m: nat :| m <= n + 1 && Climb(zones, k, m) == At(j);
        if m <= n { assert PassedBy(zones, k, n, j); }
      }
      if PassedBy(zones, k, n, j) {
        var m: nat :| m <= n && Climb(zones, k, m) == At(j);
        assert m <= n + 1;
      }
    }
  }

  /** Coming to a zone again the chain goes round for ever. */
  lemma {:induction false} Cycles(zones: seq<Zone>, k: nat, n: nat, next: nat)
    requires k < |zones| && n > 0 && Climb(zones, k, n) == At(next) && PassedBy(zones, k, n - 1, next)
    ensures Justified(zones, Cyclic(k))
  {
    var m: nat :| m <= n - 1 && Climb(zones, k, m) == At(next);
    ClimbOn(zones, k, m, n - m);
    forall t: nat ensures Climb(zones, k, t).At? {
      if t <= n { ClimbOn(zones, k, t, n - t); }
      else {
        ClimbOn(zones, k, m, t - m);
        GoesRound(zones, next, n - m, t - m);
      }
    }
  }

  lemma {:induction false} GoesRound(zones: seq<Zone>, k: nat, m: nat, n: nat)
    requires k < |zones| && m > 0 && Climb(zones, k, m) == At(k)
    ensures Climb(zones, k, n).At?
    decreases n
  {
    if n >= m {
      ClimbOn(zones, k, m, n - m);
      GoesRound(zones, k, m, n - m);
    } else {
      ClimbOn(zones, k, n, m - n);
    }
  }

  lemma {:induction false} ChildByName(zones: seq<Zone>, c: nat, k: nat)
    requires Unique(zones) && c < |zones| && k < |zones|
    ensures IsChild(zones, c, k) <==> zones[c].parent == zones[k].id
  {
    Found(zones, zones[c].parent, |zones|);
    if zones[c].parent == zones[k].id { FindIs(zones, zones[c].parent, |zones|, k); }
  }

  /** A zone that comes to a root has a known parent or none. */
  lemma {:induction false} RootedKnows(zones: seq<Zone>, k: nat)
    requires k < |zones| && Rooted(zones, k) && zones[k].parent != ""
    ensures Find(zones, zones[k].parent, |zones|).Some? && Up(zones, k).At?
  {
    var n: nat :| Climb(zones, k, n) == Root;
    assert Climb(zones, k, 1) == Up(zones, k);
    ClimbOn(zones, k, 1, n - 1);
  }

  /** Accepts exactly the well-formed forests. */
  method ValidateZoneTree(zones: seq<Zone>) returns (v: Verdict)
    requires Unique(zones)
    ensures v.Fine? <==> WellFormed(zones)
    ensures Justified(zones, v)
  {
    var checker := new Checker(zones);
    v := checker.Check();
    JustifiedMeans(zones, v);
  }
}
