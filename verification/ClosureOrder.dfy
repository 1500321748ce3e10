/** In which order a program's units are taken (internal/cproject/closure.go:236-311), without a queue:
    the uses are read from the start again for every unit. */
module ClosureOrder {
  import opened Closure

  // ----- which unit is meant -----

  /** A pool unit that could answer the name: one that defines it for good, or the only one that
      defines it tentatively when none does for good. */
  ghost predicate CouldBe(i: Input, name: string, u: Unit) {
    && u in i.pool
    && (Firm(i, u, name)
        || (Tentative(i, u, name)
            && forall v :: v in i.pool ==> !Firm(i, v, name) && (Tentative(i, v, name) ==> v == u)))
  }

  /** Some build output takes both units. */
  ghost predicate Together(i: Input, a: Unit, b: Unit) {
    exists output :: TakenInto(i, a, output) && TakenInto(i, b, output)
  }

  predicate TakenInto(i: Input, u: Unit, output: string) {
    u in i.outputs && output in i.outputs[u]
  }

  /** The build says that this unit is meant: it is the only one there could be, or of those the only
      one that a build output takes together with the unit needing the name. */
  ghost predicate IsMeant(i: Input, name: string, from: Unit, u: Unit) {
    && CouldBe(i, name, u)
    && ((forall v :: CouldBe(i, name, v) ==> v == u)
        || (Together(i, u, from) && forall v :: CouldBe(i, name, v) && Together(i, v, from) ==> v == u))
  }

  lemma {:induction false} SharesExactly(i: Input, a: Unit, b: Unit)
    ensures Shares(i, a, b) <==> Together(i, a, b)
  {
    if Together(i, a, b) {
      var output :| TakenInto(i, a, output) && TakenInto(i, b, output);
      var k :| 0 <= k < |i.outputs[a]| && i.outputs[a][k] == output;
    }
    if Shares(i, a, b) {
      var k :| 0 <= k < |i.outputs[a]| && i.outputs[a][k] in i.outputs[b];
      assert TakenInto(i, a, i.outputs[a][k]) && TakenInto(i, b, i.outputs[a][k]);
    }
  }

  lemma {:induction false} OneLong(s: seq<Unit>, u: Unit)
    requires Distinct(s)
    ensures s == [u] <==> u in s && forall v :: v in s ==> v == u
  {
    forall k | 0 <= k < |s| ensures s[k] in s {}
    assert |s| > 1 ==> s[0] != s[1];
  }

  lemma {:induction false} FirmDefiners(i: Input, name: string, v: Unit)
    requires v in i.pool && Firm(i, v, name)
    ensures Definers(i, {}, name) == FirmOf(i, {}, name, i.pool)
    ensures forall u :: u in Definers(i, {}, name) <==> CouldBe(i, name, u)
  {
    var firm := FirmOf(i, {}, name, i.pool);
    FirmMembers(i, {}, name, i.pool);
    assert v in firm;
    assert |firm| > 0;
  }

  lemma {:induction false} TentativeDefiners(i: Input, name: string)
    requires Complete(i) && forall v :: v in i.pool ==> !Firm(i, v, name)
    ensures forall u :: u in Definers(i, {}, name) <==> CouldBe(i, name, u)
  {
    var firm, tentative := FirmOf(i, {}, name, i.pool), TentativeOf(i, {}, name, i.pool);
    FirmMembers(i, {}, name, i.pool);
    if |firm| > 0 { assert firm[0] in firm; }
    TentativeMembers(i, {}, name, i.pool);
    DistinctParts(i, {}, name, i.pool);
    forall u ensures u in Definers(i, {}, name) <==> CouldBe(i, name, u) { OneLong(tentative, u); }
  }

  lemma {:induction false} DefinersExactly(i: Input, name: string)
    requires Complete(i)
    ensures Distinct(Definers(i, {}, name))
    ensures forall u :: u in Definers(i, {}, name) <==> CouldBe(i, name, u)
  {
    DistinctParts(i, {}, name, i.pool);
    if v :| v in i.pool && Firm(i, v, name) { FirmDefiners(i, name, v); }
    else { TentativeDefiners(i, name); }
  }

  lemma {:induction false} SharingDistinct(i: Input, candidates: seq<Unit>, from: Unit)
    requires Distinct(candidates)
    ensures Distinct(Sharing(i, candidates, from))
  {
    if candidates != [] {
      SharingDistinct(i, candidates[..|candidates|-1], from);
      SharingMembers(i, candidates[..|candidates|-1], from);
    }
  }

  /** The choice is one unit exactly when the build says which. */
  lemma {:induction false} ChoiceExactly(i: Input, name: string, from: Unit, u: Unit)
    requires Complete(i)
    ensures Choice(i, Definers(i, {}, name), from) == [u] <==> IsMeant(i, name, from, u)
  {
    var all := Definers(i, {}, name);
    DefinersExactly(i, name);
    SharingMembers(i, all, from);
    SharingDistinct(i, all, from);
    forall v ensures Shares(i, v, from) <==> Together(i, v, from) { SharesExactly(i, v, from); }
    OneLong(all, u);
    OneLong(Sharing(i, all, from), u);
  }

  /** It is none exactly when no pool unit could be meant. */
  lemma {:induction false} NoChoiceExactly(i: Input, name: string, from: Unit)
    requires Complete(i)
    ensures Choice(i, Definers(i, {}, name), from) == [] <==> forall u :: !CouldBe(i, name, u)
    ensures NoDefiner(i, name) <==> forall u :: !CouldBe(i, name, u)
  {
    var all := Definers(i, {}, name);
    DefinersExactly(i, name);
    if all != [] { assert all[0] in all; }
    assert NoDefiner(i, name) <==> all == [];
  }

  /** Those that could be meant come in the order of the pool. */
  lemma {:induction false} FirmInOrder(i: Input, name: string, pool: seq<Unit>, a: nat, b: nat) returns (x: nat, y: nat)
    requires a < b < |FirmOf(i, {}, name, pool)|
    ensures x < y < |pool| && pool[x] == FirmOf(i, {}, name, pool)[a] && pool[y] == FirmOf(i, {}, name, pool)[b]
  {
    var rest, n := pool[..|pool|-1], |FirmOf(i, {}, name, pool[..|pool|-1])|;
    if b < n { x, y := FirmInOrder(i, name, rest, a, b); }
    else {
      FirmMembers(i, {}, name, rest);
      assert FirmOf(i, {}, name, rest)[a] in rest;
      x :| 0 <= x < |rest| && rest[x] == FirmOf(i, {}, name, rest)[a];
      y := |rest|;
    }
  }

  // ----- the order of taking -----

  /** What a unit uses, in its own order. */
  function UsesOf(i: Input, u: Unit): seq<Need> {
    if u in i.table then NeedsOf(i, u, |i.table[u].refs|) else []
  }

  /** What the units use, read from the first to the last. */
  function AllUses(i: Input, units: seq<Unit>): seq<Need> {
    if units == [] then [] else AllUses(i, units[..|units|-1]) + UsesOf(i, units[|units|-1])
  }

  predicate Meant(i: Input, n: Need) {
    |Choice(i, Definers(i, {}, n.name), n.from)| == 1
  }

  /** The first use whose name the units lack and of which the build says which unit is meant, or
      does not say. */
  function First(i: Input, units: seq<Unit>, uses: seq<Need>, meant: bool): Option<Need> {
    if uses == [] then None
    else
      var n, before := uses[|uses|-1], First(i, units, uses[..|uses|-1], meant);
      if before.Some? then before
      else if !DefinedIn(i, units, n.name) && (if meant then Meant(i, n) else Undecided(i, n)) then Some(n)
      else None
  }

  /** The units taken so far, the first `linked` of them linked.  The build does not decide some uses
      of the first `round`, for which alternatives are being taken. */
  datatype Progress = Progress(units: seq<Unit>, linked: nat, round: nat)

  /** Alternatives are taken for the undecided uses of the round, in order; then a unit for the first
      use of which the build says which is meant; and when there is none, a round begins. */
  function Next(i: Input, p: Progress): Option<Progress> {
    var all, early := AllUses(i, p.units), if p.round <= |p.units| then p.units[..p.round] else p.units;
    var put, sure := First(i, p.units, AllUses(i, early), false), First(i, p.units, all, true);
    if put.Some? then Some(Progress(p.units + Definers(i, {}, put.value.name), p.linked, p.round))
    else if sure.Some? then Some(Link(i, p, sure.value))
    else if First(i, p.units, all, false).Some? then Some(p.(round := |p.units|))
    else None
  }

  /** A unit is linked as long as no alternative was taken. */
  function Link(i: Input, p: Progress, n: Need): Progress {
    Progress(p.units + Choice(i, Definers(i, {}, n.name), n.from),
             if p.linked == |p.units| then p.linked + 1 else p.linked, p.round)
  }

  /** Where a repetition is after some steps. */
  function Iterate<T>(next: T -> Option<T>, start: T, steps: nat): Option<T> {
    if steps == 0 then Some(start)
    else
      var before := Iterate(next, start, steps - 1);
      if before.None? then None else next(before.value)
  }

  function Taking(i: Input): Progress -> Option<Progress> {
    p => Next(i, p)
  }

  function Start(i: Input): Progress {
    Progress([i.main], 1, 0)
  }

  ghost predicate Comes(i: Input, p: Progress) {
    exists steps: nat :: Iterate(Taking(i), Start(i), steps) == Some(p)
  }

  /** The taking ends there. */
  ghost predicate Ends(i: Input, p: Progress) {
    Comes(i, p) && Next(i, p) == None
  }

  ghost predicate EndsWith(i: Input, units: seq<Unit>, linked: nat) {
    exists round {:trigger Progress(units, linked, round)} :: Ends(i, Progress(units, linked, round))
  }

  lemma {:induction false} IterateNext<T>(next: T -> Option<T>, start: T, steps: nat, p: T)
    requires Iterate(next, start, steps) == Some(p)
    ensures Iterate(next, start, steps + 1) == next(p)
  {
  }

  lemma {:induction false} IterateNone<T>(next: T -> Option<T>, start: T, m: nat, n: nat)
    requires m <= n && Iterate(next, start, m) == None
    ensures Iterate(next, start, n) == None
  {
    if m < n { IterateNone(next, start, m, n - 1); }
  }

  lemma {:induction false} IterateOnce<T>(next: T -> Option<T>, start: T, m: nat, n: nat, p: T, q: T)
    requires Iterate(next, start, m) == Some(p) && Iterate(next, start, n) == Some(q)
    requires next(p) == None && next(q) == None
    ensures p == q
  {
    IterateNext(next, start, m, p);
    IterateNext(next, start, n, q);
    if m < n { IterateNone(next, start, m + 1, n); }
    if n < m { IterateNone(next, start, n + 1, m); }
  }

  lemma {:induction false} ComesNext(i: Input, p: Progress)
    requires Comes(i, p) && Next(i, p).Some?
    ensures Comes(i, Next(i, p).value)
  {
    var steps: nat :| Iterate(Taking(i), Start(i), steps) == Some(p);
    IterateNext(Taking(i), Start(i), steps, p);
  }

  lemma {:induction false} ComesFirst(i: Input)
    ensures Comes(i, Start(i))
  {
    assert Iterate(Taking(i), Start(i), 0) == Some(Start(i));
  }

  /** It ends in one way at most. */
  lemma {:induction false} EndsOnce(i: Input, p: Progress, q: Progress)
    requires Ends(i, p) && Ends(i, q)
    ensures p == q
  {
    var m: nat :| Iterate(Taking(i), Start(i), m) == Some(p);
    var n: nat :| Iterate(Taking(i), Start(i), n) == Some(q);
    IterateOnce(Taking(i), Start(i), m, n, p, q);
  }

  /** Units stay where they are, linked ones linked. */
  predicate Grown(p: Progress, q: Progress) {
    p.units <= q.units && p.linked <= q.linked
  }

  lemma {:induction false} NextGrows(i: Input, p: Progress)
    requires Next(i, p).Some?
    ensures Grown(p, Next(i, p).value)
  {
  }

  /** What every step keeps between before and after holds between any two. */
  lemma {:induction false} IterateKeeps<T(!new)>(next: T -> Option<T>, kept: (T, T) -> bool, start: T, m: nat, n: nat,
                                                 p: T, q: T)
    requires forall x :: kept(x, x)
    requires forall x, y, z :: kept(x, y) && kept(y, z) ==> kept(x, z)
    requires forall x :: next(x).Some? ==> kept(x, next(x).value)
    requires m <= n && Iterate(next, start, m) == Some(p) && Iterate(next, start, n) == Some(q)
    ensures kept(p, q)
    decreases n
  {
    if m < n {
      var r := Iterate(next, start, n - 1).value;
      IterateKeeps(next, kept, start, m, n - 1, p, r);
    }
  }

  lemma {:induction false} IterateEnd<T>(next: T -> Option<T>, start: T, m: nat, n: nat, p: T, q: T)
    requires Iterate(next, start, m) == Some(p) && Iterate(next, start, n) == Some(q) && next(q) == None
    ensures m <= n
  {
    IterateNext(next, start, n, q);
    if n < m { IterateNone(next, start, n + 1, m); }
  }

  /** Whatever comes, comes on the way to the end. */
  lemma {:induction false} EndsGrown(i: Input, p: Progress, q: Progress)
    requires Ends(i, q) && Comes(i, p)
    ensures Grown(p, q)
  {
    var next := Taking(i);
    var m: nat :| Iterate(next, Start(i), m) == Some(p);
    var n: nat :| Iterate(next, Start(i), n) == Some(q);
    IterateEnd(next, Start(i), m, n, p, q);
    forall x | next(x).Some? ensures Grown(x, next(x).value) { NextGrows(i, x); }
    IterateKeeps(next, Grown, Start(i), m, n, p, q);
  }

  // ----- a queue and what was put off -----

  /** Of the uses that were looked at, those `off` were put off; the name of any other is defined by
      now or has no definer. */
  ghost predicate Sieve(i: Input, units: seq<Unit>, seen: seq<Need>, off: seq<Need>) {
    if seen == [] then off == []
    else
      var n, rest := seen[|seen|-1], seen[..|seen|-1];
      || (off != [] && off[|off|-1] == n && Sieve(i, units, rest, off[..|off|-1]))
      || ((DefinedIn(i, units, n.name) || NoDefiner(i, n.name)) && Sieve(i, units, rest, off))
  }

  lemma {:induction false} SieveGrows(i: Input, units: seq<Unit>, more: seq<Unit>, seen: seq<Need>, off: seq<Need>)
    requires Sieve(i, units, seen, off) && forall u :: u in units ==> u in more
    ensures Sieve(i, more, seen, off)
  {
    if seen != [] {
      var n, rest := seen[|seen|-1], seen[..|seen|-1];
      if off != [] && off[|off|-1] == n && Sieve(i, units, rest, off[..|off|-1]) {
        SieveGrows(i, units, more, rest, off[..|off|-1]);
      } else {
        SieveGrows(i, units, more, rest, off);
        if DefinedIn(i, units, n.name) {
          var u :| u in units && Defines(i, u, n.name);
          assert DefinedIn(i, more, n.name);
        }
      }
    }
  }

  lemma {:induction false} NoDefinerNeither(i: Input, n: Need)
    requires NoDefiner(i, n.name)
    ensures !Meant(i, n) && !Undecided(i, n)
  {
    assert Definers(i, {}, n.name) == [];
  }

  /** Nothing decidable is left among what was looked at. */
  lemma {:induction false} SieveMeant(i: Input, units: seq<Unit>, seen: seq<Need>, off: seq<Need>)
    requires Sieve(i, units, seen, off) && Open(i, off)
    ensures First(i, units, seen, true) == None
  {
    if seen != [] {
      var n, rest := seen[|seen|-1], seen[..|seen|-1];
      if off != [] && off[|off|-1] == n && Sieve(i, units, rest, off[..|off|-1]) {
        SieveMeant(i, units, rest, off[..|off|-1]);
        assert n in off;
      } else {
        SieveMeant(i, units, rest, off);
        if NoDefiner(i, n.name) { NoDefinerNeither(i, n); }
      }
    }
  }

  /** Once all that was put off is defined, nothing undecided is left either. */
  lemma {:induction false} SieveNone(i: Input, units: seq<Unit>, seen: seq<Need>, off: seq<Need>)
    requires Sieve(i, units, seen, off) && forall n :: n in off ==> DefinedIn(i, units, n.name)
    ensures First(i, units, seen, false) == None && Sieve(i, units, seen, [])
  {
    if seen != [] {
      var n, rest := seen[|seen|-1], seen[..|seen|-1];
      if off != [] && off[|off|-1] == n && Sieve(i, units, rest, off[..|off|-1]) {
        SieveNone(i, units, rest, off[..|off|-1]);
        assert n in off;
      } else {
        SieveNone(i, units, rest, off);
        if NoDefiner(i, n.name) { NoDefinerNeither(i, n); }
      }
    }
  }

  /** The first of what was put off whose name is lacking is the first undecided use. */
  lemma {:induction false} SieveFirst(i: Input, units: seq<Unit>, seen: seq<Need>, off: seq<Need>, k: nat)
    requires Sieve(i, units, seen, off) && k < |off| && Undecided(i, off[k]) && !DefinedIn(i, units, off[k].name)
    requires forall l :: 0 <= l < k ==> DefinedIn(i, units, off[l].name)
    ensures First(i, units, seen, false) == Some(off[k])
  {
    var n, rest := seen[|seen|-1], seen[..|seen|-1];
    if off[|off|-1] == n && Sieve(i, units, rest, off[..|off|-1]) {
      if k < |off| - 1 { SieveFirst(i, units, rest, off[..|off|-1], k); }
      else {
        forall m | m in off[..|off|-1] ensures DefinedIn(i, units, m.name) {}
        SieveNone(i, units, rest, off[..|off|-1]);
      }
    } else {
      SieveFirst(i, units, rest, off, k);
    }
  }

  lemma {:induction false} FirstNext(i: Input, units: seq<Unit>, seen: seq<Need>, queue: seq<Need>, meant: bool)
    requires queue != [] && First(i, units, seen, meant) == None && !DefinedIn(i, units, queue[0].name)
    requires if meant then Meant(i, queue[0]) else Undecided(i, queue[0])
    ensures First(i, units, seen + queue, meant) == Some(queue[0])
    decreases |queue|
  {
    var uses := seen + queue;
    if |queue| == 1 {
      assert uses[..|uses|-1] == seen && uses[|uses|-1] == queue[0];
    } else {
      FirstNext(i, units, seen, queue[..|queue|-1], meant);
      assert uses[..|uses|-1] == seen + queue[..|queue|-1];
    }
  }

  lemma {:induction false} FirstStays(i: Input, units: seq<Unit>, more: seq<Unit>, uses: seq<Need>, meant: bool)
    requires First(i, units, uses, meant) == None && forall u :: u in units ==> u in more
    ensures First(i, more, uses, meant) == None
  {
    if uses != [] {
      FirstStays(i, units, more, uses[..|uses|-1], meant);
      var n := uses[|uses|-1];
      if u :| u in units && Defines(i, u, n.name) { assert DefinedIn(i, more, n.name); }
    }
  }

  lemma {:induction false} SieveNext(i: Input, units: seq<Unit>, seen: seq<Need>, off: seq<Need>, n: Need)
    requires Sieve(i, units, seen, off) && (DefinedIn(i, units, n.name) || NoDefiner(i, n.name))
    ensures Sieve(i, units, seen + [n], off)
  {
    var more := seen + [n];
    assert more[..|more|-1] == seen && more[|more|-1] == n;
  }

  lemma {:induction false} SievePut(i: Input, units: seq<Unit>, seen: seq<Need>, off: seq<Need>, n: Need)
    requires Sieve(i, units, seen, off)
    ensures Sieve(i, units, seen + [n], off + [n])
  {
    var more, put := seen + [n], off + [n];
    assert more[..|more|-1] == seen && more[|more|-1] == n;
    assert put[..|put|-1] == off && put[|put|-1] == n;
  }

  lemma {:induction false} AllUsesJoin(i: Input, units: seq<Unit>, unit: Unit)
    ensures AllUses(i, units + [unit]) == AllUses(i, units) + UsesOf(i, unit)
  {
    var more := units + [unit];
    assert more[..|more|-1] == units && more[|more|-1] == unit;
  }

  /** While the queue is read: the uses seen were sifted into those put off and the others, and
      nothing of an earlier round is left undecided. */
  ghost predicate Reads(i: Input, p: Progress, seen: seq<Need>, queue: seq<Need>, off: seq<Need>) {
    && Comes(i, p) && p.round <= |p.units| && seen + queue == AllUses(i, p.units) && Sieve(i, p.units, seen, off)
    && Quiet(i, p)
  }

  ghost predicate Quiet(i: Input, p: Progress)
    requires p.round <= |p.units|
  {
    First(i, p.units, AllUses(i, p.units[..p.round]), false) == None
  }

  /** While what was put off is decided: the first `k` of it are defined by now.  Either a round goes
      on for the units whose uses were seen, or all of it is defined. */
  ghost predicate Rounds(i: Input, p: Progress, seen: seq<Need>, queue: seq<Need>, off: seq<Need>, k: nat) {
    && Comes(i, p) && p.round <= |p.units| && seen + queue == AllUses(i, p.units) && Sieve(i, p.units, seen, off)
    && AllDefined(i, p.units, off, k)
    && (seen == AllUses(i, p.units[..p.round]) || (Quiet(i, p) && AllDefined(i, p.units, off, |off|)))
  }

  ghost predicate AllDefined(i: Input, units: seq<Unit>, off: seq<Need>, k: nat) {
    forall l :: 0 <= l < k && l < |off| ==> DefinedIn(i, units, off[l].name)
  }

  lemma {:induction false} QuietStill(i: Input, p: Progress, more: seq<Unit>, linked: nat)
    requires p.round <= |p.units| && Quiet(i, p) && p.units <= more
    ensures Quiet(i, Progress(more, linked, p.round))
  {
    assert more[..p.round] == p.units[..p.round];
    FirstStays(i, p.units, more, AllUses(i, p.units[..p.round]), false);
  }

  /** The first decidable use in the queue is the next one answered. */
  lemma {:induction false} ReadsMeant(i: Input, p: Progress, seen: seq<Need>, queue: seq<Need>, off: seq<Need>)
    requires Reads(i, p, seen, queue, off) && Open(i, off) && queue != []
    requires !DefinedIn(i, p.units, queue[0].name) && Meant(i, queue[0])
    ensures Next(i, p) == Some(Link(i, p, queue[0])) && Comes(i, Link(i, p, queue[0]))
  {
    SieveMeant(i, p.units, seen, off);
    FirstNext(i, p.units, seen, queue, true);
    ComesNext(i, p);
  }

  /** A unit was taken for it. */
  lemma {:induction false} ReadsTaken(i: Input, p: Progress, q: Progress, seen: seq<Need>, queue: seq<Need>,
                                      off: seq<Need>, unit: Unit)
    requires Reads(i, p, seen, queue, off) && queue != [] && Comes(i, q)
    requires q.units == p.units + [unit] && q.round == p.round && DefinedIn(i, q.units, queue[0].name)
    ensures Reads(i, q, seen + [queue[0]], queue[1..] + UsesOf(i, unit), off)
  {
    AllUsesJoin(i, p.units, unit);
    Moved(seen, queue, UsesOf(i, unit));
    assert Sieve(i, q.units, seen + [queue[0]], off) by {
      SieveGrows(i, p.units, q.units, seen, off);
      SieveNext(i, q.units, seen, off, queue[0]);
    }
    assert Quiet(i, q) by { QuietStill(i, p, q.units, q.linked); }
  }

  lemma {:induction false} Moved(seen: seq<Need>, queue: seq<Need>, more: seq<Need>)
    requires queue != []
    ensures seen + [queue[0]] + (queue[1..] + more) == seen + queue + more
  {
  }

  /** A use that was answered before, cannot be or is put off. */
  lemma {:induction false} ReadsPast(i: Input, p: Progress, seen: seq<Need>, queue: seq<Need>, off: seq<Need>,
                                     more: seq<Need>)
    requires Reads(i, p, seen, queue, off) && queue != []
    requires more == off + [queue[0]]
             || (more == off && (DefinedIn(i, p.units, queue[0].name) || NoDefiner(i, queue[0].name)))
    ensures Reads(i, p, seen + [queue[0]], queue[1..], more)
  {
    if more == off { SieveNext(i, p.units, seen, off, queue[0]); } else { SievePut(i, p.units, seen, off, queue[0]); }
    assert seen + queue == seen + [queue[0]] + queue[1..];
  }

  /** With nothing put off the taking has come to its end. */
  lemma {:induction false} ReadsEnd(i: Input, p: Progress, seen: seq<Need>)
    requires Reads(i, p, seen, [], [])
    ensures Ends(i, p)
  {
    SieveNone(i, p.units, seen, []);
    SieveMeant(i, p.units, seen, []);
    assert seen + [] == seen;
  }

  /** A round begins where something put off is still lacking. */
  function RoundOf(i: Input, p: Progress, off: seq<Need>): Progress {
    if exists k :: 0 <= k < |off| && !DefinedIn(i, p.units, off[k].name) then p.(round := |p.units|) else p
  }

  lemma {:induction false} FirstLacking(i: Input, units: seq<Unit>, off: seq<Need>, n: nat) returns (k: nat)
    requires n < |off| && !DefinedIn(i, units, off[n].name)
    ensures k < |off| && !DefinedIn(i, units, off[k].name) && AllDefined(i, units, off, k)
  {
    if m :| 0 <= m < n && !DefinedIn(i, units, off[m].name) { k := FirstLacking(i, units, off, m); }
    else { k := n; }
  }

  lemma {:induction false} RoundStarts(i: Input, p: Progress, seen: seq<Need>, off: seq<Need>)
    requires Reads(i, p, seen, [], off) && Open(i, off)
    ensures Rounds(i, RoundOf(i, p, off), seen, [], off, 0)
  {
    assert seen + [] == seen && p.units[..|p.units|] == p.units;
    if n :| 0 <= n < |off| && !DefinedIn(i, p.units, off[n].name) {
      var k := FirstLacking(i, p.units, off, n);
      SieveFirst(i, p.units, seen, off, k);
      SieveMeant(i, p.units, seen, off);
      ComesNext(i, p);
    }
  }

  /** The first of what is still lacking is what the round decides next. */
  lemma {:induction false} RoundTakes(i: Input, p: Progress, seen: seq<Need>, queue: seq<Need>, off: seq<Need>, k: nat)
    requires Rounds(i, p, seen, queue, off, k) && k < |off| && Open(i, off) && !DefinedIn(i, p.units, off[k].name)
    ensures Comes(i, p.(units := p.units + Definers(i, {}, off[k].name)))
  {
    SieveFirst(i, p.units, seen, off, k);
    ComesNext(i, p);
  }

  lemma {:induction false} RoundTaken(i: Input, p: Progress, q: Progress, seen: seq<Need>, before: seq<Need>,
                                      queue: seq<Need>, off: seq<Need>, k: nat)
    requires Rounds(i, p, seen, before, off, k) && k < |off| && !DefinedIn(i, p.units, off[k].name) && Comes(i, q)
    requires p.units <= q.units && q.round == p.round && DefinedIn(i, q.units, off[k].name)
    requires seen + queue == AllUses(i, q.units)
    ensures Rounds(i, q, seen, queue, off, k + 1)
  {
    assert q.units[..p.round] == p.units[..p.round];
    SieveGrows(i, p.units, q.units, seen, off);
    DefinedStill(i, p.units, q.units, off, k);
  }

  lemma {:induction false} DefinedStill(i: Input, units: seq<Unit>, more: seq<Unit>, off: seq<Need>, k: nat)
    requires AllDefined(i, units, off, k) && units <= more
    ensures AllDefined(i, more, off, k)
  {
    forall l | 0 <= l < k && l < |off| ensures DefinedIn(i, more, off[l].name) {
      var u :| u in units && Defines(i, u, off[l].name);
      assert u in more;
    }
  }

  /** All that was put off is decided: reading goes on. */
  lemma {:induction false} RoundEnds(i: Input, p: Progress, seen: seq<Need>, queue: seq<Need>, off: seq<Need>)
    requires Rounds(i, p, seen, queue, off, |off|)
    ensures Reads(i, p, seen, queue, [])
  {
    SieveNone(i, p.units, seen, off);
  }

  /** Only linked units were taken so far, and two of them clash. */
  ghost predicate Fails(i: Input, units: seq<Unit>, c: Clash) {
    LinkedClash(i, units, c) && OnTheWay(i, units)
  }

  ghost predicate OnTheWay(i: Input, units: seq<Unit>) {
    exists round :: Comes(i, Progress(units, |units|, round))
  }

  /** Main alone, with its uses in the queue. */
  lemma {:induction false} MainReads(i: Input)
    requires Complete(i)
    ensures Reads(i, Start(i), [], NeedsOf(i, i.main, |i.table[i.main].refs|), [])
  {
    AllUsesJoin(i, [], i.main);
    assert [] + [i.main] == [i.main];
    ComesFirst(i);
    assert AllUses(i, [i.main][..0]) == [];
  }

  /** A unit is linked exactly as long as no alternative was taken. */
  lemma {:induction false} LinkedOrNot(i: Input, units: seq<Unit>, alternativeOnly: set<Unit>, linked: nat, n: Need)
    requires Phased(units, alternativeOnly, linked) && WaitWell(i, units, alternativeOnly, n)
    ensures n.from in alternativeOnly <==> linked < |units|
  {
    if linked < |units| { assert units[linked] in alternativeOnly; }
  }

  lemma {:induction false} QueueJoins(i: Input, units: seq<Unit>, seen: seq<Need>, queue: seq<Need>, unit: Unit)
    requires seen + queue == AllUses(i, units)
    ensures seen + (queue + UsesOf(i, unit)) == AllUses(i, units + [unit])
  {
    AllUsesJoin(i, units, unit);
    assert seen + (queue + UsesOf(i, unit)) == seen + queue + UsesOf(i, unit);
  }

  lemma {:induction false} OneMoreTaken(units: seq<Unit>, candidates: seq<Unit>, k: nat)
    requires k < |candidates|
    ensures units + candidates[..k] + [candidates[k]] == units + candidates[..k+1]
    ensures Members(candidates[..k]) + {candidates[k]} == Members(candidates[..k+1])
  {
    assert candidates[..k+1] == candidates[..k] + [candidates[k]];
  }

  lemma {:induction false} AmongCandidates(units: seq<Unit>, candidates: seq<Unit>, k: nat)
    requires k < |candidates|
    ensures Members(units + candidates[..k]) + {candidates[k]} <= Members(units) + Members(candidates)
  {
  }

  lemma {:induction false} AllTaken(units: seq<Unit>, candidates: seq<Unit>)
    ensures candidates[..|candidates|] == candidates
    ensures Members(units + candidates) == Members(units) + Members(candidates)
  {
  }

  lemma {:induction false} HeadFirst(pending: seq<Need>, k: nat)
    requires k < |pending|
    ensures pending[k..] == [pending[k]] + pending[k+1..]
  {
  }

  lemma {:induction false} Smaller(a: set<Unit>, b: set<Unit>)
    requires a < b
    ensures |a| < |b|
  {
    var u :| u in b && u !in a;
    assert a <= b - {u};
    NoLarger(a, b - {u});
  }

  lemma {:induction false} NoLarger(a: set<Unit>, b: set<Unit>)
    requires a <= b
    ensures |a| <= |b|
  {
    assert b == a + (b - a);
  }

  /** Where the build does not decide, all that could be meant define the name for good. */
  lemma {:induction false} SeveralFirm(i: Input, n: Need, candidates: seq<Unit>)
    requires Complete(i) && Undecided(i, n) && candidates == Definers(i, {}, n.name)
    ensures forall u :: u in candidates ==> Firm(i, u, n.name)
    ensures Contested(i, Members(candidates), n.name)
  {
    FirmMembers(i, {}, n.name, i.pool);
    DistinctParts(i, {}, n.name, i.pool);
    assert |candidates| > 1;
    assert candidates[0] in candidates && candidates[1] in candidates;
  }

  /** A failure and a closure exclude each other: where the linking fails, the units that would be taken
      in the end clash among those linked. */
  lemma {:induction false} FailsRightly(i: Input, units: seq<Unit>, c: Clash, p: Progress)
    requires Fails(i, units, c) && Ends(i, p)
    ensures !NoClash(i, p.units, p.linked)
  {
    var round :| Comes(i, Progress(units, |units|, round));
    EndsGrown(i, Progress(units, |units|, round), p);
    var a :| 0 <= a < |units| && units[a] == c.first;
    var b :| 0 <= b < |units| && units[b] == c.second;
    assert p.units[a] == c.first && p.units[b] == c.second;
  }

  /** With nothing left to answer or decide, what was taken is a closure and the end of the taking. */
  lemma {:induction false} Finished(i: Input, units: seq<Unit>, alternativeOnly: set<Unit>, linked: nat, round: nat,
                                    defined: map<string, Holder>, definers: map<string, set<string>>,
                                    unresolved: set<string>, seen: seq<Need>, waiting: seq<Need>)
    requires waiting == [] && Invariant(i, units, alternativeOnly, linked, defined, definers, unresolved, waiting, [])
    requires ListsOnly(i, Members(units), definers) && NeededEarlier(i, units, linked)
    requires Reads(i, Progress(units, linked, round), seen, [], [])
    ensures IsClosure(i, units, linked, definers, unresolved) && EndsWith(i, units, linked)
    ensures Phased(units, alternativeOnly, linked)
  {
    assert EndsWith(i, units, linked) by { ReadsEnd(i, Progress(units, linked, round), seen); }
    ClosureFound(i, units, alternativeOnly, linked, defined, definers, unresolved);
  }
}
