/** The loop that takes a program's units (internal/cproject/closure.go:156-323): it answers what is
    used from a queue, puts off what the build does not decide, and gives the closure. */
module ClosureLinker {
  import opened Closure
  import opened ClosureOrder

  /** The units kept only as alternatives, in the order they were taken. */
  method AlternativeUnits(units: seq<Unit>, alternativeOnly: set<Unit>, ghost linked: nat)
    returns (alternative: seq<Unit>)
    requires Phased(units, alternativeOnly, linked)
    ensures alternative == units[linked..]
  {
    alternative := [];
    for k := 0 to |units|
      invariant alternative == if k <= linked then [] else units[linked..k]
    {
      if units[k] in alternativeOnly { alternative := alternative + [units[k]]; }
    }
  }

  /** The units are a closure, those the taking ends with, and the alternatives come last. */
  ghost predicate Answers(i: Input, r: Result)
    requires r.Linked?
  {
    && |r.alternative| < |r.units| && r.alternative == r.units[|r.units| - |r.alternative|..]
    && IsClosure(i, r.units, |r.units| - |r.alternative|, r.alternatives, r.unresolved)
    && EndsWith(i, r.units, |r.units| - |r.alternative|)
  }

  lemma {:induction false} AnswersWell(i: Input, units: seq<Unit>, linked: nat, alternatives: map<string, set<string>>,
                                       unresolved: set<string>)
    requires IsClosure(i, units, linked, alternatives, unresolved) && EndsWith(i, units, linked)
    ensures Answers(i, Linked(units, units[linked..], alternatives, unresolved))
  {
    assert |units[linked..]| == |units| - linked;
  }

  class Linker {
    const i: Input
    var units: seq<Unit>
    var inProgram: set<Unit>
    var alternativeOnly: set<Unit>
    var defined: map<string, Holder>
    var definers: map<string, set<string>>
    var queue: seq<Need>
    var deferred: seq<Need>
    var unresolved: set<string>
    ghost var linked: nat
    ghost var round: nat
    ghost var seen: seq<Need>

    constructor (i: Input)
      ensures this.i == i && Fresh()
    {
      this.i := i;
      units, inProgram, alternativeOnly, defined, definers := [], {}, {}, map[], map[];
      queue, deferred, unresolved, linked, round, seen := [], [], {}, 0, 0, [];
    }

    ghost predicate Fresh()
      reads this
    {
      && units == [] && inProgram == {} && alternativeOnly == {} && defined == map[] && definers == map[]
      && queue == [] && deferred == [] && unresolved == {} && linked == 0 && round == 0 && seen == []
    }

    ghost predicate Holds(pending: seq<Need>)
      reads this
    {
      && Complete(i) && inProgram == Members(units)
      && Invariant(i, units, alternativeOnly, linked, defined, definers, unresolved, queue + deferred, pending)
      && Open(i, deferred)
    }

    /** What holds besides when no unit is being taken. */
    ghost predicate Settled()
      reads this
    {
      ListsOnly(i, inProgram, definers) && NeededEarlier(i, units, linked)
    }

    ghost function Here(): Progress
      reads this
    {
      Progress(units, linked, round)
    }

    ghost function Left(): set<Unit>
      reads this
    {
      (set u | u in i.pool) - inProgram
    }

    ghost function ToDo(): nat
      reads this
    {
      |Left()|
    }

    /** Takes note of what a unit that just joined defines; fails where it clashes with
        another linked unit. */
    method NoteAll(unit: Unit, ghost around: set<Unit>) returns (clash: Option<Clash>)
      requires Complete(i) && Known(i, unit) && unit in units && forall u :: u in units ==> Known(i, u)
      requires unit !in alternativeOnly ==> alternativeOnly == {}
      requires Memory(i, units, alternativeOnly, defined, definers, unit, i.table[unit].defs.Keys)
      requires ListsOnly(i, around, definers) && Members(units) <= around
      modifies this`defined, this`definers
      ensures clash.None? ==> Memory(i, units, alternativeOnly, defined, definers, unit, {})
      ensures clash.Some? ==> unit !in alternativeOnly && RealClash(i, units, alternativeOnly, clash.value)
      ensures forall name :: name in old(defined) ==> name in defined
      ensures clash.None? ==> forall name :: Defines(i, unit, name) ==> name in defined
      ensures ListsOnly(i, around, definers)
    {
      var left := i.table[unit].defs.Keys;
      while left != {}
        invariant left <= i.table[unit].defs.Keys
        invariant Memory(i, units, alternativeOnly, defined, definers, unit, left)
        invariant forall name :: name in old(defined) ==> name in defined
        invariant forall name :: Defines(i, unit, name) && name !in left ==> name in defined
        invariant ListsOnly(i, around, definers)
        decreases left
      {
        var name :| name in left;
        var holder, listed := HolderOf(defined, name), ListedFor(definers, name);
        ghost var noted := NotedUnits(i, units, unit, left, name);
        assert MemoryAt(i, noted, alternativeOnly, holder, listed, name);
        NoteKeeps(i, noted, alternativeOnly, holder, listed, unit, name);
        match NoteOne(i, alternativeOnly, holder, listed, unit, name) {
          case Refused =>
            return Some(Clash(name, holder.value.unit, unit));
          case Noting(h, l) =>
            MemoryNext(i, units, alternativeOnly, defined, definers, unit, left, name, h, l);
            NoteLists(i, units, around, alternativeOnly, holder, listed, unit, name);
            ListsMore(i, around, around, definers, name, l);
            defined, definers := defined[name := h], PutListed(definers, name, l);
        }
        left := left - {name};
      }
      return None;
    }

    method QueueNeeds(unit: Unit)
      requires unit in i.table
      modifies this`queue
      ensures queue == old(queue) + NeedsOf(i, unit, |i.table[unit].refs|)
    {
      for k := 0 to |i.table[unit].refs|
        invariant queue == old(queue) + NeedsOf(i, unit, k)
      {
        queue := queue + [Need(i.table[unit].refs[k], unit)];
      }
    }

    /** The program starts with main. */
    method TakeMain() returns (clash: Option<Clash>)
      requires Complete(i) && Fresh()
      modifies this
      ensures units == [i.main]
      ensures clash.Some? ==> Fails(i, units, clash.value)
      ensures clash.None? ==> Holds([]) && deferred == [] && Settled() && Reads(i, Here(), seen, queue, deferred)
    {
      units, inProgram := [i.main], {i.main};
      linked := 1;
      MainJoins(i);
      assert Members(units) == {i.main};
      clash := NoteAll(i.main, {i.main});
      assert clash.None?;
      QueueMain();
    }

    /** What main uses is put in the queue. */
    method QueueMain()
      requires Complete(i) && units == [i.main] && inProgram == {i.main} && alternativeOnly == {} && linked == 1
      requires round == 0 && seen == [] && queue == [] && deferred == [] && unresolved == {}
      requires Memory(i, [i.main], {}, defined, definers, i.main, {}) && ListsOnly(i, {i.main}, definers)
      modifies this`queue
      ensures Holds([]) && Settled() && Reads(i, Here(), seen, queue, deferred)
    {
      MainKeeps(i, defined, definers);
      QueueNeeds(i.main);
      assert queue + deferred == NeedsOf(i, i.main, |i.table[i.main].refs|);
      MainReads(i);
    }

    /** Takes a pool unit that defines a needed name. */
    method Take(unit: Unit, alternative: bool, ghost from: Unit, ghost name: string, ghost pending: seq<Need>,
                ghost around: set<Unit>)
      returns (clash: Option<Clash>)
      requires Holds(pending)
      requires Takes(i, units, alternativeOnly, linked, unit, alternative, from, name)
      requires alternative && alternativeOnly == {} ==> queue + deferred == []
      requires ListsOnly(i, around, definers) && inProgram + {unit} <= around
      modifies this
      ensures clash.Some? ==> !alternative && alternativeOnly == {} && RealClash(i, units, {}, clash.value)
      ensures clash.Some? ==> InProgram(i, units)
      ensures clash.None? ==> Holds(pending)
      ensures inProgram == old(inProgram) + {unit} && ListsOnly(i, around, definers)
      ensures clash.None? ==> name in defined
      ensures deferred == old(deferred) && (alternative ==> alternativeOnly != {})
      ensures units == old(units) + [unit] && linked == old(linked) + if alternative then 0 else 1
      ensures seen == old(seen) && round == old(round) && (clash.None? ==> queue == old(queue) + UsesOf(i, unit))
    {
      TakeReady(i, units, alternativeOnly, linked, defined, definers, unit, alternative, from, name);
      ghost var u0, a0, l0, d0, s0 := units, alternativeOnly, linked, defined, definers;
      units := units + [unit];
      inProgram := inProgram + {unit};
      if alternative { alternativeOnly := alternativeOnly + {unit}; } else { linked := linked + 1; }
      clash := NoteAll(unit, around);
      if clash.None? {
        TakeKeeps(i, u0, a0, l0, d0, s0, unresolved, queue, deferred, pending, unit, alternative, from, name, defined,
          definers);
        QueueNeeds(unit);
      }
    }

    /** The pool units not in the program that define a name: those that define it for good,
        or else the one that defines it tentatively. */
    method DefinersOf(name: string) returns (candidates: seq<Unit>)
      requires Complete(i)
      ensures candidates == Definers(i, inProgram, name)
    {
      candidates := [];
      var tentative := [];
      for k := 0 to |i.pool|
        invariant candidates == FirmOf(i, inProgram, name, i.pool[..k])
                  && tentative == TentativeOf(i, inProgram, name, i.pool[..k])
      {
        assert i.pool[..k+1][..k] == i.pool[..k];
        var unit := i.pool[k];
        if name in i.table[unit].defs && unit !in inProgram {
          if i.table[unit].defs[name].tentative {
            tentative := tentative + [unit];
          } else {
            candidates := candidates + [unit];
          }
        }
      }
      assert i.pool[..|i.pool|] == i.pool;
      if |candidates| == 0 && |tentative| == 1 { candidates := tentative; }
    }

    method Choose(candidates: seq<Unit>, from: Unit) returns (chosen: seq<Unit>)
      ensures chosen == Choice(i, candidates, from)
    {
      chosen := candidates;
      if |candidates| > 1 {
        var sharing := [];
        for k := 0 to |candidates|
          invariant sharing == Sharing(i, candidates[..k], from)
        {
          assert candidates[..k+1][..k] == candidates[..k];
          if Shares(i, candidates[k], from) { sharing := sharing + [candidates[k]]; }
        }
        assert candidates[..|candidates|] == candidates;
        if |sharing| == 1 { chosen := sharing; }
      }
    }

    /** A name no unit defines is unresolved if a unit of the program declares it. */
    method MarkUnresolved(name: string)
      requires forall u :: u in units ==> u in i.table
      modifies this`unresolved
      ensures unresolved == old(unresolved) + if exists u :: u in units && Owns(i, u, name) then {name} else {}
    {
      for k := 0 to |units|
        invariant unresolved == old(unresolved) + if exists u :: u in units[..k] && Owns(i, u, name) then {name} else {}
      {
        assert units[..k+1] == units[..k] + [units[k]];
        if name in i.table[units[k]].own {
          unresolved := unresolved + {name};
          assert units[k] in units[..k+1] && Owns(i, units[k], name);
        }
      }
      assert units[..|units|] == units;
    }

    /** A use whose name no unit can answer. */
    method GiveUp(n: Need)
      requires Holds([n]) && n.name !in defined && NoDefiner(i, n.name)
      modifies this`unresolved
      ensures Holds([])
    {
      AllKnown(i, units);
      InvariantDrops(i, units, alternativeOnly, linked, defined, definers, unresolved, queue + deferred, n);
      MarkUnresolved(n.name);
    }

    /** A use answered by one unit. */
    method Answer(n: Need, unit: Unit) returns (clash: Option<Clash>)
      requires Holds([n]) && WaitWell(i, units, alternativeOnly, n) && Settled()
      requires Takes(i, units, alternativeOnly, linked, unit, n.from in alternativeOnly, n.from, n.name)
      requires Choice(i, Definers(i, {}, n.name), n.from) == [unit] && !DefinedIn(i, units, n.name)
      requires Reads(i, Here(), seen, [n] + queue, deferred)
      modifies this
      ensures clash.Some? ==> Fails(i, units, clash.value)
      ensures clash.None? ==> Holds([]) && Settled() && Reads(i, Here(), seen + [n], queue, deferred)
      ensures seen == old(seen)
      ensures inProgram == old(inProgram) + {unit}
    {
      ghost var around := inProgram + {unit};
      ListsWider(i, inProgram, around, definers);
      ghost var u0, a0, l0, q0, p0 := units, alternativeOnly, linked, queue, Here();
      ReadsMeant(i, p0, seen, [n] + queue, deferred);
      LinkedOrNot(i, units, alternativeOnly, linked, n);
      clash := Take(unit, n.from in alternativeOnly, n.from, n.name, [n], around);
      NeededJoin(i, u0, a0, l0, unit, n.from, n.name);
      ShapeJoin(i, u0, a0, l0, unit, n.from in a0, n.from, n.name);
      if clash.None? {
        InvariantMoves(i, units, alternativeOnly, linked, defined, definers, unresolved, queue + deferred, [n],
          queue + deferred, []);
        assert DefinedIn(i, units, n.name) by { Undefined(i, units, alternativeOnly, defined, definers, n.name); }
        ReadsTaken(i, p0, Here(), seen, [n] + q0, deferred, unit);
      }
    }

    /** A use put off until it is known what the program needs for other names. */
    method PutOff(n: Need)
      requires Holds([n]) && WaitWell(i, units, alternativeOnly, n) && Undecided(i, n)
      requires Reads(i, Here(), seen, [n] + queue, deferred)
      modifies this`deferred
      ensures Holds([]) && Reads(i, Here(), seen + [n], queue, deferred)
    {
      ReadsPast(i, Here(), seen, [n] + queue, deferred, deferred + [n]);
      InvariantMoves(i, units, alternativeOnly, linked, defined, definers, unresolved, queue + deferred, [n],
        queue + (deferred + [n]), []);
      deferred := deferred + [n];
    }

    /** Takes the first use off the queue. */
    method Pop() returns (n: Need)
      requires Holds([]) && queue != []
      modifies this`queue
      ensures Holds([n]) && WaitWell(i, units, alternativeOnly, n) && n == old(queue)[0] && queue == old(queue)[1..]
    {
      n := queue[0];
      ghost var waiting := queue + deferred;
      assert n in waiting;
      queue := queue[1..];
      assert waiting == [n] + (queue + deferred);
      InvariantMoves(i, units, alternativeOnly, linked, defined, definers, unresolved, waiting, [], queue + deferred,
        [n]);
      assert WaitWell(i, units, alternativeOnly, n);
    }

    /** Answers a use the program has no definition for, or puts it off. */
    method Settle(n: Need) returns (clash: Option<Clash>)
      requires Holds([n]) && WaitWell(i, units, alternativeOnly, n) && n.name !in defined && Settled()
      requires Reads(i, Here(), seen, [n] + queue, deferred)
      modifies this
      ensures clash.Some? ==> Fails(i, units, clash.value)
      ensures clash.None? ==> Holds([]) && Settled() && Reads(i, Here(), seen + [n], queue, deferred)
      ensures seen == old(seen)
      ensures Left() < old(Left()) || (inProgram == old(inProgram) && queue == old(queue))
    {
      var candidates := DefinersOf(n.name);
      Chosen(i, units, alternativeOnly, linked, defined, definers, n, candidates);
      candidates := Choose(candidates, n.from);
      clash := None;
      if |candidates| == 0 {
        ReadsPast(i, Here(), seen, [n] + queue, deferred, deferred);
        GiveUp(n);
      }
      else if |candidates| == 1 {
        assert candidates[0] in Left();
        clash := Answer(n, candidates[0]);
        assert candidates[0] !in Left();
      }
      else { PutOff(n); }
    }

    /** Answers the first use in the queue, or puts it off. */
    method Step() returns (clash: Option<Clash>)
      requires Holds([]) && queue != [] && Settled() && Reads(i, Here(), seen, queue, deferred)
      modifies this
      ensures clash.Some? ==> Fails(i, units, clash.value)
      ensures clash.None? ==> Holds([]) && Settled() && Reads(i, Here(), seen, queue, deferred)
      ensures clash.None? ==> Left() < old(Left()) || (Left() == old(Left()) && |queue| < |old(queue)|)
    {
      ghost var q0 := queue;
      var n := Pop();
      assert q0 == [n] + queue;
      clash := None;
      if n.name in defined {
        assert DefinedIn(i, units, n.name) by { Undefined(i, units, alternativeOnly, defined, definers, n.name); }
        ReadsPast(i, Here(), seen, q0, deferred, deferred);
        InvariantMoves(i, units, alternativeOnly, linked, defined, definers, unresolved, queue + deferred, [n],
          queue + deferred, []);
      } else {
        clash := Settle(n);
      }
      seen := seen + [n];
    }

    /** Answers or puts off every use in the queue. */
    method Drain() returns (clash: Option<Clash>)
      requires Holds([]) && Settled() && Reads(i, Here(), seen, queue, deferred)
      modifies this
      ensures clash.Some? ==> Fails(i, units, clash.value)
      ensures clash.None? ==> Holds([]) && Settled() && queue == [] && Reads(i, Here(), seen, queue, deferred)
      ensures clash.None? ==> Left() <= old(Left()) && (old(queue) == [] ==> deferred == old(deferred))
    {
      clash := None;
      while queue != []
        invariant clash.None? && Holds([]) && Settled() && Reads(i, Here(), seen, queue, deferred)
        invariant Left() <= old(Left()) && (old(queue) == [] ==> deferred == old(deferred) && queue == [])
        decreases Left(), |queue|
      {
        clash := Step();
        if clash.Some? { return; }
      }
    }

    /** Lists the candidates of a name as alternatives of each other. */
    method NameAlternatives(name: string, candidates: seq<Unit>)
      requires forall u :: u in candidates ==> u in i.paths && Firm(i, u, name)
      modifies this`definers
      ensures definers == PutListed(old(definers), name, ListedFor(old(definers), name)
              + PathsOf(i, Members(candidates), name))
    {
      var listed := ListedFor(definers, name);
      for k := 0 to |candidates|
        invariant listed == ListedFor(definers, name) + PathsOf(i, Members(candidates[..k]), name)
      {
        assert candidates[..k+1] == candidates[..k] + [candidates[k]];
        assert candidates[k] in candidates;
        listed := listed + {i.paths[candidates[k]]};
        assert PathsOf(i, Members(candidates[..k+1]), name) == PathsOf(i, Members(candidates[..k]), name)
          + {i.paths[candidates[k]]};
      }
      assert candidates[..|candidates|] == candidates;
      definers := PutListed(definers, name, listed);
    }

    /** The first `k` candidates have joined the units `u0`. */
    ghost predicate Joined(n: Need, candidates: seq<Unit>, k: nat, u0: seq<Unit>, pending: seq<Need>)
      requires k <= |candidates|
      reads this
    {
      && Holds(pending) && deferred == [] && (alternativeOnly == {} ==> queue == [] && k == 0)
      && (k > 0 ==> n.name in defined)
      && units == u0 + candidates[..k] && seen + queue == AllUses(i, units)
      && ListsOnly(i, Members(u0) + Members(candidates), definers)
    }

    /** The next of the candidates joins. */
    method TakeNext(n: Need, candidates: seq<Unit>, k: nat, ghost u0: seq<Unit>, ghost a0: set<Unit>,
                    ghost pending: seq<Need>)
      returns (clash: Option<Clash>)
      requires Distinct(candidates) && k < |candidates| && Joined(n, candidates, k, u0, pending)
      requires forall u :: u in candidates ==> Takes(i, u0, a0, linked, u, true, n.from, n.name)
      modifies this
      ensures clash.None? && Joined(n, candidates, k + 1, u0, pending)
      ensures linked == old(linked) && seen == old(seen) && round == old(round)
    {
      TakesStill(i, u0, a0, alternativeOnly, linked, candidates, k, n.from, n.name);
      QueueJoins(i, units, seen, queue, candidates[k]);
      AmongCandidates(u0, candidates, k);
      clash := Take(candidates[k], true, n.from, n.name, pending, Members(u0) + Members(candidates));
      OneMoreTaken(u0, candidates, k);
    }

    /** Every candidate of a name that stayed undecided joins as an alternative. */
    method TakeAll(n: Need, candidates: seq<Unit>, ghost pending: seq<Need>) returns (clash: Option<Clash>)
      requires Holds(pending) && deferred == [] && (alternativeOnly == {} ==> queue == [])
      requires Distinct(candidates) && candidates != []
      requires forall u :: u in candidates ==> Takes(i, units, alternativeOnly, linked, u, true, n.from, n.name)
      requires ListsOnly(i, inProgram + Members(candidates), definers) && seen + queue == AllUses(i, units)
      modifies this
      ensures clash.None? && Joined(n, candidates, |candidates|, old(units), pending)
      ensures linked == old(linked) && seen == old(seen) && round == old(round)
    {
      clash := None;
      ghost var u0, a0 := units, alternativeOnly;
      for k := 0 to |candidates|
        invariant clash.None? && Joined(n, candidates, k, u0, pending)
        invariant linked == old(linked) && seen == old(seen) && round == old(round)
      {
        clash := TakeNext(n, candidates, k, u0, a0, pending);
      }
    }

    /** A use put off whose name the program still lacks. */
    method TakeAlternatives(n: Need, ghost pending: seq<Need>, ghost off: seq<Need>, ghost k: nat)
      returns (clash: Option<Clash>)
      requires Holds(pending) && n in pending && n.name !in defined && Undecided(i, n)
      requires deferred == [] && (alternativeOnly == {} ==> queue == []) && Settled()
      requires k < |off| && off[k] == n && Open(i, off) && Rounds(i, Here(), seen, queue, off, k)
      modifies this
      ensures clash.None? && Rounds(i, Here(), seen, queue, off, k + 1)
      ensures Holds(pending) && deferred == [] && (alternativeOnly == {} ==> queue == [])
      ensures n.name in defined && Settled() && Left() < old(Left())
    {
      assert WaitWell(i, units, {}, n);
      var candidates := DefinersOf(n.name);
      Candidates(i, units, alternativeOnly, linked, defined, definers, n, candidates);
      AllKnown(i, units);
      SeveralFirm(i, n, candidates);
      MemoryLists(i, units, alternativeOnly, defined, definers, n.name, ListedFor(definers, n.name)
        + PathsOf(i, Members(candidates), n.name));
      ListsTogether(i, inProgram, Members(candidates), definers, n.name);
      NeededGroup(i, units, linked, candidates, n.from, n.name);
      NameAlternatives(n.name, candidates);
      ghost var p0, q0 := Here(), queue;
      RoundTakes(i, p0, seen, queue, off, k);
      assert candidates[0] in candidates && candidates[0] in Left();
      clash := TakeAll(n, candidates, pending);
      AllTaken(p0.units, candidates);
      assert candidates[0] in Members(candidates) && candidates[0] !in Left();
      assert DefinedIn(i, units, n.name) by { Undefined(i, units, alternativeOnly, defined, definers, n.name); }
      RoundTaken(i, p0, Here(), seen, q0, queue, off, k);
    }

    /** Decides a use that was put off. */
    method Decide(n: Need, ghost rest: seq<Need>, ghost off: seq<Need>, ghost k: nat) returns (clash: Option<Clash>)
      requires Holds([n] + rest) && Undecided(i, n) && deferred == [] && (alternativeOnly == {} ==> queue == [])
      requires Settled()
      requires k < |off| && off[k] == n && Open(i, off) && Rounds(i, Here(), seen, queue, off, k)
      modifies this
      ensures clash.None? && Rounds(i, Here(), seen, queue, off, k + 1)
      ensures Holds(rest) && deferred == [] && (alternativeOnly == {} ==> queue == []) && Settled()
      ensures Left() < old(Left()) || (Left() == old(Left()) && queue == old(queue))
    {
      clash := None;
      if n.name !in defined {
        assert n in [n] + rest;
        clash := TakeAlternatives(n, [n] + rest, off, k);
      } else {
        assert DefinedIn(i, units, n.name) by { Undefined(i, units, alternativeOnly, defined, definers, n.name); }
      }
      InvariantMoves(i, units, alternativeOnly, linked, defined, definers, unresolved, queue + deferred, [n] + rest,
        queue + deferred, rest);
    }

    /** Decides all uses that were put off. */
    method DecideAll() returns (clash: Option<Clash>)
      requires Holds([]) && Settled() && queue == [] && Reads(i, Here(), seen, queue, deferred)
      modifies this
      ensures clash.None?
      ensures Holds([]) && Settled() && deferred == [] && Reads(i, Here(), seen, queue, deferred)
      ensures Left() < old(Left()) || (Left() == old(Left()) && queue == [])
    {
      var pending := deferred;
      deferred := [];
      PhaseStarts(i, units, alternativeOnly, linked, defined, definers, unresolved, pending);
      RoundStarts(i, Here(), seen, pending);
      round := RoundOf(i, Here(), pending).round;
      clash := DecidePending(pending);
    }

    method DecidePending(pending: seq<Need>) returns (clash: Option<Clash>)
      requires Holds(pending) && Settled() && queue == [] && deferred == []
      requires Open(i, pending) && Rounds(i, Here(), seen, queue, pending, 0)
      modifies this
      ensures clash.None?
      ensures Holds([]) && Settled() && deferred == [] && Reads(i, Here(), seen, queue, deferred)
      ensures Left() < old(Left()) || (Left() == old(Left()) && queue == [])
    {
      clash := None;
      for k := 0 to |pending|
        invariant clash.None? && Holds(pending[k..]) && deferred == []
        invariant alternativeOnly == {} ==> queue == []
        invariant Settled() && Rounds(i, Here(), seen, queue, pending, k)
        invariant Left() < old(Left()) || (Left() == old(Left()) && queue == [])
      {
        HeadFirst(pending, k);
        clash := Decide(pending[k], pending[k+1..], pending, k);
      }
      RoundEnds(i, Here(), seen, queue, pending);
    }

    /** Answers what is in the queue, and decides what was put off. */
    method Work() returns (clash: Option<Clash>, more: bool)
      requires Holds([]) && Settled() && deferred == [] && Reads(i, Here(), seen, queue, deferred)
      modifies this
      ensures clash.Some? ==> Fails(i, units, clash.value)
      ensures clash.None? ==> Holds([]) && Settled() && deferred == [] && Reads(i, Here(), seen, queue, deferred)
      ensures clash.None? && more ==> ToDo() < old(ToDo()) || (ToDo() == old(ToDo()) && |queue| < |old(queue)|)
      ensures clash.None? ==> ToDo() <= old(ToDo()) && (!more ==> queue == [])
    {
      ghost var left := Left();
      more := false;
      clash := Drain();
      if clash.None? { NoLarger(Left(), left); }
      if clash.None? && deferred != [] {
        clash := DecideAll();
        more := true;
        assert Left() < left || (Left() == left && queue == []);
        if Left() < left { Smaller(Left(), left); }
      }
    }

    /** The program, with nothing left to answer or decide. */
    method Finish() returns (r: Result)
      requires Holds([]) && Settled() && queue == [] && deferred == [] && Reads(i, Here(), seen, queue, deferred)
      ensures r.Linked? && Answers(i, r)
    {
      Finished(i, units, alternativeOnly, linked, round, defined, definers, unresolved, seen, queue + deferred);
      var alternative := AlternativeUnits(units, alternativeOnly, linked);
      AnswersWell(i, units, linked, definers, unresolved);
      return Linked(units, alternative, definers, unresolved);
    }
  }

  method LinkClosure(i: Input) returns (r: Result)
    requires Complete(i)
    ensures r.Failed? ==> exists units :: Fails(i, units, r.clash)
    ensures r.Linked? ==> Answers(i, r)
  {
    var linker := new Linker(i);
    var clash := linker.TakeMain();
    if clash.Some? {
      return Failed(clash.value);
    }
    var more := true;
    while more
      invariant linker.i == i && linker.Holds([]) && linker.deferred == [] && linker.Settled()
      invariant Reads(i, linker.Here(), linker.seen, linker.queue, linker.deferred)
      invariant !more ==> linker.queue == []
      decreases linker.ToDo(), if more then |linker.queue| + 1 else 0
    {
      clash, more := linker.Work();
      if clash.Some? {
        return Failed(clash.value);
      }
    }
    r := linker.Finish();
  }
}
