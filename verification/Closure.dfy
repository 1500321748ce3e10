/** The units a linker would take for a program's main unit (internal/cproject/closure.go:156).
    What each unit defines and uses is given (unitSymbols). */
module Closure {

  datatype Option<+T> = None | Some(value: T)

  type Unit = nat

  datatype Position = Position(file: string, line: int, column: int)

  datatype Definition = Definition(at: Position, tentative: bool)

  /** A unit's externally visible definitions, the external names it uses without defining
      them, and those of them the repository declares. */
  datatype Symbols = Symbols(defs: map<string, Definition>, refs: seq<string>, own: set<string>)

  datatype Input = Input(main: Unit, pool: seq<Unit>, table: map<Unit, Symbols>, paths: map<Unit, string>,
    outputs: map<Unit, seq<string>>)

  predicate Complete(i: Input) {
    && i.main in i.table && i.main in i.paths
    && (forall u :: u in i.pool ==> u in i.table && u in i.paths)
    && (forall a, b :: 0 <= a < b < |i.pool| ==> i.pool[a] != i.pool[b])
    && (forall u :: u in i.table ==> forall name :: name in i.table[u].own ==> name in i.table[u].refs)
  }

  predicate Known(i: Input, u: Unit) {
    u in i.table && u in i.paths
  }

  predicate Defines(i: Input, u: Unit, name: string) {
    u in i.table && name in i.table[u].defs
  }

  predicate Firm(i: Input, u: Unit, name: string) {
    Defines(i, u, name) && !i.table[u].defs[name].tentative
  }

  predicate Tentative(i: Input, u: Unit, name: string) {
    Defines(i, u, name) && i.table[u].defs[name].tentative
  }

  function At(i: Input, u: Unit, name: string): Position
    requires Defines(i, u, name)
  {
    i.table[u].defs[name].at
  }

  /** A needed name with the unit that needs it. */
  datatype Need = Need(name: string, from: Unit)

  /** The definition remembered for a name. */
  datatype Holder = Holder(def: Definition, unit: Unit)

  datatype Clash = Clash(name: string, first: Unit, second: Unit)

  datatype Result = Failed(clash: Clash)
    | Linked(units: seq<Unit>, alternative: seq<Unit>, alternatives: map<string, set<string>>, unresolved: set<string>)

  // ----- which pool units define a name -----

  function FirmOf(i: Input, taken: set<Unit>, name: string, pool: seq<Unit>): seq<Unit> {
    if pool == [] then []
    else
      var u := pool[|pool|-1];
      FirmOf(i, taken, name, pool[..|pool|-1]) + if Firm(i, u, name) && u !in taken then [u] else []
  }

  function TentativeOf(i: Input, taken: set<Unit>, name: string, pool: seq<Unit>): seq<Unit> {
    if pool == [] then []
    else
      var u := pool[|pool|-1];
      TentativeOf(i, taken, name, pool[..|pool|-1]) + if Tentative(i, u, name) && u !in taken then [u] else []
  }

  function Definers(i: Input, taken: set<Unit>, name: string): seq<Unit> {
    var candidates, tentative := FirmOf(i, taken, name, i.pool), TentativeOf(i, taken, name, i.pool);
    if |candidates| == 0 && |tentative| == 1 then tentative else candidates
  }

  predicate Shares(i: Input, a: Unit, b: Unit) {
    a in i.outputs && b in i.outputs && exists k :: 0 <= k < |i.outputs[a]| && i.outputs[a][k] in i.outputs[b]
  }

  function Sharing(i: Input, candidates: seq<Unit>, from: Unit): seq<Unit> {
    if candidates == [] then []
    else
      var u := candidates[|candidates|-1];
      Sharing(i, candidates[..|candidates|-1], from) + if Shares(i, u, from) then [u] else []
  }

  /** Of several candidates, the one that goes into a build output together with the unit
      needing it, when exactly one does. */
  function Choice(i: Input, candidates: seq<Unit>, from: Unit): seq<Unit> {
    var sharing := Sharing(i, candidates, from);
    if |candidates| > 1 && |sharing| == 1 then sharing else candidates
  }

  lemma {:induction false} SharingMembers(i: Input, candidates: seq<Unit>, from: Unit)
    ensures forall u :: u in Sharing(i, candidates, from) <==> u in candidates && Shares(i, u, from)
  {
    if candidates != [] {
      SharingMembers(i, candidates[..|candidates|-1], from);
      assert candidates == candidates[..|candidates|-1] + [candidates[|candidates|-1]];
    }
  }

  /** No pool unit defines the name for good, and it is not so that exactly one does
      tentatively. */
  predicate NoDefiner(i: Input, name: string) {
    |FirmOf(i, {}, name, i.pool)| == 0 && |TentativeOf(i, {}, name, i.pool)| != 1
  }

  lemma {:induction false} FirmMembers(i: Input, taken: set<Unit>, name: string, pool: seq<Unit>)
    ensures forall u :: u in FirmOf(i, taken, name, pool) <==> u in pool && Firm(i, u, name) && u !in taken
  {
    if pool != [] {
      FirmMembers(i, taken, name, pool[..|pool|-1]);
      assert pool == pool[..|pool|-1] + [pool[|pool|-1]];
    }
  }

  lemma {:induction false} TentativeMembers(i: Input, taken: set<Unit>, name: string, pool: seq<Unit>)
    ensures forall u :: u in TentativeOf(i, taken, name, pool) <==> u in pool && Tentative(i, u, name) && u !in taken
  {
    if pool != [] {
      TentativeMembers(i, taken, name, pool[..|pool|-1]);
      assert pool == pool[..|pool|-1] + [pool[|pool|-1]];
    }
  }

  /** Units taken that do not define the name make no difference. */
  lemma {:induction false} TakenApart(i: Input, taken: set<Unit>, name: string, pool: seq<Unit>)
    requires forall u :: u in taken ==> !Defines(i, u, name)
    ensures FirmOf(i, taken, name, pool) == FirmOf(i, {}, name, pool)
    ensures TentativeOf(i, taken, name, pool) == TentativeOf(i, {}, name, pool)
  {
    if pool != [] { TakenApart(i, taken, name, pool[..|pool|-1]); }
  }

  lemma {:induction false} DefinersDefine(i: Input, taken: set<Unit>, name: string)
    ensures forall u :: u in Definers(i, taken, name) ==> u in i.pool && u !in taken && Defines(i, u, name)
    ensures (forall u :: u in taken ==> !Defines(i, u, name)) ==>
            (Definers(i, taken, name) == [] <==> NoDefiner(i, name))
  {
    FirmMembers(i, taken, name, i.pool);
    TentativeMembers(i, taken, name, i.pool);
    if forall u :: u in taken ==> !Defines(i, u, name) { TakenApart(i, taken, name, i.pool); }
  }

  lemma {:induction false} DistinctParts(i: Input, taken: set<Unit>, name: string, pool: seq<Unit>)
    requires forall a, b :: 0 <= a < b < |pool| ==> pool[a] != pool[b]
    ensures Distinct(FirmOf(i, taken, name, pool)) && Distinct(TentativeOf(i, taken, name, pool))
  {
    if pool != [] {
      var rest := pool[..|pool|-1];
      DistinctParts(i, taken, name, rest);
      FirmMembers(i, taken, name, rest);
      TentativeMembers(i, taken, name, rest);
    }
  }

  predicate Distinct(units: seq<Unit>) {
    forall a, b :: 0 <= a < b < |units| ==> units[a] != units[b]
  }

  // ----- what holds of the program as it grows -----

  /** Units already in the program: main first, then pool units, each once. */
  predicate InProgram(i: Input, units: seq<Unit>) {
    units != [] && units[0] == i.main && Distinct(units) && forall k :: 0 < k < |units| ==> units[k] in i.pool
  }

  /** The linked units come first, the alternatives after them. */
  predicate Phased(units: seq<Unit>, alternativeOnly: set<Unit>, linked: nat) {
    && 0 < linked <= |units|
    && (forall u :: u in alternativeOnly ==> u in units)
    && forall k :: 0 <= k < |units| ==> (units[k] in alternativeOnly <==> linked <= k)
  }

  function Members(units: seq<Unit>): set<Unit> {
    set u | u in units
  }

  /** Every unit but main has a reason to be there. */
  ghost predicate NeededEarlier(i: Input, units: seq<Unit>, linked: nat) {
    forall k {:trigger Needed(i, units, linked, k)} :: 0 < k < |units| ==> Needed(i, units, linked, k)
  }

  ghost predicate Needed(i: Input, units: seq<Unit>, linked: nat, k: nat)
    requires k < |units|
  {
    exists j, q, name :: NeededFor(i, units, linked, k, j, q, name)
  }

  /** An earlier unit uses a name no unit before `q` defines.  Either one pool unit could be
      meant, which is then the one taken, linked if the unit needing it is.  Or the build does
      not say which is meant, and from `q` on all that could be are taken as alternatives. */
  predicate NeededFor(i: Input, units: seq<Unit>, linked: nat, k: nat, j: nat, q: nat, name: string)
    requires k < |units|
  {
    && j < q <= k && Uses(i, units[j], name) && !DefinedIn(i, units[..q], name)
    && var all := Definers(i, {}, name);
       var choice := Choice(i, all, units[j]);
       if |choice| == 1 then q == k && choice == [units[k]] && (k < linked <==> j < linked)
       else linked <= q && k < q + |all| <= |units| && units[q..q + |all|] == all
  }

  predicate DefinedIn(i: Input, units: seq<Unit>, name: string) {
    exists u :: u in units && Defines(i, u, name)
  }

  predicate Uses(i: Input, u: Unit, name: string) {
    u in i.table && name in i.table[u].refs
  }

  /** The units of the program whose definition of a name has been noted: all that define
      it, but of the unit being taken only what is not `left`. */
  function NotedUnits(i: Input, units: seq<Unit>, unit: Unit, left: set<string>, name: string): set<Unit> {
    set u | u in units && Defines(i, u, name) && !(u == unit && name in left)
  }

  function HolderOf(defined: map<string, Holder>, name: string): Option<Holder> {
    if name in defined then Some(defined[name]) else None
  }

  function ListedFor(definers: map<string, set<string>>, name: string): set<string> {
    if name in definers then definers[name] else {}
  }

  /** Only names something is listed for are kept. */
  function PutListed(definers: map<string, set<string>>, name: string, listed: set<string>): map<string, set<string>> {
    if listed == ListedFor(definers, name) then definers else definers[name := listed]
  }

  /** What is remembered of one name, given the units noted: a definition one of them has,
      for good if any has one for good; that linked units agree on its place; and that a unit
      whose definition stands elsewhere is listed as an alternative beside its holder. */
  ghost predicate MemoryAt(i: Input, noted: set<Unit>, alternativeOnly: set<Unit>, holder: Option<Holder>,
                           listed: set<string>, name: string) {
    && (holder.None? <==> noted == {})
    && (holder.Some? ==>
          && holder.value.unit in noted && Defines(i, holder.value.unit, name) && Known(i, holder.value.unit)
          && holder.value.def == i.table[holder.value.unit].defs[name]
          && forall u :: u in noted && Firm(i, u, name) ==>
               && !holder.value.def.tentative
               && (u !in alternativeOnly ==> holder.value.unit !in alternativeOnly)
               && (At(i, u, name) != holder.value.def.at ==>
                     && u in alternativeOnly
                     && Known(i, u) && i.paths[u] in listed && i.paths[holder.value.unit] in listed))
  }

  /** The memory of definitions, with the names of `unit` in `left` still to be noted. */
  ghost predicate Memory(i: Input, units: seq<Unit>, alternativeOnly: set<Unit>, defined: map<string, Holder>,
                         definers: map<string, set<string>>, unit: Unit, left: set<string>)
  {
    forall name {:trigger MemoryAt(i, NotedUnits(i, units, unit, left, name), alternativeOnly, HolderOf(defined, name),
      ListedFor(definers, name), name)} ::
      MemoryAt(i, NotedUnits(i, units, unit, left, name), alternativeOnly, HolderOf(defined, name),
        ListedFor(definers, name), name)
  }

  /** A use is answered by a remembered definition, or known to have no definer, or waits. */
  predicate Answered(i: Input, defined: map<string, Holder>, unresolved: set<string>, waiting: seq<Need>, u: Unit,
                     name: string) {
    || name in defined
    || (NoDefiner(i, name) && (u in i.table && name in i.table[u].own ==> name in unresolved))
    || Need(name, u) in waiting
  }

  ghost predicate AllAnswered(i: Input, units: seq<Unit>, defined: map<string, Holder>, unresolved: set<string>,
                              waiting: seq<Need>) {
    forall u, name {:trigger Answered(i, defined, unresolved, waiting, u, name)} :: u in units && Uses(i, u, name) ==>
      Answered(i, defined, unresolved, waiting, u, name)
  }

  /** What is waiting was used by a unit of the program; once an alternative is in, only
      alternatives are waiting. */
  predicate WaitsWell(i: Input, units: seq<Unit>, alternativeOnly: set<Unit>, waiting: seq<Need>) {
    forall n {:trigger WaitWell(i, units, alternativeOnly, n)} :: n in waiting ==>
      WaitWell(i, units, alternativeOnly, n)
  }

  predicate WaitWell(i: Input, units: seq<Unit>, alternativeOnly: set<Unit>, n: Need) {
    n.from in units && Uses(i, n.from, n.name) && (alternativeOnly != {} ==> n.from in alternativeOnly)
  }

  /** An unresolved name is declared by a unit of the program and has no definer. */
  ghost predicate UnresolvedWell(i: Input, units: seq<Unit>, unresolved: set<string>) {
    forall name :: name in unresolved ==> NoDefiner(i, name) && !Defines(i, i.main, name) && exists u ::
      u in units && Owns(i, u, name)
  }

  predicate Owns(i: Input, u: Unit, name: string) {
    u in i.table && name in i.table[u].own
  }

  /** What noting one definition of a unit being taken does to what is remembered of its name. */
  datatype Note = Refused | Noting(holder: Holder, listed: set<string>)

  function NoteOne(i: Input, alternativeOnly: set<Unit>, holder: Option<Holder>, listed: set<string>, unit: Unit,
                   name: string): Note
    requires Defines(i, unit, name) && Known(i, unit) && (holder.Some? ==> Known(i, holder.value.unit))
  {
    var def := i.table[unit].defs[name];
    if holder.Some? && !holder.value.def.tentative && !def.tentative && holder.value.def.at != def.at then
      if unit !in alternativeOnly && holder.value.unit !in alternativeOnly then Refused
      else Noting(holder.value, listed + {i.paths[holder.value.unit], i.paths[unit]})
    else if holder.Some? && (!holder.value.def.tentative || def.tentative) then Noting(holder.value, listed)
    else Noting(Holder(def, unit), listed)
  }

  /** Noting keeps the memory; it is refused only when two linked units clash.  A linked unit
      is noted only while every unit of the program is linked. */
  lemma {:induction false} NoteKeeps(i: Input, noted: set<Unit>, alternativeOnly: set<Unit>, holder: Option<Holder>,
                                     listed: set<string>,
                                     unit: Unit, name: string)
    requires MemoryAt(i, noted, alternativeOnly, holder, listed, name)
    requires Defines(i, unit, name) && Known(i, unit) && unit !in noted
    requires unit !in alternativeOnly ==> alternativeOnly == {}
    ensures match NoteOne(i, alternativeOnly, holder, listed, unit, name)
            case Noting(h, l) => MemoryAt(i, noted + {unit}, alternativeOnly, Some(h), l, name)
            case Refused => holder.Some? && unit !in alternativeOnly && holder.value.unit !in alternativeOnly
                            && Firm(i, unit, name) && Firm(i, holder.value.unit, name)
                              && At(i, unit, name) != At(i, holder.value.unit, name)
  {
  }

  lemma {:induction false} MemoryNext(i: Input, units: seq<Unit>, alternativeOnly: set<Unit>,
                                      defined: map<string, Holder>,
                                      definers: map<string, set<string>>, unit: Unit, left: set<string>, name: string,
                                      h: Holder, l: set<string>)
    requires Memory(i, units, alternativeOnly, defined, definers, unit, left)
    requires unit in units && name in left && Defines(i, unit, name)
    requires MemoryAt(i, NotedUnits(i, units, unit, left, name) + {unit}, alternativeOnly, Some(h), l, name)
    ensures Memory(i, units, alternativeOnly, defined[name := h], PutListed(definers, name, l), unit, left - {name})
  {
    forall m ensures MemoryAt(i, NotedUnits(i, units, unit, left - {name}, m), alternativeOnly,
      HolderOf(defined[name := h], m),
                              ListedFor(PutListed(definers, name, l), m), m)
    {
      if m == name {
        assert NotedUnits(i, units, unit, left - {name}, m) == NotedUnits(i, units, unit, left, m) + {unit};
      } else {
        assert NotedUnits(i, units, unit, left - {name}, m) == NotedUnits(i, units, unit, left, m);
        assert MemoryAt(i, NotedUnits(i, units, unit, left, m), alternativeOnly, HolderOf(defined, m),
          ListedFor(definers, m), m);
      }
    }
  }

  /** A unit joins with all of its names still to be noted. */
  lemma {:induction false} MemoryJoin(i: Input, units: seq<Unit>, alternativeOnly: set<Unit>,
                                      defined: map<string, Holder>,
                                      definers: map<string, set<string>>, old_: Unit, unit: Unit, alternative: bool)
    requires Memory(i, units, alternativeOnly, defined, definers, old_, {}) && unit !in units && unit in i.table
    ensures Memory(i, units + [unit], if alternative then alternativeOnly + {unit} else alternativeOnly, defined,
            definers, unit, i.table[unit].defs.Keys)
  {
    forall m ensures MemoryAt(i, NotedUnits(i, units + [unit], unit, i.table[unit].defs.Keys, m),
                              if alternative then alternativeOnly + {unit} else alternativeOnly, HolderOf(defined, m),
                                ListedFor(definers, m), m)
    {
      assert NotedUnits(i, units + [unit], unit, i.table[unit].defs.Keys, m) == NotedUnits(i, units, old_, {}, m);
      assert MemoryAt(i, NotedUnits(i, units, old_, {}, m), alternativeOnly, HolderOf(defined, m),
        ListedFor(definers, m), m);
    }
  }

  // ----- linkClosure -----

  /** All that holds between two steps: `waiting` are the uses in the queue or deferred,
      `pending` deferred ones being decided. */
  ghost predicate Invariant(i: Input, units: seq<Unit>, alternativeOnly: set<Unit>, linked: nat,
                            defined: map<string, Holder>,
                            definers: map<string, set<string>>, unresolved: set<string>, waiting: seq<Need>,
                            pending: seq<Need>)
  {
    && InProgram(i, units) && Phased(units, alternativeOnly, linked)
    && Memory(i, units, alternativeOnly, defined, definers, i.main, {})
    && AllAnswered(i, units, defined, unresolved, waiting + pending)
    && WaitsWell(i, units, alternativeOnly, waiting) && WaitsWell(i, units, {}, pending)
    && UnresolvedWell(i, units, unresolved)
  }

  lemma {:induction false} AllKnown(i: Input, units: seq<Unit>)
    requires Complete(i) && InProgram(i, units)
    ensures forall u :: u in units ==> Known(i, u)
  {
    forall u | u in units ensures Known(i, u) {
      var k :| 0 <= k < |units| && units[k] == u;
      if k > 0 { assert units[k] in i.pool; }
    }
  }

  /** With nothing left to note it does not matter which unit was taken last. */
  lemma {:induction false} MemorySettled(i: Input, units: seq<Unit>, alternativeOnly: set<Unit>,
                                         defined: map<string, Holder>,
                                         definers: map<string, set<string>>, a: Unit, b: Unit)
    requires Memory(i, units, alternativeOnly, defined, definers, a, {})
    ensures Memory(i, units, alternativeOnly, defined, definers, b, {})
  {
    forall m
      ensures MemoryAt(i, NotedUnits(i, units, b, {}, m), alternativeOnly, HolderOf(defined, m), ListedFor(definers, m),
              m)
    {
      assert NotedUnits(i, units, b, {}, m) == NotedUnits(i, units, a, {}, m);
      assert MemoryAt(i, NotedUnits(i, units, a, {}, m), alternativeOnly, HolderOf(defined, m), ListedFor(definers, m),
        m);
    }
  }

  /** A name not remembered is defined by no unit of the program. */
  lemma {:induction false} Undefined(i: Input, units: seq<Unit>, alternativeOnly: set<Unit>,
                                     defined: map<string, Holder>,
                                     definers: map<string, set<string>>, name: string)
    requires Memory(i, units, alternativeOnly, defined, definers, i.main, {})
    ensures name !in defined <==> forall u :: u in units ==> !Defines(i, u, name)
  {
    var noted := NotedUnits(i, units, i.main, {}, name);
    assert MemoryAt(i, noted, alternativeOnly, HolderOf(defined, name), ListedFor(definers, name), name);
    assert forall u :: u in noted <==> u in units && Defines(i, u, name);
    if name in defined { assert defined[name].unit in noted; }
  }

  /** A unit joins: the shape of the program. */
  lemma {:induction false} ShapeJoin(i: Input, units: seq<Unit>, alternativeOnly: set<Unit>, linked: nat, unit: Unit,
                                     alternative: bool, from: Unit, name: string)
    requires InProgram(i, units) && Phased(units, alternativeOnly, linked)
    requires unit !in units && unit in i.pool
    requires !alternative ==> alternativeOnly == {}
    ensures InProgram(i, units + [unit])
    ensures Phased(units + [unit], if alternative then alternativeOnly + {unit} else alternativeOnly, if alternative
            then linked else linked + 1)
    ensures !alternative ==> linked == |units|
  {
    if !alternative {
      var k := |units| - 1;
      assert units[k] in alternativeOnly <==> linked <= k;
    }
  }

  /** One unit joins, chosen for a name the program lacks. */
  lemma {:induction false} NeededJoin(i: Input, units: seq<Unit>, alternativeOnly: set<Unit>, linked: nat, unit: Unit,
                                      from: Unit, name: string)
    requires NeededEarlier(i, units, linked) && Phased(units, alternativeOnly, linked)
    requires from !in alternativeOnly ==> alternativeOnly == {}
    requires from in units && Uses(i, from, name) && !DefinedIn(i, units, name)
    requires Choice(i, Definers(i, {}, name), from) == [unit]
    ensures NeededEarlier(i, units + [unit], if from in alternativeOnly then linked else linked + 1)
  {
    var more := units + [unit];
    var l := if from in alternativeOnly then linked else linked + 1;
    var last := |units| - 1;
    assert units[last] in alternativeOnly <==> linked <= last;
    forall k | 0 < k < |more| ensures Needed(i, more, l, k) {
      if k < |units| {
        assert Needed(i, units, linked, k);
        var j, q, m :| NeededFor(i, units, linked, k, j, q, m);
        NeededStill(i, units, [unit], linked, l, k, j, q, m);
      } else {
        var j :| 0 <= j < |units| && units[j] == from;
        assert more[..k] == units;
        assert NeededFor(i, more, l, k, j, k, name);
      }
    }
  }

  /** All candidates of a name the program lacks join. */
  lemma {:induction false} NeededGroup(i: Input, units: seq<Unit>, linked: nat, candidates: seq<Unit>, from: Unit,
                                       name: string)
    requires NeededEarlier(i, units, linked) && linked <= |units|
    requires from in units && Uses(i, from, name) && !DefinedIn(i, units, name)
    requires candidates == Definers(i, {}, name) && |Choice(i, candidates, from)| != 1
    ensures NeededEarlier(i, units + candidates, linked)
  {
    var more := units + candidates;
    forall k | 0 < k < |more| ensures Needed(i, more, linked, k) {
      if k < |units| {
        assert Needed(i, units, linked, k);
        var j, q, m :| NeededFor(i, units, linked, k, j, q, m);
        NeededStill(i, units, candidates, linked, linked, k, j, q, m);
      } else {
        var j :| 0 <= j < |units| && units[j] == from;
        assert more[..|units|] == units && more[|units|..|units| + |candidates|] == candidates;
        assert NeededFor(i, more, linked, k, j, |units|, name);
      }
    }
  }

  /** A reason stays one when more units join. */
  lemma {:induction false} NeededStill(i: Input, units: seq<Unit>, joining: seq<Unit>, linked: nat, l: nat, k: nat,
                                       j: nat, q: nat, name: string)
    requires k < |units| && NeededFor(i, units, linked, k, j, q, name)
    requires l == linked || (linked == |units| && l > linked)
    ensures Needed(i, units + joining, l, k)
  {
    var more := units + joining;
    var all := Definers(i, {}, name);
    assert more[..q] == units[..q];
    if q + |all| <= |units| { assert more[q..q + |all|] == units[q..q + |all|]; }
    assert NeededFor(i, more, l, k, j, q, name);
  }

  function NeedsOf(i: Input, unit: Unit, k: nat): seq<Need>
    requires unit in i.table && k <= |i.table[unit].refs|
  {
    if k == 0 then [] else NeedsOf(i, unit, k - 1) + [Need(i.table[unit].refs[k-1], unit)]
  }

  lemma {:induction false} NeedsMembers(i: Input, unit: Unit, k: nat)
    requires unit in i.table && k <= |i.table[unit].refs|
    ensures forall n :: n in NeedsOf(i, unit, k) <==> n.from == unit && n.name in i.table[unit].refs[..k]
  {
    if k > 0 {
      NeedsMembers(i, unit, k - 1);
      assert i.table[unit].refs[..k] == i.table[unit].refs[..k-1] + [i.table[unit].refs[k-1]];
    }
  }

  /** A unit joins: what waits and what is answered. */
  lemma {:induction false} UsesJoin(i: Input, units: seq<Unit>, alternativeOnly: set<Unit>,
                                    defined: map<string, Holder>, more: map<string, Holder>,
                                    unresolved: set<string>, queue: seq<Need>, deferred: seq<Need>, pending: seq<Need>,
                                    unit: Unit, alternative: bool)
    requires unit in i.table
    requires AllAnswered(i, units, defined, unresolved, queue + deferred + pending) && forall name ::
             name in defined ==> name in more
    requires WaitsWell(i, units, alternativeOnly, queue + deferred) && WaitsWell(i, units, {}, pending)
    requires UnresolvedWell(i, units, unresolved)
    requires alternative && alternativeOnly == {} ==> queue + deferred == []
    requires !alternative ==> alternativeOnly == {}
    ensures var q := queue + NeedsOf(i, unit, |i.table[unit].refs|);
            && AllAnswered(i, units + [unit], more, unresolved, q + deferred + pending)
            && WaitsWell(i, units + [unit], if alternative then alternativeOnly + {unit} else alternativeOnly,
              q + deferred)
            && WaitsWell(i, units + [unit], {}, pending)
            && UnresolvedWell(i, units + [unit], unresolved)
  {
    var refs := i.table[unit].refs;
    NeedsMembers(i, unit, |refs|);
    assert refs[..|refs|] == refs;
    var q := queue + NeedsOf(i, unit, |refs|);
    forall u, name | u in units + [unit] && Uses(i, u, name)
      ensures Answered(i, more, unresolved, q + deferred + pending, u, name)
    {
      if u in units { assert Answered(i, defined, unresolved, queue + deferred + pending, u, name); }
      else { assert Need(name, u) in NeedsOf(i, unit, |refs|); }
    }
    forall n | n in q + deferred
      ensures WaitWell(i, units + [unit], if alternative then alternativeOnly + {unit} else alternativeOnly, n)
    {
      if n in queue + deferred {
        assert WaitWell(i, units, alternativeOnly, n);
      } else {
        assert n in NeedsOf(i, unit, |refs|);
      }
    }
    forall n | n in pending ensures WaitWell(i, units + [unit], {}, n) { assert WaitWell(i, units, {}, n); }
    forall name | name in unresolved ensures exists u :: u in units + [unit] && Owns(i, u, name) {
      var u :| u in units && Owns(i, u, name);
      assert u in units + [unit];
    }
  }

  /** What memory there is of main's names before any is noted. */
  lemma {:induction false} MainJoins(i: Input)
    requires Complete(i)
    ensures Memory(i, [i.main], {}, map[], map[], i.main, i.table[i.main].defs.Keys)
  {
    forall m
      ensures MemoryAt(i, NotedUnits(i, [i.main], i.main, i.table[i.main].defs.Keys, m), {}, HolderOf(map[], m),
              ListedFor(map[], m), m)
    {
      assert NotedUnits(i, [i.main], i.main, i.table[i.main].defs.Keys, m) == {};
    }
  }

  /** Uses may be put elsewhere among those waiting, or dropped once their name is defined. */
  lemma {:induction false} UsesMove(i: Input, units: seq<Unit>, alternativeOnly: set<Unit>,
                                    defined: map<string, Holder>, unresolved: set<string>,
                                    waiting: seq<Need>, pending: seq<Need>, waits: seq<Need>, pends: seq<Need>)
    requires AllAnswered(i, units, defined, unresolved, waiting + pending)
    requires WaitsWell(i, units, alternativeOnly, waiting) && WaitsWell(i, units, {}, pending)
    requires forall n :: n in waiting || n in pending ==> n in waits || n in pends || n.name in defined
    requires forall n :: n in waits ==> n in waiting || (n in pending && WaitWell(i, units, alternativeOnly, n))
    requires forall n :: n in pends ==> n in waiting || n in pending
    ensures AllAnswered(i, units, defined, unresolved, waits + pends)
    ensures WaitsWell(i, units, alternativeOnly, waits) && WaitsWell(i, units, {}, pends)
  {
    forall u, name | u in units && Uses(i, u, name) ensures Answered(i, defined, unresolved, waits + pends, u, name) {
      assert Answered(i, defined, unresolved, waiting + pending, u, name);
    }
    forall n | n in waits ensures WaitWell(i, units, alternativeOnly, n) {
      assert n in waiting ==> WaitWell(i, units, alternativeOnly, n);
    }
    forall n | n in pends ensures WaitWell(i, units, {}, n) {
      assert n in waiting ==> WaitWell(i, units, alternativeOnly, n);
      assert n in pending ==> WaitWell(i, units, {}, n);
    }
  }

  /** All of the invariant survives such a move. */
  lemma {:induction false} InvariantMoves(i: Input, units: seq<Unit>, alternativeOnly: set<Unit>, linked: nat,
                                          defined: map<string, Holder>,
                                          definers: map<string, set<string>>, unresolved: set<string>,
                                          waiting: seq<Need>, pending: seq<Need>, waits: seq<Need>, pends: seq<Need>)
    requires Invariant(i, units, alternativeOnly, linked, defined, definers, unresolved, waiting, pending)
    requires forall n :: n in waiting || n in pending ==> n in waits || n in pends || n.name in defined
    requires forall n :: n in waits ==> n in waiting || (n in pending && WaitWell(i, units, alternativeOnly, n))
    requires forall n :: n in pends ==> n in waiting || n in pending
    ensures Invariant(i, units, alternativeOnly, linked, defined, definers, unresolved, waits, pends)
  {
    UsesMove(i, units, alternativeOnly, defined, unresolved, waiting, pending, waits, pends);
  }

  /** A use with no definer is answered by marking its name for the units that declare it. */
  lemma {:induction false} UseDropped(i: Input, units: seq<Unit>, defined: map<string, Holder>, unresolved: set<string>,
                                      more: set<string>,
                                      waiting: seq<Need>, n: Need, waits: seq<Need>)
    requires AllAnswered(i, units, defined, unresolved, waiting) && unresolved <= more
    requires NoDefiner(i, n.name) && forall u :: u in units && Owns(i, u, n.name) ==> n.name in more
    requires forall m :: m in waiting ==> m in waits || m == n
    ensures AllAnswered(i, units, defined, more, waits)
  {
    forall u, name | u in units && Uses(i, u, name) ensures Answered(i, defined, more, waits, u, name) {
      assert Answered(i, defined, unresolved, waiting, u, name);
    }
  }

  /** The paths of the units that define a name for good. */
  function PathsOf(i: Input, units: set<Unit>, name: string): set<string> {
    set u | u in units && Firm(i, u, name) && u in i.paths :: i.paths[u]
  }

  /** Two of the units define the name for good. */
  ghost predicate Contested(i: Input, units: set<Unit>, name: string) {
    exists a, b :: a in units && b in units && a != b && Firm(i, a, name) && Firm(i, b, name)
  }

  ghost function Contenders(i: Input, units: set<Unit>, name: string): set<string> {
    if Contested(i, units, name) then PathsOf(i, units, name) else {}
  }

  /** Something is listed only for a name that several units, of the program or about to join it, define
      for good, and only those are listed. */
  ghost predicate ListsOnly(i: Input, units: set<Unit>, definers: map<string, set<string>>) {
    forall name {:trigger Contenders(i, units, name)} :: ListedFor(definers, name) <= Contenders(i, units, name)
  }

  lemma {:induction false} MoreContenders(i: Input, units: set<Unit>, more: set<Unit>, name: string)
    requires units <= more
    ensures Contenders(i, units, name) <= Contenders(i, more, name)
  {
    if a, b :| a in units && b in units && a != b && Firm(i, a, name) && Firm(i, b, name) {
      assert Contested(i, more, name);
    }
  }

  lemma {:induction false} ListsMore(i: Input, units: set<Unit>, more: set<Unit>, definers: map<string, set<string>>,
                                     name: string, listed: set<string>)
    requires ListsOnly(i, units, definers) && units <= more && listed <= Contenders(i, more, name)
    ensures ListsOnly(i, more, PutListed(definers, name, listed))
  {
    forall m ensures ListedFor(PutListed(definers, name, listed), m) <= Contenders(i, more, m) {
      assert ListedFor(definers, m) <= Contenders(i, units, m);
      MoreContenders(i, units, more, m);
    }
  }

  lemma {:induction false} ListsWider(i: Input, units: set<Unit>, more: set<Unit>, definers: map<string, set<string>>)
    requires ListsOnly(i, units, definers) && units <= more
    ensures ListsOnly(i, more, definers)
  {
    forall m ensures ListedFor(definers, m) <= Contenders(i, more, m) {
      assert ListedFor(definers, m) <= Contenders(i, units, m);
      MoreContenders(i, units, more, m);
    }
  }

  /** Naming more alternatives of a name loses nothing remembered of it. */
  lemma {:induction false} MemoryLists(i: Input, units: seq<Unit>, alternativeOnly: set<Unit>,
                                       defined: map<string, Holder>,
                                       definers: map<string, set<string>>, name: string, listed: set<string>)
    requires Memory(i, units, alternativeOnly, defined, definers, i.main, {}) && ListedFor(definers, name) <= listed
    ensures Memory(i, units, alternativeOnly, defined, PutListed(definers, name, listed), i.main, {})
  {
    forall m
      ensures MemoryAt(i, NotedUnits(i, units, i.main, {}, m), alternativeOnly, HolderOf(defined, m),
              ListedFor(PutListed(definers, name, listed), m), m)
    {
      assert MemoryAt(i, NotedUnits(i, units, i.main, {}, m), alternativeOnly, HolderOf(defined, m),
        ListedFor(definers, m), m);
    }
  }

  /** What holds once a unit was taken and its definitions noted. */
  lemma {:induction false} TakeKeeps(i: Input, units: seq<Unit>, alternativeOnly: set<Unit>, linked: nat,
                                     defined: map<string, Holder>,
                                     definers: map<string, set<string>>, unresolved: set<string>, queue: seq<Need>,
                                     deferred: seq<Need>, pending: seq<Need>,
                                     unit: Unit, alternative: bool, from: Unit, name: string,
                                     after: map<string, Holder>, lists: map<string, set<string>>)
    requires Invariant(i, units, alternativeOnly, linked, defined, definers, unresolved, queue + deferred, pending)
    requires Takes(i, units, alternativeOnly, linked, unit, alternative, from, name)
    requires alternative && alternativeOnly == {} ==> queue + deferred == []
    requires Memory(i, units + [unit], if alternative then alternativeOnly + {unit} else alternativeOnly, after, lists,
             unit, {})
    requires forall n :: n in defined ==> n in after
    ensures Invariant(i, units + [unit], if alternative then alternativeOnly + {unit} else alternativeOnly,
            if alternative then linked else linked + 1,
                      after, lists, unresolved, queue + NeedsOf(i, unit, |i.table[unit].refs|) + deferred, pending)
  {
    var only := if alternative then alternativeOnly + {unit} else alternativeOnly;
    ShapeJoin(i, units, alternativeOnly, linked, unit, alternative, from, name);
    MemorySettled(i, units + [unit], only, after, lists, unit, i.main);
    UsesJoin(i, units, alternativeOnly, defined, after, unresolved, queue, deferred, pending, unit, alternative);
  }

  /** A pool unit outside the program defines a name `from` uses; once an alternative is in,
      it can only be taken as one. */
  predicate Takes(i: Input, units: seq<Unit>, alternativeOnly: set<Unit>, linked: nat, unit: Unit, alternative: bool,
                  from: Unit, name: string) {
    && unit in i.table && unit in i.pool && unit !in units && linked <= |units|
    && from in units && Uses(i, from, name) && Defines(i, unit, name)
    && (!alternative ==> alternativeOnly == {})
  }

  lemma {:induction false} TakeReady(i: Input, units: seq<Unit>, alternativeOnly: set<Unit>, linked: nat,
                                     defined: map<string, Holder>,
                                     definers: map<string, set<string>>, unit: Unit, alternative: bool, from: Unit,
                                     name: string)
    requires Complete(i) && InProgram(i, units) && Phased(units, alternativeOnly, linked)
    requires Memory(i, units, alternativeOnly, defined, definers, i.main, {})
    requires Takes(i, units, alternativeOnly, linked, unit, alternative, from, name)
    ensures Memory(i, units + [unit], if alternative then alternativeOnly + {unit} else alternativeOnly, defined,
            definers, unit, i.table[unit].defs.Keys)
    ensures InProgram(i, units + [unit]) && forall u :: u in units + [unit] ==> Known(i, u)
    ensures unit !in (if alternative then alternativeOnly + {unit} else alternativeOnly) ==>
            !alternative && alternativeOnly == {}
  {
    MemoryJoin(i, units, alternativeOnly, defined, definers, i.main, unit, alternative);
    ShapeJoin(i, units, alternativeOnly, linked, unit, alternative, from, name);
    AllKnown(i, units + [unit]);
  }

  /** The program of main alone. */
  lemma {:induction false} MainKeeps(i: Input, defined: map<string, Holder>, definers: map<string, set<string>>)
    requires Complete(i) && Memory(i, [i.main], {}, defined, definers, i.main, {})
    ensures Invariant(i, [i.main], {}, 1, defined, definers, {}, NeedsOf(i, i.main, |i.table[i.main].refs|), [])
  {
    UsesJoin(i, [], {}, map[], defined, {}, [], [], [], i.main, false);
    var needs := NeedsOf(i, i.main, |i.table[i.main].refs|);
    assert [] + [i.main] == [i.main];
    assert [] + needs + [] + [] == needs + [];
    assert [] + needs + [] == needs;
  }

  /** A use of a name with no definer is done with once the name is marked. */
  lemma {:induction false} InvariantDrops(i: Input, units: seq<Unit>, alternativeOnly: set<Unit>, linked: nat,
                                          defined: map<string, Holder>,
                                          definers: map<string, set<string>>, unresolved: set<string>,
                                          waiting: seq<Need>, n: Need)
    requires Invariant(i, units, alternativeOnly, linked, defined, definers, unresolved, waiting, [n])
    requires NoDefiner(i, n.name) && n.name !in defined
    ensures var more := unresolved + if exists u :: u in units && Owns(i, u, n.name) then {n.name} else {};
            Invariant(i, units, alternativeOnly, linked, defined, definers, more, waiting, [])
  {
    var more := unresolved + if exists u :: u in units && Owns(i, u, n.name) then {n.name} else {};
    UseDropped(i, units, defined, unresolved, more, waiting + [n], n, waiting + []);
    Undefined(i, units, alternativeOnly, defined, definers, n.name);
    assert units[0] in units;
  }

  /** Two linked units that define one name for good at different places. */
  predicate RealClash(i: Input, units: seq<Unit>, alternativeOnly: set<Unit>, c: Clash) {
    && c.first in units && c.second in units && c.first !in alternativeOnly && c.second !in alternativeOnly
    && Firm(i, c.first, c.name) && Firm(i, c.second, c.name) && At(i, c.first, c.name) != At(i, c.second, c.name)
  }

  /** Two of the units taken so far, all of them linked and each needed, define one name for good at
      different places. */
  ghost predicate LinkedClash(i: Input, units: seq<Unit>, c: Clash) {
    && InProgram(i, units) && NeededEarlier(i, units, |units|) && RealClash(i, units, {}, c)
  }

  /** The build does not say which of several units answers the need. */
  predicate Undecided(i: Input, n: Need) {
    |Choice(i, Definers(i, {}, n.name), n.from)| > 1
  }

  predicate Open(i: Input, needs: seq<Need>) {
    forall n :: n in needs ==> Undecided(i, n)
  }

  /** The uses put off become those being decided. */
  lemma {:induction false} PhaseStarts(i: Input, units: seq<Unit>, alternativeOnly: set<Unit>, linked: nat,
                                       defined: map<string, Holder>,
                                       definers: map<string, set<string>>, unresolved: set<string>, pending: seq<Need>)
    requires Invariant(i, units, alternativeOnly, linked, defined, definers, unresolved, [] + pending, [])
    ensures Invariant(i, units, alternativeOnly, linked, defined, definers, unresolved, [] + [], pending)
  {
    InvariantMoves(i, units, alternativeOnly, linked, defined, definers, unresolved, [] + pending, [], [] + [],
      pending);
  }

  lemma {:induction false} ListsTogether(i: Input, units: set<Unit>, candidates: set<Unit>,
                                         definers: map<string, set<string>>, name: string)
    requires ListsOnly(i, units, definers) && Contested(i, candidates, name)
    ensures ListsOnly(i, units + candidates,
            PutListed(definers, name, ListedFor(definers, name) + PathsOf(i, candidates, name)))
  {
    var listed := ListedFor(definers, name) + PathsOf(i, candidates, name);
    assert ListedFor(definers, name) <= Contenders(i, units, name);
    MoreContenders(i, units, units + candidates, name);
    MoreContenders(i, candidates, units + candidates, name);
    assert listed <= Contenders(i, units + candidates, name);
    ListsMore(i, units, units + candidates, definers, name, listed);
  }

  /** A candidate can still be taken after those before it were. */
  lemma {:induction false} TakesStill(i: Input, units: seq<Unit>, before: set<Unit>, after: set<Unit>, linked: nat,
                                      candidates: seq<Unit>, k: nat, from: Unit, name: string)
    requires k < |candidates| && Distinct(candidates)
    requires forall u :: u in candidates ==> Takes(i, units, before, linked, u, true, from, name)
    ensures Takes(i, units + candidates[..k], after, linked, candidates[k], true, from, name)
  {
    assert candidates[k] in candidates;
    assert Takes(i, units, before, linked, candidates[k], true, from, name);
  }

  /** What the candidates for a name not yet defined are. */
  lemma {:induction false} Candidates(i: Input, units: seq<Unit>, alternativeOnly: set<Unit>, linked: nat,
                                      defined: map<string, Holder>,
                                      definers: map<string, set<string>>, n: Need, candidates: seq<Unit>)
    requires Complete(i) && Memory(i, units, alternativeOnly, defined, definers, i.main, {}) && n.name !in defined
    requires linked <= |units| && WaitWell(i, units, {}, n) && candidates == Definers(i, Members(units), n.name)
    ensures !DefinedIn(i, units, n.name) && candidates == Definers(i, {}, n.name) && Distinct(candidates)
    ensures candidates == [] <==> NoDefiner(i, n.name)
    ensures Choice(i, candidates, n.from) == [] <==> candidates == []
    ensures forall u :: u in candidates ==> Takes(i, units, alternativeOnly, linked, u, true, n.from, n.name)
  {
    Undefined(i, units, alternativeOnly, defined, definers, n.name);
    TakenApart(i, Members(units), n.name, i.pool);
    DefinersDefine(i, Members(units), n.name);
    SharingMembers(i, candidates, n.from);
    DistinctParts(i, Members(units), n.name, i.pool);
  }

  /** What choosing among them gives. */
  lemma {:induction false} Chosen(i: Input, units: seq<Unit>, alternativeOnly: set<Unit>, linked: nat,
                                  defined: map<string, Holder>,
                                  definers: map<string, set<string>>, n: Need, candidates: seq<Unit>)
    requires Complete(i) && Memory(i, units, alternativeOnly, defined, definers, i.main, {}) && n.name !in defined
    requires linked <= |units| && WaitWell(i, units, alternativeOnly, n)
             && candidates == Definers(i, Members(units), n.name)
    ensures !DefinedIn(i, units, n.name) && candidates == Definers(i, {}, n.name)
    ensures var c := Choice(i, candidates, n.from);
            && (|c| == 0 ==> NoDefiner(i, n.name))
            && (|c| == 1 ==>
                  Takes(i, units, alternativeOnly, linked, c[0], n.from in alternativeOnly, n.from, n.name)
                  && c == [c[0]])
  {
    Candidates(i, units, alternativeOnly, linked, defined, definers, n, candidates);
    SharingMembers(i, candidates, n.from);
    var c := Choice(i, candidates, n.from);
    if |c| == 1 { assert c[0] in c && c[0] in candidates; }
  }

  /** What noting lists are paths of units that define the name. */
  lemma {:induction false} NoteLists(i: Input, units: seq<Unit>, around: set<Unit>, alternativeOnly: set<Unit>,
                                     holder: Option<Holder>, listed: set<string>,
                                     unit: Unit, name: string)
    requires Defines(i, unit, name) && Known(i, unit) && unit in around && listed <= Contenders(i, around, name)
    requires holder.Some? ==>
             && Known(i, holder.value.unit) && Defines(i, holder.value.unit, name) && holder.value.unit in around
             && holder.value.def == i.table[holder.value.unit].defs[name]
    ensures match NoteOne(i, alternativeOnly, holder, listed, unit, name)
            case Noting(_, l) => l <= Contenders(i, around, name)
            case Refused => true
  {
  }

  // ----- what the closure is -----

  /** Every name a unit of the program uses is defined by one of them, or no unit of the pool
      could define it; then it is unresolved if the user's repository declares it. */
  ghost predicate Closed(i: Input, units: seq<Unit>, unresolved: set<string>) {
    forall u, name :: u in units && Uses(i, u, name) ==>
      DefinedIn(i, units, name) || (NoDefiner(i, name) && (Owns(i, u, name) ==> name in unresolved))
  }

  /** No two linked units define one name for good at different places. */
  ghost predicate NoClash(i: Input, units: seq<Unit>, linked: nat) {
    forall a, b, name ::
      0 <= a < linked && 0 <= b < linked && a < |units| && b < |units| && Firm(i, units[a], name)
      && Firm(i, units[b], name) ==>
      At(i, units[a], name) == At(i, units[b], name)
  }

  /** A unit that defines the name at that place is listed among its alternatives. */
  predicate ListedAt(i: Input, units: seq<Unit>, alternatives: map<string, set<string>>, name: string, at: Position) {
    exists u :: u in units && Defines(i, u, name) && At(i, u, name) == at && u in i.paths
      && i.paths[u] in ListedFor(alternatives, name)
  }

  /** Where units of the program define a name at different places, each place is listed. */
  ghost predicate ListsAll(i: Input, units: seq<Unit>, alternatives: map<string, set<string>>) {
    forall a, b, name ::
      a in units && b in units && Firm(i, a, name) && Firm(i, b, name)
      && At(i, a, name) != At(i, b, name) ==>
      ListedAt(i, units, alternatives, name, At(i, a, name))
  }

  ghost predicate IsClosure(i: Input, units: seq<Unit>, linked: nat, alternatives: map<string, set<string>>,
                            unresolved: set<string>) {
    && InProgram(i, units) && 0 < linked <= |units| && NeededEarlier(i, units, linked)
    && Closed(i, units, unresolved) && UnresolvedWell(i, units, unresolved)
    && NoClash(i, units, linked)
    && ListsAll(i, units, alternatives) && ListsOnly(i, Members(units), alternatives)
  }

  lemma {:induction false} ClosedIn(i: Input, units: seq<Unit>, alternativeOnly: set<Unit>,
                                    defined: map<string, Holder>,
                                    definers: map<string, set<string>>, unresolved: set<string>)
    requires Memory(i, units, alternativeOnly, defined, definers, i.main, {})
             && AllAnswered(i, units, defined, unresolved, [])
    ensures Closed(i, units, unresolved)
  {
    forall u, name | u in units && Uses(i, u, name)
      ensures DefinedIn(i, units, name) || (NoDefiner(i, name) && (Owns(i, u, name) ==> name in unresolved))
    {
      assert Answered(i, defined, unresolved, [], u, name);
      Undefined(i, units, alternativeOnly, defined, definers, name);
    }
  }

  /** One remembered definition a name is enough to tell that linked units agree, and which
      places to list. */
  lemma {:induction false} Compared(i: Input, units: seq<Unit>, alternativeOnly: set<Unit>,
                                    defined: map<string, Holder>,
                                    definers: map<string, set<string>>, a: Unit, b: Unit, name: string)
    requires Memory(i, units, alternativeOnly, defined, definers, i.main, {})
    requires a in units && b in units && Firm(i, a, name) && Firm(i, b, name) && At(i, a, name) != At(i, b, name)
    ensures a in alternativeOnly || b in alternativeOnly
    ensures ListedAt(i, units, definers, name, At(i, a, name))
  {
    var noted := NotedUnits(i, units, i.main, {}, name);
    assert MemoryAt(i, noted, alternativeOnly, HolderOf(defined, name), ListedFor(definers, name), name);
    assert a in noted && b in noted;
    var holder := defined[name];
    if At(i, a, name) == holder.def.at { assert holder.unit in units; }
  }

  lemma {:induction false} ClosureFound(i: Input, units: seq<Unit>, alternativeOnly: set<Unit>, linked: nat,
                                        defined: map<string, Holder>,
                                        definers: map<string, set<string>>, unresolved: set<string>)
    requires Invariant(i, units, alternativeOnly, linked, defined, definers, unresolved, [], [])
    requires ListsOnly(i, Members(units), definers) && NeededEarlier(i, units, linked)
    ensures IsClosure(i, units, linked, definers, unresolved)
  {
    var none: seq<Need> := [];
    assert none + none == none;
    ClosedIn(i, units, alternativeOnly, defined, definers, unresolved);
    forall a, b, name | a in units && b in units && Firm(i, a, name) && Firm(i, b, name)
      && At(i, a, name) != At(i, b, name)
      ensures ListedAt(i, units, definers, name, At(i, a, name)) && (a in alternativeOnly || b in alternativeOnly)
    {
      Compared(i, units, alternativeOnly, defined, definers, a, b, name);
    }
  }

  /** A pool unit does define an unresolved name exactly when several do, all tentatively. */
  lemma {:induction false} UnresolvedDefined(i: Input, units: seq<Unit>, linked: nat,
                                             alternatives: map<string, set<string>>, unresolved: set<string>,
                                             name: string)
    requires IsClosure(i, units, linked, alternatives, unresolved) && name in unresolved
    ensures (exists u :: u in i.pool && Defines(i, u, name)) <==> |TentativeOf(i, {}, name, i.pool)| > 1
  {
    FirmMembers(i, {}, name, i.pool);
    TentativeMembers(i, {}, name, i.pool);
    var tentative := TentativeOf(i, {}, name, i.pool);
    if |tentative| > 1 { assert tentative[0] in tentative; }
    forall u | u in i.pool && Defines(i, u, name) ensures |tentative| > 0 { assert Firm(i, u, name) || u in tentative; }
  }

  lemma {:induction false} NeitherTaken(i: Input, a: Unit, b: Unit, name: string)
    requires i.pool == [a, b] && Tentative(i, a, name) && Tentative(i, b, name)
    ensures NoDefiner(i, name)
  {
    assert i.pool[..1] == [a] && [a][..0] == [];
    assert TentativeOf(i, {}, name, [a]) == [a];
    assert FirmOf(i, {}, name, [a]) == [];
  }

  lemma {:induction false} NotNeeded(i: Input, a: Unit, b: Unit, name: string, units: seq<Unit>, linked: nat)
    requires i.pool == [a, b] && i.main in i.table && i.table[i.main].refs == [name] && InProgram(i, units)
             && |units| > 1
    requires Tentative(i, a, name) && Tentative(i, b, name)
    ensures !Needed(i, units, linked, 1)
  {
    NeitherTaken(i, a, b, name);
    forall j: nat, q: nat, n | j < q <= 1 && Uses(i, units[j], n) ensures !NeededFor(i, units, linked, 1, j, q, n) {
      assert n == name;
      assert Definers(i, {}, n) == [];
    }
  }

  /** Two pool units that both define tentatively what main uses and declares: main alone is a
      closure, and whatever is a closure is main alone, with the name unresolved. */
  lemma {:induction false} TwoTentative(i: Input, a: Unit, b: Unit, name: string, units: seq<Unit>, linked: nat,
                                        alternatives: map<string, set<string>>, unresolved: set<string>)
    requires Complete(i) && i.pool == [a, b] && i.table[i.main] == Symbols(map[], [name], {name})
    requires Tentative(i, a, name) && Tentative(i, b, name)
    ensures IsClosure(i, [i.main], 1, map[], {name})
    ensures IsClosure(i, units, linked, alternatives, unresolved) ==>
              units == [i.main] && linked == 1 && unresolved == {name} && forall n :: ListedFor(alternatives, n) == {}
  {
    NeitherTaken(i, a, b, name);
    assert i.main in [i.main] && Owns(i, i.main, name);
    if IsClosure(i, units, linked, alternatives, unresolved) {
      if |units| > 1 { NotNeeded(i, a, b, name, units, linked); }
      assert units == [i.main] && !DefinedIn(i, units, name);
      assert i.main in units && Uses(i, i.main, name);
      forall n ensures ListedFor(alternatives, n) == {} { assert Contenders(i, Members(units), n) == {}; }
    }
  }
}
