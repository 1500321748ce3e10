/** The store that parses each unit once for all who ask, at most four at a time
    (internal/cproject/native.go:324-397), as the steps its callers may take in any order. */
module UnitStore {

  datatype Option<+T> = None | Some(value: T)

  type Key = string

  const SLOTS := 4

  /** A unit, a failure to parse it, or the caller's own context being cancelled. */
  datatype Result = Unit(decls: int) | Failure | Stopped

  /** A parse and who asked for it first; `done` is its channel being closed. */
  datatype Entry = Entry(key: Key, owner: nat, done: bool, result: Option<Result>)

  /** Where a caller of `unit` is.  Those from `Acquiring` to `Closing` own their entry. */
  datatype Place =
    | Start
    | Looking
    | Unlocking(entry: nat, found: bool)
    | Waiting(entry: nat)
    | Acquiring(entry: nat)
    | Parsing(entry: nat)
    | Settled(entry: nat)
    | Relocking(entry: nat)
    | Deleting(entry: nat)
    | Releasing(entry: nat)
    | Closing(entry: nat, deleted: bool)
    | Returned(result: Result)

  datatype Caller = Caller(key: Key, cancelled: bool, place: Place)

  /** Where a call of `Keep` is; while it sweeps, which keys it has yet to look at. */
  datatype Sweep = Before | Sweeping(left: set<Key>) | After

  datatype Keeper = Keeper(needed: set<Key>, sweep: Sweep)

  datatype Holder = Nobody | CallerHolds(i: nat) | KeeperHolds(j: nat)

  datatype State = State(units: map<Key, nat>, entries: seq<Entry>, lock: Holder, parses: set<nat>,
    callers: seq<Caller>, keepers: seq<Keeper>)

  datatype Action =
    | Lock(i: nat)
    | LookUp(i: nat)
    | Unlock(i: nat)
    | Receive(i: nat)
    | GiveUp(i: nat)
    | Acquire(i: nat)
    | Finish(i: nat, result: Result)
    | Check(i: nat)
    | LockAgain(i: nat)
    | Delete(i: nat)
    | UnlockAgain(i: nat)
    | Close(i: nat)
    | Cancel(i: nat)
    | KeepLock(j: nat)
    | KeepLook(j: nat, key: Key)
    | KeepUnlock(j: nat)

  function PlaceOf(s: State, i: nat): Place {
    if i < |s.callers| then s.callers[i].place else Start
  }

  function SweepOf(s: State, j: nat): Sweep {
    if j < |s.keepers| then s.keepers[j].sweep else After
  }

  function Move(s: State, i: nat, place: Place): State
    requires i < |s.callers|
  {
    s.(callers := s.callers[i := s.callers[i].(place := place)])
  }

  function MoveKeeper(s: State, j: nat, sweep: Sweep): State
    requires j < |s.keepers|
  {
    s.(keepers := s.keepers[j := s.keepers[j].(sweep := sweep)])
  }

  predicate IsError(r: Option<Result>) {
    r.Some? && !r.value.Unit?
  }

  predicate Enabled(s: State, a: Action) {
    match a
    case Lock(i) => i < |s.callers| && PlaceOf(s, i).Start? && s.lock.Nobody?
    case LookUp(i) => PlaceOf(s, i).Looking?
    case Unlock(i) => PlaceOf(s, i).Unlocking?
    case Receive(i) => var p := PlaceOf(s, i);
      p.Waiting? && p.entry < |s.entries| && s.entries[p.entry].done
      && s.entries[p.entry].result.Some?
    case GiveUp(i) => i < |s.callers| && s.callers[i].cancelled
      && (PlaceOf(s, i).Waiting? || (PlaceOf(s, i).Acquiring? && PlaceOf(s, i).entry < |s.entries|))
    case Acquire(i) => PlaceOf(s, i).Acquiring? && |s.parses| < SLOTS
    case Finish(i, result) => i < |s.callers| && PlaceOf(s, i).Parsing? && PlaceOf(s, i).entry < |s.entries|
      && (result.Stopped? ==> s.callers[i].cancelled)
    case Check(i) => PlaceOf(s, i).Settled? && PlaceOf(s, i).entry < |s.entries|
    case LockAgain(i) => PlaceOf(s, i).Relocking? && s.lock.Nobody?
    case Delete(i) => PlaceOf(s, i).Deleting?
    case UnlockAgain(i) => PlaceOf(s, i).Releasing?
    case Close(i) => var p := PlaceOf(s, i); p.Closing? && p.entry < |s.entries| && s.entries[p.entry].result.Some?
    case Cancel(i) => i < |s.callers| && !s.callers[i].cancelled
    case KeepLock(j) => j < |s.keepers| && s.keepers[j].sweep.Before? && s.lock.Nobody?
    case KeepLook(j, key) => SweepOf(s, j).Sweeping? && key in SweepOf(s, j).left && key in s.units
      && s.units[key] < |s.entries|
    case KeepUnlock(j) => SweepOf(s, j) == Sweeping({})
  }

  function Settle(s: State, i: nat, entry: nat, result: Result): State
    requires i < |s.callers| && entry < |s.entries|
  {
    Move(s, i, Settled(entry)).(entries := s.entries[entry := s.entries[entry].(result := Some(result))])
  }

  function Next(s: State, a: Action): State
    requires Enabled(s, a)
  {
    match a
    case Lock(i) => Move(s, i, Looking).(lock := CallerHolds(i))
    case LookUp(i) =>
      var key := s.callers[i].key;
      if key in s.units then Move(s, i, Unlocking(s.units[key], true))
      else Move(s, i, Unlocking(|s.entries|, false)).(units := s.units[key := |s.entries|], entries := s.entries
        + [Entry(key, i, false, None)])
    case Unlock(i) =>
      var p := PlaceOf(s, i);
      Move(s, i, if p.found then Waiting(p.entry) else Acquiring(p.entry)).(lock := Nobody)
    case Receive(i) => Move(s, i, Returned(s.entries[PlaceOf(s, i).entry].result.value))
    case GiveUp(i) =>
      var p := PlaceOf(s, i);
      if p.Waiting? then Move(s, i, Returned(Stopped)) else Settle(s, i, p.entry, Stopped)
    case Acquire(i) => Move(s, i, Parsing(PlaceOf(s, i).entry)).(parses := s.parses + {i})
    case Finish(i, result) => Settle(s, i, PlaceOf(s, i).entry, result).(parses := s.parses - {i})
    case Check(i) =>
      var entry := PlaceOf(s, i).entry;
      Move(s, i, if IsError(s.entries[entry].result) && s.callers[i].cancelled then Relocking(entry)
        else Closing(entry, false))
    case LockAgain(i) => Move(s, i, Deleting(PlaceOf(s, i).entry)).(lock := CallerHolds(i))
    case Delete(i) => Move(s, i, Releasing(PlaceOf(s, i).entry)).(units := s.units - {s.callers[i].key})
    case UnlockAgain(i) => Move(s, i, Closing(PlaceOf(s, i).entry, true)).(lock := Nobody)
    case Close(i) =>
      var entry := PlaceOf(s, i).entry;
      var closed := s.entries[entry].(done := true);
      Move(s, i, Returned(s.entries[entry].result.value)).(entries := s.entries[entry := closed])
    case Cancel(i) => s.(callers := s.callers[i := s.callers[i].(cancelled := true)])
    case KeepLock(j) => MoveKeeper(s, j, Sweeping(s.units.Keys)).(lock := KeeperHolds(j))
    case KeepLook(j, key) =>
      var swept := MoveKeeper(s, j, Sweeping(SweepOf(s, j).left - {key}));
      if key in s.keepers[j].needed || !s.entries[s.units[key]].done then swept else swept.(units := s.units - {key})
    case KeepUnlock(j) => MoveKeeper(s, j, After).(lock := Nobody)
  }

  predicate Initial(s: State) {
    && s.units == map[] && s.entries == [] && s.lock == Nobody && s.parses == {}
    && (forall i :: 0 <= i < |s.callers| ==> s.callers[i].place == Start && !s.callers[i].cancelled)
    && forall j :: 0 <= j < |s.keepers| ==> s.keepers[j].sweep == Before
  }

  predicate Run(s: State, actions: seq<Action>)
    decreases |actions|
  {
    actions != [] ==> Enabled(s, actions[0]) && Run(Next(s, actions[0]), actions[1..])
  }

  function End(s: State, actions: seq<Action>): State
    requires Run(s, actions)
    decreases |actions|
  {
    if actions == [] then s else End(Next(s, actions[0]), actions[1..])
  }

  // ----- what every step keeps -----

  /** The entry a caller is to finish. */
  function Owned(p: Place): Option<nat> {
    match p
    case Unlocking(e, found) => if found then None else Some(e)
    case Acquiring(e) => Some(e)
    case Parsing(e) => Some(e)
    case Settled(e) => Some(e)
    case Relocking(e) => Some(e)
    case Deleting(e) => Some(e)
    case Releasing(e) => Some(e)
    case Closing(e, _) => Some(e)
    case _ => None
  }

  /** The owner has taken its entry out of the map. */
  predicate TakenOut(p: Place) {
    p.Releasing? || (p.Closing? && p.deleted)
  }

  /** The owner takes its entry out, or has. */
  predicate TakesOut(p: Place) {
    p.Relocking? || p.Deleting? || TakenOut(p)
  }

  predicate HoldsLock(p: Place) {
    p.Looking? || p.Unlocking? || p.Deleting? || p.Releasing?
  }

  /** The parse has a result that is not handed out yet. */
  predicate HasResult(p: Place) {
    p.Settled? || p.Relocking? || p.Deleting? || p.Releasing? || p.Closing?
  }

  predicate CallerLocks(s: State, i: nat)
    requires i < |s.callers|
  {
    var c := s.callers[i];
    (HoldsLock(c.place) <==> s.lock == CallerHolds(i)) && (c.place.Parsing? <==> i in s.parses)
  }

  predicate CallerEntry(s: State, i: nat)
    requires i < |s.callers|
  {
    var c := s.callers[i];
    && (Owned(c.place).Some? ==>
          var e := Owned(c.place).value;
          && e < |s.entries| && s.entries[e].owner == i && s.entries[e].key == c.key && !s.entries[e].done
          && (HasResult(c.place) <==> s.entries[e].result.Some?)
          && (TakenOut(c.place) <==> !(c.key in s.units && s.units[c.key] == e))
          && (s.entries[e].result == Some(Stopped) ==> c.cancelled)
          && (TakesOut(c.place) ==> c.cancelled && IsError(s.entries[e].result))
          && (c.place == Closing(e, false) ==> s.entries[e].result != Some(Stopped)))
    && (c.place.Waiting? || c.place.Unlocking? ==> c.place.entry < |s.entries| && s.entries[c.place.entry].key == c.key)
  }

  predicate CallerWell(s: State, i: nat)
    requires i < |s.callers|
  {
    CallerLocks(s, i) && CallerEntry(s, i)
  }

  /** An entry is finished by its owner alone. */
  predicate EntryWell(s: State, e: nat)
    requires e < |s.entries|
  {
    var x := s.entries[e];
    && x.owner < |s.callers| && (x.done ==> x.result.Some?) && (!x.done ==> Owned(s.callers[x.owner].place) == Some(e))
    && (x.result == Some(Stopped) ==> s.callers[x.owner].cancelled)
  }

  /** What the map holds belongs to its key, and if it is finished it was not stopped. */
  predicate KeyWell(s: State, key: Key)
    requires key in s.units
  {
    var e := s.units[key];
    e < |s.entries| && s.entries[e].key == key && (s.entries[e].done ==> s.entries[e].result != Some(Stopped))
  }

  predicate KeeperWell(s: State, j: nat)
    requires j < |s.keepers|
  {
    (s.keepers[j].sweep.Sweeping? <==> s.lock == KeeperHolds(j))
      && (s.keepers[j].sweep.Sweeping? ==> s.keepers[j].sweep.left <= s.units.Keys)
  }

  predicate Well(s: State) {
    && (forall i {:trigger CallerWell(s, i)} :: 0 <= i < |s.callers| ==> CallerWell(s, i))
    && (forall e {:trigger EntryWell(s, e)} :: 0 <= e < |s.entries| ==> EntryWell(s, e))
    && (forall key {:trigger KeyWell(s, key)} :: key in s.units ==> KeyWell(s, key))
    && (forall j {:trigger KeeperWell(s, j)} :: 0 <= j < |s.keepers| ==> KeeperWell(s, j))
    && (forall i :: i in s.parses ==> i < |s.callers|) && |s.parses| <= SLOTS
    && (s.lock.CallerHolds? ==> s.lock.i < |s.callers|) && (s.lock.KeeperHolds? ==> s.lock.j < |s.keepers|)
  }

  /** The caller a step is of, if any. */
  function Actor(a: Action): Option<nat> {
    match a
    case KeepLock(_) => None
    case KeepLook(_, _) => None
    case KeepUnlock(_) => None
    case _ => Some(a.i)
  }

  /** What the step of one caller may rely on. */
  predicate ActorWell(s: State, a: Action) {
    match Actor(a)
    case Some(i) => i < |s.callers| && CallerWell(s, i)
    case None => a.j < |s.keepers| && KeeperWell(s, a.j)
  }

  lemma {:induction false} ActorIn(s: State, a: Action)
    requires Well(s) && Enabled(s, a)
    ensures ActorWell(s, a)
  {
    match Actor(a)
    case Some(i) => assert CallerWell(s, i);
    case None => assert KeeperWell(s, a.j);
  }

  lemma {:induction false} LocksStep(s: State, a: Action, i: nat)
    requires Enabled(s, a) && i < |s.callers| && CallerLocks(s, i)
    requires match Actor(a) case Some(k) => k < |s.callers| && CallerLocks(s, k)
             case None => a.j < |s.keepers| && KeeperWell(s, a.j)
    ensures CallerLocks(Next(s, a), i)
  {
  }

  /** Steps up to the parse. */
  predicate Early(a: Action) {
    a.Lock? || a.LookUp? || a.Unlock? || a.Receive? || a.Acquire? || a.Cancel?
  }

  lemma {:induction false} EarlyStep(s: State, a: Action, i: nat)
    requires Enabled(s, a) && Actor(a) == Some(i) && Early(a) && i < |s.callers| && CallerEntry(s, i)
    requires s.callers[i].key in s.units ==> KeyWell(s, s.callers[i].key)
    ensures CallerEntry(Next(s, a), i)
  {
  }

  lemma {:induction false} LateStep(s: State, a: Action, i: nat)
    requires Enabled(s, a) && Actor(a) == Some(i) && !Early(a) && i < |s.callers| && CallerEntry(s, i)
    ensures CallerEntry(Next(s, a), i)
  {
  }

  /** A caller's own step keeps what holds of its entry. */
  lemma {:induction false} OwnStep(s: State, a: Action, i: nat)
    requires Enabled(s, a) && Actor(a) == Some(i) && i < |s.callers| && CallerEntry(s, i)
    requires s.callers[i].key in s.units ==> KeyWell(s, s.callers[i].key)
    ensures CallerEntry(Next(s, a), i)
  {
    if Early(a) { EarlyStep(s, a, i); } else { LateStep(s, a, i); }
  }

  /** Another's step keeps it too. */
  lemma {:induction false} OtherStep(s: State, a: Action, i: nat)
    requires Enabled(s, a) && Actor(a).Some? && Actor(a) != Some(i) && i < |s.callers| && CallerEntry(s, i)
    requires a.i < |s.callers| && CallerEntry(s, a.i)
    ensures CallerEntry(Next(s, a), i)
  {
  }

  lemma {:induction false} KeepStep(s: State, a: Action, i: nat)
    requires Enabled(s, a) && Actor(a).None? && i < |s.callers| && CallerEntry(s, i)
    ensures CallerEntry(Next(s, a), i)
  {
  }

  lemma {:induction false} EntryEarly(s: State, a: Action, e: nat)
    requires Enabled(s, a) && ActorWell(s, a) && (Early(a) || Actor(a).None?) && e < |s.entries| && EntryWell(s, e)
    ensures EntryWell(Next(s, a), e)
  {
  }

  lemma {:induction false} EntryLate(s: State, a: Action, e: nat)
    requires Enabled(s, a) && ActorWell(s, a) && !Early(a) && Actor(a).Some? && e < |s.entries| && EntryWell(s, e)
    ensures EntryWell(Next(s, a), e)
  {
  }

  lemma {:induction false} NewEntry(s: State, a: Action, e: nat)
    requires Enabled(s, a) && |s.entries| <= e < |Next(s, a).entries| && ActorWell(s, a)
    ensures EntryWell(Next(s, a), e)
  {
  }

  lemma {:induction false} KeyStep(s: State, a: Action, key: Key)
    requires Enabled(s, a) && ActorWell(s, a) && key in Next(s, a).units && (key in s.units ==> KeyWell(s, key))
    ensures KeyWell(Next(s, a), key)
  {
  }

  lemma {:induction false} KeeperStep(s: State, a: Action, j: nat)
    requires Enabled(s, a) && ActorWell(s, a) && j < |s.keepers| && KeeperWell(s, j)
    ensures KeeperWell(Next(s, a), j)
  {
  }

  lemma {:induction false} WellNext(s: State, a: Action)
    requires Well(s) && Enabled(s, a)
    ensures Well(Next(s, a))
  {
    var n := Next(s, a);
    ActorIn(s, a);
    forall i | 0 <= i < |n.callers| ensures CallerWell(n, i) {
      assert CallerWell(s, i);
      LocksStep(s, a, i);
      if Actor(a) == Some(i) {
        if s.callers[i].key in s.units { assert KeyWell(s, s.callers[i].key); }
        OwnStep(s, a, i);
      } else if Actor(a).Some? {
        OtherStep(s, a, i);
      } else {
        KeepStep(s, a, i);
      }
    }
    forall e | 0 <= e < |n.entries| ensures EntryWell(n, e) {
      if e < |s.entries| {
        assert EntryWell(s, e);
        if Early(a) || Actor(a).None? { EntryEarly(s, a, e); } else { EntryLate(s, a, e); }
      } else { NewEntry(s, a, e); }
    }
    forall key | key in n.units ensures KeyWell(n, key) {
      if key in s.units { assert KeyWell(s, key); }
      KeyStep(s, a, key);
    }
    forall j | 0 <= j < |n.keepers| ensures KeeperWell(n, j) {
      assert KeeperWell(s, j);
      KeeperStep(s, a, j);
    }
    ParsesNext(s, a);
    LockNext(s, a);
  }

  lemma {:induction false} ParsesNext(s: State, a: Action)
    requires Enabled(s, a) && (forall i :: i in s.parses ==> i < |s.callers|) && |s.parses| <= SLOTS
    ensures var n := Next(s, a);
            |n.callers| == |s.callers| && |n.keepers| == |s.keepers| && (forall i :: i in n.parses ==> i < |n.callers|)
              && |n.parses| <= SLOTS
  {
    if a.Finish? { assert |s.parses - {a.i}| <= |s.parses|; }
  }

  lemma {:induction false} LockNext(s: State, a: Action)
    requires Enabled(s, a)
    ensures var l := Next(s, a).lock;
            l == s.lock || l == Nobody || (l.CallerHolds? && l.i < |s.callers|) || (l.KeeperHolds? && l.j < |s.keepers|)
  {
  }

  /** All of this holds in every state the callers can bring the store to. */
  lemma {:induction false} WellRun(s: State, actions: seq<Action>)
    requires Run(s, actions) && Well(s)
    ensures Well(End(s, actions))
    decreases |actions|
  {
    if actions != [] {
      WellNext(s, actions[0]);
      WellRun(Next(s, actions[0]), actions[1..]);
    }
  }

  predicate Reachable(s0: State, actions: seq<Action>, s: State) {
    Initial(s0) && Run(s0, actions) && End(s0, actions) == s
  }

  // ----- what the store promises -----

  /** No key is parsed by two callers at once. */
  lemma {:induction false} OneParsePerKey(s0: State, actions: seq<Action>, s: State, a: nat, b: nat)
    requires Reachable(s0, actions, s)
    requires a < |s.callers| && b < |s.callers| && s.callers[a].key == s.callers[b].key
    requires s.callers[a].place.Parsing? && s.callers[b].place.Parsing?
    ensures a == b
  {
    WellRun(s0, actions);
    assert CallerWell(s, a) && CallerWell(s, b);
  }

  /** No more than four parses run. */
  lemma {:induction false} AtMostFourParses(s0: State, actions: seq<Action>, s: State, parsing: set<nat>)
    requires Reachable(s0, actions, s)
    requires forall i :: i in parsing ==> i < |s.callers| && s.callers[i].place.Parsing?
    ensures |parsing| <= 4
  {
    WellRun(s0, actions);
    forall i | i in parsing ensures i in s.parses { assert CallerWell(s, i); }
    Fewer(parsing, s.parses);
  }

  lemma {:induction false} Fewer(a: set<nat>, b: set<nat>)
    requires a <= b
    ensures |a| <= |b|
  {
    assert a + (b - a) == b;
  }

  /** Until its owner takes it out, an entry in flight is the one the map holds for its key:
      who asks meanwhile waits for it. */
  lemma {:induction false} InFlightIsHeld(s0: State, actions: seq<Action>, s: State, e: nat)
    requires Reachable(s0, actions, s) && e < |s.entries| && !s.entries[e].done
    ensures s.entries[e].owner < |s.callers|
    ensures (s.entries[e].key in s.units && s.units[s.entries[e].key] == e)
            <==> !TakenOut(s.callers[s.entries[e].owner].place)
  {
    WellRun(s0, actions);
    assert EntryWell(s, e) && CallerWell(s, s.entries[e].owner);
  }

  /** `Keep` releases finished entries no program needs, and nothing else ever leaves the map
      but an entry whose own caller was cancelled. */
  lemma {:induction false} RemovedOnlyFinished(s0: State, actions: seq<Action>, s: State, a: Action, key: Key)
    requires Reachable(s0, actions, s) && Enabled(s, a) && key in s.units && key !in Next(s, a).units
    ensures s.units[key] < |s.entries|
    ensures a.KeepLook? ==> a.j < |s.keepers| && key !in s.keepers[a.j].needed && s.entries[s.units[key]].done
    ensures !a.KeepLook? ==>
            a.Delete? && a.i < |s.callers| && s.callers[a.i].cancelled
            && s.entries[s.units[key]].owner == a.i && !s.entries[s.units[key]].done
  {
    WellRun(s0, actions);
    ActorIn(s, a);
    assert KeyWell(s, key);
  }

  /** A finished entry in the map was never stopped, so no later caller gets a stranger's
      cancellation. */
  lemma {:induction false} NoStoppedResultStays(s0: State, actions: seq<Action>, s: State, key: Key)
    requires Reachable(s0, actions, s) && key in s.units
    ensures s.units[key] < |s.entries|
    ensures s.entries[s.units[key]].done ==> s.entries[s.units[key]].result != Some(Stopped)
  {
    WellRun(s0, actions);
    assert KeyWell(s, key);
  }

  /** Who waits returns what the parse gave, or stops because its own context is cancelled.
      The parse may have been stopped by its owner's context: then who waits is stopped too. */
  lemma {:induction false} WaiterReturns(s0: State, actions: seq<Action>, s: State, a: Action, i: nat)
    requires Reachable(s0, actions, s) && Enabled(s, a)
    requires i < |s.callers| && s.callers[i].place.Waiting? && Next(s, a).callers[i].place.Returned?
    ensures var e := s.callers[i].place.entry;
            var r := Next(s, a).callers[i].place.result;
            && e < |s.entries| && s.entries[e].key == s.callers[i].key && s.entries[e].owner < |s.callers|
            && ((s.entries[e].done && s.entries[e].result == Some(r)) || (r == Stopped && s.callers[i].cancelled))
            && (r == Stopped ==> s.callers[i].cancelled || s.callers[s.entries[e].owner].cancelled)
  {
    WellRun(s0, actions);
    assert CallerWell(s, i);
    assert EntryWell(s, s.callers[i].place.entry);
  }

  // ----- everyone returns -----

  function PlaceRank(p: Place): nat {
    match p
    case Start => 11
    case Looking => 10
    case Unlocking(_, _) => 9
    case Acquiring(_) => 8
    case Parsing(_) => 7
    case Settled(_) => 6
    case Relocking(_) => 5
    case Deleting(_) => 4
    case Releasing(_) => 3
    case Closing(_, _) => 2
    case Waiting(_) => 1
    case Returned(_) => 0
  }

  function CallerRank(c: Caller): nat {
    PlaceRank(c.place) + if c.cancelled then 0 else 1
  }

  /** A sweep looks at no more keys than there are callers. */
  function KeeperRank(k: Keeper, callers: nat): nat {
    match k.sweep
    case Before => callers + 2
    case Sweeping(left) => |left| + 1
    case After => 0
  }

  function CallersRank(callers: seq<Caller>): nat {
    if callers == [] then 0 else CallersRank(callers[..|callers|-1]) + CallerRank(callers[|callers|-1])
  }

  function KeepersRank(keepers: seq<Keeper>, callers: nat): nat {
    if keepers == [] then 0
    else KeepersRank(keepers[..|keepers|-1], callers) + KeeperRank(keepers[|keepers|-1], callers)
  }

  /** The steps left at most. */
  function Rank(s: State): nat {
    CallersRank(s.callers) + KeepersRank(s.keepers, |s.callers|)
  }

  lemma {:induction false} CallersUpdate(callers: seq<Caller>, i: nat, c: Caller)
    requires i < |callers|
    ensures CallersRank(callers[i := c]) == CallersRank(callers) - CallerRank(callers[i]) + CallerRank(c)
  {
    var last := |callers| - 1;
    if i == last { assert callers[i := c][..last] == callers[..last]; }
    else {
      CallersUpdate(callers[..last], i, c);
      assert callers[i := c][..last] == callers[..last][i := c];
    }
  }

  lemma {:induction false} KeepersUpdate(keepers: seq<Keeper>, callers: nat, j: nat, k: Keeper)
    requires j < |keepers|
    ensures KeepersRank(keepers[j := k], callers) == KeepersRank(keepers, callers) - KeeperRank(keepers[j], callers)
            + KeeperRank(k, callers)
  {
    var last := |keepers| - 1;
    if j == last { assert keepers[j := k][..last] == keepers[..last]; }
    else {
      KeepersUpdate(keepers[..last], callers, j, k);
      assert keepers[j := k][..last] == keepers[..last][j := k];
    }
  }

  /** Every key in the map was asked for. */
  predicate AskedFor(s: State) {
    s.units.Keys <= KeysOf(s.callers)
  }

  function KeysOf(callers: seq<Caller>): set<Key> {
    if callers == [] then {} else KeysOf(callers[..|callers|-1]) + {callers[|callers|-1].key}
  }

  lemma {:induction false} KeysAre(callers: seq<Caller>, i: nat)
    requires i < |callers|
    ensures callers[i].key in KeysOf(callers)
  {
    if i < |callers| - 1 { KeysAre(callers[..|callers|-1], i); }
  }

  lemma {:induction false} KeysFew(callers: seq<Caller>)
    ensures |KeysOf(callers)| <= |callers|
  {
    if callers != [] { KeysFew(callers[..|callers|-1]); }
  }

  lemma {:induction false} KeysSame(callers: seq<Caller>, i: nat, c: Caller)
    requires i < |callers| && c.key == callers[i].key
    ensures KeysOf(callers[i := c]) == KeysOf(callers)
  {
    var last := |callers| - 1;
    if i == last { assert callers[i := c][..last] == callers[..last]; }
    else {
      KeysSame(callers[..last], i, c);
      assert callers[i := c][..last] == callers[..last][i := c];
    }
  }

  lemma {:induction false} AskedForNext(s: State, a: Action)
    requires Enabled(s, a) && AskedFor(s) && ActorWell(s, a)
    ensures AskedFor(Next(s, a))
  {
    var n := Next(s, a);
    if Actor(a).Some? {
      assert n.callers == s.callers[a.i := n.callers[a.i]];
      KeysSame(s.callers, a.i, n.callers[a.i]);
      KeysAre(s.callers, a.i);
    }
  }

  lemma {:induction false} KeysFewer(a: set<Key>, b: set<Key>)
    requires a <= b
    ensures |a| <= |b|
  {
    assert a + (b - a) == b;
  }

  lemma {:induction false} OneMoves(s: State, a: Action, i: nat)
    requires Enabled(s, a) && Actor(a) == Some(i) && i < |s.callers|
    ensures var n := Next(s, a);
            && |n.callers| == |s.callers| && n.keepers == s.keepers
            && forall k :: 0 <= k < |s.callers| && k != i ==> n.callers[k] == s.callers[k]
  {
  }

  lemma {:induction false} CallerFalls(s: State, a: Action, i: nat)
    requires Enabled(s, a) && Actor(a) == Some(i) && i < |s.callers| && i < |Next(s, a).callers|
    ensures CallerRank(Next(s, a).callers[i]) < CallerRank(s.callers[i])
  {
    if Early(a) { EarlyFalls(s, a, i); } else { LateFalls(s, a, i); }
  }

  lemma {:induction false} EarlyFalls(s: State, a: Action, i: nat)
    requires Enabled(s, a) && Actor(a) == Some(i) && Early(a) && i < |s.callers| && i < |Next(s, a).callers|
    ensures CallerRank(Next(s, a).callers[i]) < CallerRank(s.callers[i])
  {
  }

  lemma {:induction false} LateFalls(s: State, a: Action, i: nat)
    requires Enabled(s, a) && Actor(a) == Some(i) && !Early(a) && i < |s.callers| && i < |Next(s, a).callers|
    ensures CallerRank(Next(s, a).callers[i]) < CallerRank(s.callers[i])
  {
  }

  lemma {:induction false} KeeperFalls(s: State, a: Action)
    requires Enabled(s, a) && Actor(a) == None && |s.units.Keys| <= |s.callers| && a.j < |s.keepers|
    ensures var n := Next(s, a);
            && n.callers == s.callers && |n.keepers| == |s.keepers| && n.keepers == s.keepers[a.j := n.keepers[a.j]]
            && KeeperRank(n.keepers[a.j], |s.callers|) < KeeperRank(s.keepers[a.j], |s.callers|)
  {
  }

  /** Every step brings the end closer. */
  lemma {:induction false} RankFalls(s: State, a: Action)
    requires Enabled(s, a) && AskedFor(s) && ActorWell(s, a)
    ensures Rank(Next(s, a)) < Rank(s)
  {
    var n := Next(s, a);
    if Actor(a).Some? {
      OneMoves(s, a, a.i);
      CallerFalls(s, a, a.i);
      assert n.callers == s.callers[a.i := n.callers[a.i]];
      CallersUpdate(s.callers, a.i, n.callers[a.i]);
    } else {
      KeysFew(s.callers);
      KeysFewer(s.units.Keys, KeysOf(s.callers));
      KeeperFalls(s, a);
      KeepersUpdate(s.keepers, |s.callers|, a.j, n.keepers[a.j]);
    }
  }

  /** No run is longer than that. */
  lemma {:induction false} RunsEnd(s: State, actions: seq<Action>)
    requires Well(s) && AskedFor(s) && Run(s, actions)
    ensures |actions| + Rank(End(s, actions)) <= Rank(s)
    decreases |actions|
  {
    if actions != [] {
      ActorIn(s, actions[0]);
      RankFalls(s, actions[0]);
      WellNext(s, actions[0]);
      AskedForNext(s, actions[0]);
      RunsEnd(Next(s, actions[0]), actions[1..]);
    }
  }

  predicate Finished(s: State) {
    (forall i :: 0 <= i < |s.callers| ==> s.callers[i].place.Returned?) && forall j :: 0 <= j < |s.keepers| ==>
      s.keepers[j].sweep.After?
  }

  /** Who holds the lock can go on. */
  lemma {:induction false} HolderGoesOn(s: State) returns (a: Action)
    requires Well(s) && !s.lock.Nobody?
    ensures Enabled(s, a) && !a.Cancel?
  {
    match s.lock
    case CallerHolds(i) =>
      assert CallerWell(s, i);
      var p := s.callers[i].place;
      a := if p.Looking? then LookUp(i) else if p.Unlocking? then Unlock(i) else if p.Deleting? then Delete(i)
        else UnlockAgain(i);
    case KeeperHolds(j) =>
      assert KeeperWell(s, j);
      var left := s.keepers[j].sweep.left;
      if left == {} { a := KeepUnlock(j); }
      else {
        var key :| key in left;
        assert KeyWell(s, key);
        a := KeepLook(j, key);
      }
  }

  /** With the lock free, the owner of an entry can go on, or one of those that parse can. */
  lemma {:induction false} OwnerGoesOn(s: State, i: nat) returns (a: Action)
    requires Well(s) && s.lock.Nobody? && i < |s.callers| && Owned(s.callers[i].place).Some?
    ensures Enabled(s, a) && !a.Cancel?
  {
    assert CallerWell(s, i);
    match s.callers[i].place
    case Acquiring(_) =>
      if |s.parses| < SLOTS { a := Acquire(i); }
      else {
        assert s.parses != {};
        var k :| k in s.parses;
        assert CallerWell(s, k);
        a := Finish(k, Failure);
      }
    case Parsing(_) => a := Finish(i, Failure);
    case Settled(_) => a := Check(i);
    case Relocking(_) => a := LockAgain(i);
    case Closing(_, _) => a := Close(i);
  }

  /** Short of the end some step other than a cancellation can be taken. */
  lemma {:induction false} NoDeadlock(s: State) returns (a: Action)
    requires Well(s) && !Finished(s)
    ensures Enabled(s, a) && !a.Cancel?
  {
    if !s.lock.Nobody? { a := HolderGoesOn(s); return; }
    if j :| 0 <= j < |s.keepers| && !s.keepers[j].sweep.After? {
      assert KeeperWell(s, j);
      a := KeepLock(j);
    } else {
      var i :| 0 <= i < |s.callers| && !s.callers[i].place.Returned?;
      assert CallerWell(s, i);
      var p := s.callers[i].place;
      if p.Start? { a := Lock(i); }
      else if p.Waiting? {
        assert EntryWell(s, p.entry);
        if s.entries[p.entry].done { a := Receive(i); } else { a := OwnerGoesOn(s, s.entries[p.entry].owner); }
      }
      else { a := OwnerGoesOn(s, i); }
    }
  }

  /** However its callers, their cancellations and `Keep` interleave, the store takes no more
      than so many steps, and where it can go no further everyone has returned. */
  lemma {:induction false} EveryoneReturns(s0: State, actions: seq<Action>, s: State)
    requires Reachable(s0, actions, s)
    ensures |actions| <= Rank(s0)
    ensures (forall a :: Enabled(s, a) ==> a.Cancel?) ==> Finished(s)
  {
    RunsEnd(s0, actions);
    WellRun(s0, actions);
    if !Finished(s) { var a := NoDeadlock(s); assert Enabled(s, a); }
  }
}
