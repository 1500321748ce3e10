/** What callers of the unit store are given, what stays in it and what a sweep takes out of it, over
    whole runs (internal/cproject/native.go:320-380). */
module UnitStoreResults {
  import opened UnitStore

  // ----- results -----

  /** An entry's result is the one its owner's parse gave, or that it stopped before parsing. */
  lemma {:induction false} ResultRecorded(s: State, a: Action, i: nat)
    requires Well(s) && Enabled(s, a) && Actor(a) == Some(i) && (a.Finish? || a.GiveUp?)
    ensures i < |s.callers|
    ensures a.Finish? ==>
            var e := s.callers[i].place.entry; e < |s.entries| && Next(s, a).entries[e].result == Some(a.result)
    ensures a.GiveUp? && s.callers[i].place.Acquiring? ==>
            var e := s.callers[i].place.entry;
            s.callers[i].cancelled && e < |s.entries| && Next(s, a).entries[e].result == Some(Stopped)
  {
    assert CallerWell(s, i);
  }

  /** The entry's result, once given, and that it is finished, once it is. */
  predicate Stays(s: State, t: State, e: nat) {
    && e < |s.entries| && e < |t.entries|
    && t.entries[e].key == s.entries[e].key && t.entries[e].owner == s.entries[e].owner
    && (s.entries[e].done ==> t.entries[e].done)
    && (s.entries[e].result.Some? ==> t.entries[e].result == s.entries[e].result)
  }

  lemma {:induction false} StepStays(s: State, a: Action, e: nat)
    requires Well(s) && Enabled(s, a) && e < |s.entries|
    ensures Stays(s, Next(s, a), e)
  {
    ActorIn(s, a);
    if Actor(a).Some? { assert CallerWell(s, a.i); }
  }

  /** Whatever happens, a parse keeps the result it has. */
  lemma {:induction false} ResultStays(s: State, actions: seq<Action>, e: nat)
    requires Well(s) && Run(s, actions) && e < |s.entries|
    ensures Stays(s, End(s, actions), e)
    decreases |actions|
  {
    if actions != [] {
      StepStays(s, actions[0], e);
      WellNext(s, actions[0]);
      ResultStays(Next(s, actions[0]), actions[1..], e);
    }
  }

  /** The caller returns in this step. */
  predicate Returns(s: State, a: Action, i: nat) {
    && Enabled(s, a) && i < |s.callers| && i < |Next(s, a).callers|
    && !s.callers[i].place.Returned? && Next(s, a).callers[i].place.Returned?
  }

  lemma {:induction false} ReturnStep(s: State, a: Action, i: nat)
    requires Returns(s, a, i)
    ensures a == Receive(i) || a == Close(i) || (a == GiveUp(i) && s.callers[i].place.Waiting?)
  {
  }

  /** The owner of an entry returns the entry's result, and with that the entry is finished. */
  lemma {:induction false} OwnerReturns(s: State, a: Action, i: nat)
    requires Well(s) && Returns(s, a, i) && Owned(s.callers[i].place).Some?
    ensures var e := Owned(s.callers[i].place).value;
            && e < |s.entries| && s.entries[e].owner == i && s.entries[e].key == s.callers[i].key
            && s.entries[e].result == Some(Next(s, a).callers[i].place.result)
            && Next(s, a).entries[e].done
  {
    ReturnStep(s, a, i);
    assert CallerWell(s, i);
    assert a == Close(i);
  }

  /** What the entry of a key says to a caller that was not itself cancelled. */
  predicate Told(s: State, e: nat, r: Result) {
    e < |s.entries| && s.entries[e].result == Some(r)
  }

  lemma {:induction false} ReturnTold(s: State, a: Action, i: nat) returns (e: nat)
    requires Well(s) && Returns(s, a, i) && !(s.callers[i].cancelled && Next(s, a).callers[i].place.result == Stopped)
    ensures Told(Next(s, a), e, Next(s, a).callers[i].place.result)
    ensures s.callers[i].place.Waiting? ==> e == s.callers[i].place.entry
    ensures Owned(s.callers[i].place).Some? ==> e == Owned(s.callers[i].place).value
    ensures Next(s, a).entries[e].key == s.callers[i].key
  {
    assert CallerWell(s, i);
    ActorIn(s, a);
    e := if s.callers[i].place.Waiting? then s.callers[i].place.entry else Owned(s.callers[i].place).value;
  }

  /** Everyone who asked for one parse is given the same: what its owner returns, whoever waited returns,
      but those that were cancelled themselves. */
  lemma {:induction false} AllToldTheSame(s: State, a: Action, i: nat, actions: seq<Action>, t: State, b: Action,
                                          k: nat, e: nat)
    requires Well(s) && Returns(s, a, i) && Run(Next(s, a), actions) && t == End(Next(s, a), actions)
             && Returns(t, b, k)
    requires s.callers[i].place.Waiting? || s.callers[i].place.Closing?
    requires t.callers[k].place.Waiting? || t.callers[k].place.Closing?
    requires s.callers[i].place.entry == e && t.callers[k].place.entry == e
    requires !(s.callers[i].cancelled && Next(s, a).callers[i].place.result == Stopped)
    requires !(t.callers[k].cancelled && Next(t, b).callers[k].place.result == Stopped)
    ensures Next(s, a).callers[i].place.result == Next(t, b).callers[k].place.result
  {
    var e0 := ReturnTold(s, a, i);
    WellNext(s, a);
    ResultStays(Next(s, a), actions, e);
    WellRun(Next(s, a), actions);
    StepStays(t, b, e);
    var e1 := ReturnTold(t, b, k);
  }

  // ----- what leaves the map -----

  /** A parsed unit never leaves the map but by a sweep. */
  lemma {:induction false} UnitsStay(s: State, a: Action, key: Key)
    requires Well(s) && Enabled(s, a) && key in s.units && key !in Next(s, a).units && !a.KeepLook?
    ensures var e := s.units[key];
            && e < |s.entries| && (s.entries[e].result == Some(Failure) || s.entries[e].result == Some(Stopped))
            && s.entries[e].owner < |s.callers| && s.callers[s.entries[e].owner].cancelled
  {
    ActorIn(s, a);
    assert KeyWell(s, key);
    assert CallerWell(s, a.i);
  }

  /** An owner goes to take its entry out exactly when it was cancelled and its parse gave no unit. */
  lemma {:induction false} CheckDecides(s: State, i: nat)
    requires Enabled(s, Check(i)) && i < |s.callers|
    ensures var e := s.callers[i].place.entry;
            && e < |s.entries|
            && (Next(s, Check(i)).callers[i].place.Relocking? <==>
                s.callers[i].cancelled && s.entries[e].result in {Some(Failure), Some(Stopped)})
            && (!Next(s, Check(i)).callers[i].place.Relocking? ==>
                  Next(s, Check(i)).callers[i].place == Closing(e, false))
  {
    var result := s.entries[s.callers[i].place.entry].result;
    if result.Some? { assert result.value.Unit? || result.value.Failure? || result.value.Stopped?; }
  }

  /** The step takes the finished entry out exactly where nobody needs it. */
  lemma {:induction false} LookTakes(s: State, a: Action)
    requires Enabled(s, a) && a.KeepLook?
    ensures a.j < |s.keepers| && a.key in s.units && s.units[a.key] < |s.entries|
    ensures a.key !in Next(s, a).units <==> a.key !in s.keepers[a.j].needed && s.entries[s.units[a.key]].done
    ensures forall key :: key != a.key ==> (key in Next(s, a).units <==> key in s.units)
  {
  }

  /** While the sweep goes on: the finished entry nobody needs is still to be looked at, or is gone. */
  predicate Swept(s: State, j: nat, key: Key) {
    && j < |s.keepers| && s.keepers[j].sweep.Sweeping? && key !in s.keepers[j].needed
    && (key in s.units ==>
          key in s.keepers[j].sweep.left && s.units[key] < |s.entries| && s.entries[s.units[key]].done)
  }

  lemma {:induction false} SweepStarts(s: State, j: nat, key: Key)
    requires Well(s) && Enabled(s, KeepLock(j)) && key in s.units && key !in s.keepers[j].needed
    requires s.units[key] < |s.entries| && s.entries[s.units[key]].done
    ensures Swept(Next(s, KeepLock(j)), j, key)
  {
  }

  /** The callers and keepers whose steps change the map are kept out by the lock. */
  lemma {:induction false} LockedOut(s: State, a: Action, j: nat)
    requires Well(s) && Enabled(s, a) && j < |s.keepers| && s.keepers[j].sweep.Sweeping?
    ensures !a.LookUp? && !a.Delete? && !a.KeepLock? && (a.KeepLook? || a.KeepUnlock? ==> a.j == j)
  {
    ActorIn(s, a);
    assert KeeperWell(s, j);
    if Actor(a).Some? { assert CallerWell(s, a.i); } else { assert KeeperWell(s, a.j); }
  }

  lemma {:induction false} SweepGoesOn(s: State, a: Action, j: nat, key: Key)
    requires Well(s) && Enabled(s, a) && Swept(s, j, key)
    ensures var n := Next(s, a);
            if a == KeepUnlock(j) then key !in s.units && key !in n.units else Swept(n, j, key)
  {
    LockedOut(s, a, j);
    ActorIn(s, a);
    assert KeeperWell(s, j);
    if key in s.units { StepStays(s, a, s.units[key]); }
  }

  /** No keeper's sweep ends in these steps. */
  predicate Unended(actions: seq<Action>, j: nat) {
    forall k :: 0 <= k < |actions| ==> actions[k] != KeepUnlock(j)
  }

  lemma {:induction false} SweepRuns(s: State, actions: seq<Action>, j: nat, key: Key)
    requires Well(s) && Run(s, actions) && Unended(actions, j) && Swept(s, j, key)
    ensures Swept(End(s, actions), j, key)
    decreases |actions|
  {
    if actions != [] {
      assert actions[0] != KeepUnlock(j);
      SweepGoesOn(s, actions[0], j, key);
      WellNext(s, actions[0]);
      assert Unended(actions[1..], j);
      SweepRuns(Next(s, actions[0]), actions[1..], j, key);
    }
  }

  /** When `Keep` ends, no unit that was finished when it began and that it does not need is left. */
  lemma {:induction false} KeepReleases(s: State, j: nat, actions: seq<Action>, t: State, key: Key)
    requires Well(s) && Enabled(s, KeepLock(j)) && key in s.units && key !in s.keepers[j].needed
    requires s.units[key] < |s.entries| && s.entries[s.units[key]].done
    requires Run(Next(s, KeepLock(j)), actions) && Unended(actions, j) && t == End(Next(s, KeepLock(j)), actions)
    requires Enabled(t, KeepUnlock(j))
    ensures key !in t.units && key !in Next(t, KeepUnlock(j)).units
  {
    SweepStarts(s, j, key);
    WellNext(s, KeepLock(j));
    SweepRuns(Next(s, KeepLock(j)), actions, j, key);
    WellRun(Next(s, KeepLock(j)), actions);
    SweepGoesOn(t, KeepUnlock(j), j, key);
  }

  /** And every unit it needs that was there when it began is there when it ends: while it sweeps nobody
      else takes anything out. */
  lemma {:induction false} KeepSpares(s: State, j: nat, actions: seq<Action>, t: State, key: Key)
    requires Well(s) && j < |s.keepers| && s.keepers[j].sweep.Sweeping? && key in s.units && key in s.keepers[j].needed
    requires Run(s, actions) && Unended(actions, j) && t == End(s, actions)
    ensures key in t.units && t.units[key] == s.units[key]
    decreases |actions|
  {
    if actions != [] {
      var a := actions[0];
      assert a != KeepUnlock(j);
      LockedOut(s, a, j);
      ActorIn(s, a);
      WellNext(s, a);
      assert Unended(actions[1..], j);
      KeepSpares(Next(s, a), j, actions[1..], t, key);
    }
  }
}
