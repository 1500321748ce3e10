/** The walk that records what a program stores, passes and lets escape, and the answer for one
    slot (internal/cproject/resolve.go:1069, 1382, 1569, 1665). */
module PointsToBuilder {
  import opened PointsTo

  datatype PassedAt = PassedAt(position: nat, value: Passed)

  function StoredIn(log: seq<Fact>, key: Key): seq<Stored> {
    if log == [] then []
    else
      var last := log[|log|-1];
      StoredIn(log[..|log|-1], key) + if last.Stores? && last.key == key then [last.what] else []
  }

  function PassedIn(log: seq<Fact>, f: string): seq<PassedAt> {
    if log == [] then []
    else
      var last := log[|log|-1];
      PassedIn(log[..|log|-1], f) + if last.Passes? && last.f == f then [PassedAt(last.position, last.value)] else []
  }

  lemma {:induction false} StoredMembers(log: seq<Fact>, key: Key, what: Stored)
    ensures what in StoredIn(log, key) <==> Stores(key, what) in log
  {
    if log != [] {
      StoredMembers(log[..|log|-1], key, what);
      assert log == log[..|log|-1] + [log[|log|-1]];
    }
  }

  lemma {:induction false} PassedMembers(log: seq<Fact>, f: string, position: nat, value: Passed)
    ensures PassedAt(position, value) in PassedIn(log, f) <==> Passes(f, position, value) in log
  {
    if log != [] {
      PassedMembers(log[..|log|-1], f, position, value);
      assert log == log[..|log|-1] + [log[|log|-1]];
    }
  }

  function ListAt<K, V>(m: map<K, seq<V>>, k: K): seq<V> {
    if k in m then m[k] else []
  }

  class Builder {
    const p: Program
    var stores: map<Key, seq<Stored>>
    var passedTo: map<string, seq<PassedAt>>
    var escaped: set<string>
    ghost var log: seq<Fact>

    constructor (p: Program)
      ensures this.p == p && Valid() && log == [] && escaped == {}
    {
      this.p := p;
      stores, passedTo, escaped, log := map[], map[], {}, [];
    }

    ghost predicate Valid()
      reads this
    {
      && (forall key :: ListAt(stores, key) == StoredIn(log, key))
      && (forall f :: ListAt(passedTo, f) == PassedIn(log, f))
    }

    method AddStore(key: Key, what: Stored)
      requires Valid()
      modifies this`stores, this`log
      ensures Valid() && log == old(log) + [Stores(key, what)]
    {
      stores := stores[key := ListAt(stores, key) + [what]];
      log := log + [Stores(key, what)];
      assert log[..|log|-1] == old(log);
    }

    method AddPassed(f: string, at: PassedAt)
      requires Valid()
      modifies this`passedTo, this`log
      ensures Valid() && log == old(log) + [Passes(f, at.position, at.value)]
    {
      passedTo := passedTo[f := ListAt(passedTo, f) + [at]];
      log := log + [Passes(f, at.position, at.value)];
      assert log[..|log|-1] == old(log);
    }

    /** Records what a value puts into a slot. */
    method Store(owner: Owner, into: Key, value: Expr)
      requires Valid()
      modifies this`stores, this`log
      ensures Valid() && log == old(log) + StoreFacts(p, owner, into, value)
    {
      if IsNull(value) { return; }
      var from := Unwrap(value);
      if !from.Named? && !from.Parameter? && !from.Variable? && SlotOf(from) == Some(into) { return; }
      var what := Unknown;
      match Designator(value) {
        case Some(name) =>
          var target := TargetOf(p, name);
          if target.Known? { what := Function(target.ref); }
        case None =>
          if from.Parameter? && owner == Body(from.fn) { what := ParameterOf(from.fn, from.position); }
      }
      AddStore(into, what);
    }

    /** Records that the address of a slot leaves the code that is read. */
    method EscapeSlot(value: Expr)
      requires Valid()
      modifies this`stores, this`log
      ensures Valid() && log == old(log) + EscapeFacts(p, value)
    {
      var whole := ArrayOf(value);
      if whole.Some? && whole.value in p.constants { return; }
      var into := SlotOf(value);
      if into.Some? { AddStore(into.value, Unknown); }
    }

    method AssignTo(owner: Owner, left: Expr, right: Expr)
      requires Valid()
      modifies this`stores, this`log
      ensures Valid() && log == old(log) + AssignFacts(p, owner, left, right)
    {
      var into := SlotOf(left);
      if into.None? { return; }
      if into.value.Param? {
        if !IsNull(right) { AddStore(into.value, Unknown); }
        return;
      }
      Store(owner, into.value, right);
    }

    method Initialize(owner: Owner, key: Key, init: Expr)
      requires Valid()
      modifies this`stores, this`log
      ensures Valid() && log == old(log) + DeclareFacts(p, owner, key, init)
    {
      if IsList(Unwrap(init)) { return; }
      Store(owner, key, init);
    }

    /** Reads an initializer list, and the lists in it. */
    method InitList(owner: Owner, list: Expr)
      requires Valid() && IsList(list)
      modifies this`stores, this`log
      ensures Valid() && log == Listing(p, owner, list, |list.values|, old(log))
      decreases list
    {
      for k := 0 to |list.values|
        invariant Valid() && log == Listing(p, owner, list, k, old(log))
      {
        var value := list.values[k];
        var inner := Unwrap(value);
        if IsList(inner) {
          InitList(owner, inner);
        } else if Designator(value).Some? {
          match list {
            case Items(_, _) =>
              if owner.Table? { Store(owner, Global(owner.name), value); }
            case Rows(members, _) =>
              if k < |members| && members[k].Some? { Store(owner, members[k].value, value); }
          }
        }
      }
    }

    method RecordArgument(direct: Option<string>, argument: Expr, position: nat)
      requires Valid()
      modifies this`stores, this`passedTo, this`log
      ensures Valid() && log == old(log) + ArgumentFacts(p, direct, argument, position)
    {
      if ArrayOf(argument).Some? { EscapeSlot(argument); }
      if direct.Some? { AddPassed(direct.value, PassedAt(position, PassedOf(p, argument))); }
    }

    /** Records what a call hands over: the addresses of arrays, and to a function it names
        its arguments. */
    method RecordCall(callee: Expr, args: seq<Expr>)
      requires Valid()
      modifies this`stores, this`passedTo, this`log
      ensures Valid() && log == Calling(p, DirectOf(p, callee), args, |args|, old(log))
    {
      var direct := DirectOf(p, callee);
      for k := 0 to |args|
        invariant Valid() && log == Calling(p, direct, args, k, old(log))
      {
        RecordArgument(direct, args[k], k + 1);
      }
    }

    /** Records one construct. */
    method Record(owner: Owner, e: Expr)
      requires Valid()
      modifies this`stores, this`passedTo, this`log
      ensures Valid() && log == Recording(p, owner, e, old(log))
    {
      match e {
        case Call(callee, args) => RecordCall(callee, args);
        case Assign(left, right) => AssignTo(owner, left, right);
        case Declare(key, init) => Initialize(owner, key, init);
        case AddressOf(inner) => EscapeSlot(inner);
        case _ =>
      }
    }

    /** Walks code, recording every construct in it. */
    method Walk(owner: Owner, e: Expr, inList: bool)
      requires Valid()
      modifies this`stores, this`passedTo, this`log
      ensures Valid() && log == Walking(p, owner, e, inList, old(log))
      decreases e
    {
      if IsList(e) && !inList { InitList(owner, e); } else { Record(owner, e); }
      ghost var own := log;
      var parts := Walked(e);
      WalkedBelow(e);
      for k := 0 to |parts|
        invariant Valid() && log == WalkingTo(p, owner, e, inList, k, own)
      {
        Walk(owner, parts[k], inList || IsList(e));
      }
    }

    /** Walks every body and reads every table's initializer. */
    method WalkAll()
      requires Valid() && log == []
      modifies this`stores, this`passedTo, this`log
      ensures Valid() && log == AllFacts(p, |p.code|)
    {
      for k := 0 to |p.code|
        invariant Valid() && log == AllFacts(p, k)
      {
        Read(p.code[k]);
      }
    }

    method Read(code: Code)
      requires Valid()
      modifies this`stores, this`passedTo, this`log
      ensures Valid() && log == Reading(p, code, old(log))
    {
      match code.owner {
        case Body(_) => Walk(code.owner, code.tree, false);
        case Table(name) =>
          var list := Unwrap(code.tree);
          if IsList(list) { InitList(code.owner, list); } else { Initialize(code.owner, Global(name), code.tree); }
      }
    }

    method Visit(e: Expr)
      modifies this`escaped
      ensures escaped == Escaping(p, e, old(escaped))
      decreases e
    {
      escaped := escaped + Naming(p, e);
      ghost var own := escaped;
      var parts := Visited(e);
      VisitedBelow(e);
      for k := 0 to |parts|
        invariant escaped == EscapingTo(p, e, k, own)
      {
        Visit(parts[k]);
      }
    }

    method Look(code: Code)
      modifies this`escaped
      ensures escaped == Looking(p, code, old(escaped))
    {
      Visit(code.tree);
    }

    /** Records the repository functions the program uses as values. */
    method FindEscapes()
      requires escaped == {}
      modifies this`escaped
      ensures escaped == AllEscapes(p, |p.code|)
    {
      for k := 0 to |p.code|
        invariant escaped == AllEscapes(p, k)
      {
        Look(p.code[k]);
      }
    }

    ghost function Known(): Found
      reads this
    {
      Found(log, escaped)
    }

    /** Joins what direct callers pass to a parameter. */
    method Join(f: string, position: nat, soFar: set<Ref>) returns (result: set<Ref>, uncertain: bool)
      requires Valid()
      ensures uncertain == UncertainJoin(Known(), f, position)
      ensures forall r :: r in result <==> r in soFar || IsPassed(Known(), f, position, r)
    {
      result, uncertain := soFar, f in escaped;
      var passes := ListAt(passedTo, f);
      for k := 0 to |passes|
        invariant uncertain <==> f in escaped || PassedAt(position, UnknownPassed) in passes[..k]
        invariant forall r :: r in result <==> r in soFar || PassedAt(position, FunctionPassed(r)) in passes[..k]
      {
        assert passes[..k+1] == passes[..k] + [passes[k]];
        var at := passes[k];
        if at.position == position {
          match at.value {
            case NullPassed =>
            case FunctionPassed(ref) => result := result + {ref};
            case UnknownPassed => uncertain := true;
          }
        }
      }
      assert passes[..|passes|] == passes;
      PassedMembers(log, f, position, UnknownPassed);
      forall r ensures PassedAt(position, FunctionPassed(r)) in passes <==> IsPassed(Known(), f, position, r) {
        PassedMembers(log, f, position, FunctionPassed(r));
      }
    }

    /** The functions a slot can hold when it is called, and whether it may hold a value that
        cannot be named. */
    method Candidates(key: Key) returns (result: set<Ref>, uncertain: bool)
      requires Valid()
      ensures uncertain <==> Uncertain(Known(), key)
      ensures forall r :: r in result <==> CanHold(Known(), key, r)
    {
      result, uncertain := {}, false;
      if key.Param? { result, uncertain := Join(key.f, key.position, {}); }
      var stored := ListAt(stores, key);
      for k := 0 to |stored|
        invariant uncertain <==>
                  (key.Param? && UncertainJoin(Known(), key.f, key.position))
                  || UncertainIn(Known(), stored[..k])
        invariant forall r :: r in result <==>
                  (key.Param? && IsPassed(Known(), key.f, key.position, r))
                  || HeldIn(Known(), stored[..k], r)
      {
        MoreStored(Known(), stored, k);
        match stored[k] {
          case Unknown => uncertain := true;
          case Function(ref) => result := result + {ref};
          case ParameterOf(f, position) =>
            var unsure: bool;
            result, unsure := Join(f, position, result);
            uncertain := uncertain || unsure;
        }
      }
      assert stored[..|stored|] == stored;
      AllStored(Known(), stored, key);
    }
  }

  /** Some stored value makes the slot uncertain. */
  ghost predicate UncertainIn(found: Found, stored: seq<Stored>) {
    || Unknown in stored
    || exists f, position :: ParameterOf(f, position) in stored && UncertainJoin(found, f, position)
  }

  ghost predicate HeldIn(found: Found, stored: seq<Stored>, ref: Ref) {
    || Function(ref) in stored
    || exists f, position :: ParameterOf(f, position) in stored && IsPassed(found, f, position, ref)
  }

  lemma {:induction false} MoreStored(found: Found, stored: seq<Stored>, k: nat)
    requires k < |stored|
    ensures UncertainIn(found, stored[..k+1]) <==> (UncertainIn(found, stored[..k]) || MakesUncertain(found, stored[k]))
    ensures forall r ::
            HeldIn(found, stored[..k+1], r)
            <==> (HeldIn(found, stored[..k], r) || Brings(found, stored[k], r))
  {
    assert stored[..k+1] == stored[..k] + [stored[k]];
    assert forall x :: x in stored[..k+1] <==> x in stored[..k] || x == stored[k];
  }

  predicate MakesUncertain(found: Found, what: Stored) {
    what.Unknown? || (what.ParameterOf? && UncertainJoin(found, what.f, what.position))
  }

  predicate Brings(found: Found, what: Stored, r: Ref) {
    what == Function(r) || (what.ParameterOf? && IsPassed(found, what.f, what.position, r))
  }

  lemma {:induction false} AllStored(found: Found, stored: seq<Stored>, key: Key)
    requires stored == StoredIn(found.facts, key)
    ensures UncertainIn(found, stored) || (key.Param? && UncertainJoin(found, key.f, key.position))
            <==> Uncertain(found, key)
    ensures forall r ::
            HeldIn(found, stored, r) || (key.Param? && IsPassed(found, key.f, key.position, r))
            <==> CanHold(found, key, r)
  {
    forall what ensures what in stored <==> Stores(key, what) in found.facts { StoredMembers(found.facts, key, what); }
    assert forall f, position :: Feeds(found, f, position, key) <==> ParameterOf(f, position) in stored;
  }

  /** The candidates of a slot of a program. */
  method CandidatesOf(p: Program, key: Key) returns (result: set<Ref>, uncertain: bool)
    ensures uncertain <==> Uncertain(Find(p), key)
    ensures forall r :: r in result <==> CanHold(Find(p), key, r)
  {
    var b := new Builder(p);
    b.WalkAll();
    b.FindEscapes();
    result, uncertain := b.Candidates(key);
  }
}
