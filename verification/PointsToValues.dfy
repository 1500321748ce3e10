/** Which values can only be null, and that any other leads somewhere in some state of a run
    (internal/cproject/resolve.go:1069-1095). */
module PointsToValues {
  import opened PointsTo
  import opened PointsToText
  import opened PointsToRuns

  // ----- values that lead nowhere -----

  /** The expression leads nowhere in any state: a null, or what is read or chosen from nulls. */
  predicate Nowhere(p: Program, e: Expr)
    decreases e, 0
  {
    IsNull(e) ||
    match e
    case Named(name) => TargetOf(p, name) == Alternatives([])
    case Element(base, _) => Nowhere(p, base)
    case Deref(x) => Nowhere(p, x)
    case AddressOf(x) => NowhereAt(p, x)
    case Cast(x) => Nowhere(p, x)
    case Assign(_, right) => Nowhere(p, right)
    case Conditional(test, yes, no) =>
      var t := Unwrap(test);
      if t.Number? then Nowhere(p, if t.zero then no else yes) else Nowhere(p, yes) && Nowhere(p, no)
    case _ => false
  }

  predicate NowhereAt(p: Program, e: Expr)
    decreases e, 0
  {
    match e
    case Cast(x) => NowhereAt(p, x)
    case AddressOf(x) => NowhereAt(p, x)
    case Deref(x) => Nowhere(p, x)
    case Element(base, _) => Nowhere(p, base)
    case Named(name) => TargetOf(p, name) == Alternatives([])
    case _ => false
  }

  lemma {:induction false} NowhereInert(p: Program, s: State, e: Expr)
    requires Nowhere(p, e)
    ensures Values(p, s, e) <= {Inert}
    decreases e, 0
  {
    if !IsNull(e) {
      match e
      case Named(_) =>
      case Element(base, _) => NowhereInert(p, s, base);
      case Deref(x) => NowhereInert(p, s, x);
      case AddressOf(x) => NowhereInertAt(p, s, x);
      case Cast(x) => NowhereInert(p, s, x);
      case Assign(_, right) => NowhereInert(p, s, right);
      case Conditional(test, yes, no) =>
        if Unwrap(test).Number? { NowhereInert(p, s, if Unwrap(test).zero then no else yes); }
        else {
          NowhereInert(p, s, yes);
          NowhereInert(p, s, no);
        }
    }
  }

  lemma {:induction false} NowhereInertAt(p: Program, s: State, e: Expr)
    requires NowhereAt(p, e)
    ensures Addresses(p, s, e) <= {Inert}
    decreases e, 0
  {
    match e
    case Cast(x) => NowhereInertAt(p, s, x);
    case AddressOf(x) => NowhereInertAt(p, s, x);
    case Deref(x) => NowhereInert(p, s, x);
    case Element(base, _) => NowhereInert(p, s, base);
    case Named(_) =>
  }

  /** A state with more cells. */
  ghost predicate Wider(s: State, t: State) {
    s.world == t.world && forall c :: c in s.cells ==> c in t.cells
  }

  lemma {:induction false} WiderThrough(s: State, t: State, a: set<Value>, b: set<Value>)
    requires Wider(s, t) && a <= b
    ensures Through(s, a) <= Through(t, b)
  {
    forall w | w in Through(s, a) ensures w in Through(t, b) {
      var v :| v in a && w in Follow(s, v);
      assert w in Follow(t, v);
    }
  }

  lemma {:induction false} WiderValues(p: Program, s: State, t: State, e: Expr)
    requires Wider(s, t)
    ensures Values(p, s, e) <= Values(p, t, e)
    decreases e, 0
  {
    if !IsNull(e) {
      match e
      case Element(base, _) =>
        WiderValues(p, s, t, base);
        WiderThrough(s, t, Values(p, s, base), Values(p, t, base));
      case Deref(x) =>
        WiderValues(p, s, t, x);
        WiderThrough(s, t, Values(p, s, x), Values(p, t, x));
      case AddressOf(x) => WiderAddresses(p, s, t, x);
      case Cast(x) => WiderValues(p, s, t, x);
      case Assign(_, right) => WiderValues(p, s, t, right);
      case Conditional(test, yes, no) =>
        WiderValues(p, s, t, yes);
        WiderValues(p, s, t, no);
      case _ =>
    }
  }

  lemma {:induction false} WiderAddresses(p: Program, s: State, t: State, e: Expr)
    requires Wider(s, t)
    ensures Addresses(p, s, e) <= Addresses(p, t, e)
    decreases e, 0
  {
    match e
    case Cast(x) => WiderAddresses(p, s, t, x);
    case AddressOf(x) => WiderAddresses(p, s, t, x);
    case Deref(x) => WiderValues(p, s, t, x);
    case Element(base, _) => WiderValues(p, s, t, base);
    case _ =>
  }

  /** A state in which the expression leads somewhere. */
  ghost predicate Leads(p: Program, s: State, e: Expr, v: Value) {
    s.world == {Data} && v != Inert && v in Values(p, s, e)
  }

  ghost predicate LeadsAt(p: Program, s: State, e: Expr, v: Value) {
    s.world == {Data} && v != Inert && v in Addresses(p, s, e)
  }

  function Bare(cells: seq<Cell>): State {
    State(cells, {Data}, [])
  }

  /** What can be followed further. */
  lemma {:induction false} Onward(s: State, v: Value) returns (t: State, w: Value)
    requires s.world == {Data} && v != Inert
    ensures t.world == {Data} && Wider(s, t) && w != Inert && w in Follow(t, v)
  {
    match v
    case Data => t, w := s, Data;
    case Fn(_) => t, w := s, v;
    case Address(k) =>
      t, w := s.(cells := s.cells + [Cell(k, Data)]), Data;
      assert Cell(k, Data) in t.cells;
  }

  lemma {:induction false} OnwardThrough(p: Program, e: Expr, s: State, v: Value) returns (t: State, w: Value)
    requires Leads(p, s, e, v)
    ensures t.world == {Data} && w != Inert && w in Through(t, Values(p, t, e))
  {
    t, w := Onward(s, v);
    WiderValues(p, s, t, e);
  }

  lemma {:induction false} NameLeads(p: Program, name: string) returns (v: Value)
    requires TargetOf(p, name) != Alternatives([])
    ensures v != Inert && v in NamedValues(p, name)
  {
    match TargetOf(p, name)
    case Known(ref) => v := Fn(ref);
    case Alternatives(fs) => v := Fn(Own(fs[0])); assert fs[0] in fs;
    case Unresolved => v := Fn(Foreign(name));
  }

  /** Any other expression leads somewhere in some state. */
  lemma {:induction false} ElseLeads(p: Program, e: Expr) returns (s: State, v: Value)
    requires !Nowhere(p, e)
    ensures Leads(p, s, e, v)
    decreases e, 1
  {
    s, v := Bare([]), Data;
    match e {
      case Named(name) => v := NameLeads(p, name);
      case Parameter(fn, position) => s := Bare([Cell(Param(fn, position), Data)]);
        assert Cell(Param(fn, position), Data) in s.cells;
      case Variable(k, isArray) => s, v := SlotLeads(k, isArray);
      case Field(_, Some(k), isArray) => s, v := SlotLeads(k, isArray);
      case Element(base, _) =>
        s, v := ElseLeads(p, base);
        s, v := OnwardThrough(p, base, s, v);
      case Deref(x) =>
        s, v := ElseLeads(p, x);
        s, v := OnwardThrough(p, x, s, v);
      case AddressOf(x) => s, v := ElseLeadsAt(p, x);
      case Cast(x) => s, v := ElseLeads(p, x);
      case Assign(_, right) => s, v := ElseLeads(p, right);
      case Conditional(test, yes, no) => s, v := ArmLeads(p, e);
      case _ =>
    }
  }

  lemma {:induction false} SlotLeads(k: Key, isArray: bool) returns (s: State, v: Value)
    ensures s.world == {Data} && v != Inert && v in (if isArray then {Address(k)} else Contents(s, k))
  {
    s := Bare([Cell(k, Data)]);
    v := if isArray then Address(k) else Data;
    assert Cell(k, Data) in s.cells;
  }

  lemma {:induction false} ArmLeads(p: Program, e: Expr) returns (s: State, v: Value)
    requires e.Conditional? && !Nowhere(p, e)
    ensures Leads(p, s, e, v)
    decreases e, 0
  {
    var t := Unwrap(e.test);
    if t.Number? { s, v := ElseLeads(p, if t.zero then e.no else e.yes); }
    else if !Nowhere(p, e.yes) { s, v := ElseLeads(p, e.yes); }
    else { s, v := ElseLeads(p, e.no); }
  }

  lemma {:induction false} ElseLeadsAt(p: Program, e: Expr) returns (s: State, v: Value)
    requires !NowhereAt(p, e)
    ensures LeadsAt(p, s, e, v)
    decreases e, 1
  {
    s, v := Bare([]), Data;
    match e {
      case Cast(x) => s, v := ElseLeadsAt(p, x);
      case AddressOf(x) => s, v := ElseLeadsAt(p, x);
      case Deref(x) => s, v := ElseLeads(p, x);
      case Element(base, _) => s, v := ElseLeads(p, base);
      case Named(name) => v := NameLeads(p, name);
      case Parameter(fn, position) => v := Address(Param(fn, position));
      case Variable(k, _) => v := Address(k);
      case Field(_, Some(k), _) => v := Address(k);
      case _ =>
    }
  }

  /** Exactly these expressions lead nowhere. */
  lemma {:induction false} NowhereExactly(p: Program, e: Expr)
    ensures Nowhere(p, e) <==> forall s :: Values(p, s, e) <= {Inert}
  {
    if Nowhere(p, e) { forall s ensures Values(p, s, e) <= {Inert} { NowhereInert(p, s, e); } }
    else { var s, v := ElseLeads(p, e); assert !(Values(p, s, e) <= {Inert}); }
  }

  // ----- what is written as a null or as a name -----

  predicate Wraps(e: Expr) {
    e.Cast? || e.AsNumber? || e.FromNumber?
  }

  predicate Points(e: Expr) {
    e.Cast? || e.Deref? || e.AddressOf?
  }

  /** A null is a zero, converted any number of times. */
  lemma {:induction false} NullExactly(e: Expr)
    ensures IsNull(e) <==> forall n :: n in Text(e) ==> Wraps(n) || n == Number(true)
    decreases e
  {
    if Wraps(e) {
      InnerText(e);
      NullExactly(e.inner);
    } else if IsNull(e) {
      assert TextTo(e, 0) == {} && Text(e) == {e} + TextTo(e, 0);
    } else {
      assert e in Text(e);
    }
  }

  lemma {:induction false} InnerText(e: Expr)
    requires Wraps(e) || Points(e)
    ensures Text(e) == {e} + Text(e.inner)
  {
    assert TextTo(e, 0) == {} && TextTo(e, 1) == TextTo(e, 0) + Text(e.inner);
  }

  /** A value designates a function when it is its name, cast, dereferenced or taken the address of. */
  lemma {:induction false} DesignatorExactly(e: Expr, name: string)
    ensures Designator(e) == Some(name) <==>
            forall n :: n in Text(e) ==> Points(n) || n == Named(name)
    decreases e
  {
    if Points(e) {
      InnerText(e);
      DesignatorExactly(e.inner, name);
    } else if Designator(e) == Some(name) {
      assert TextTo(e, 0) == {} && Text(e) == {e} + TextTo(e, 0);
    } else {
      assert e in Text(e);
    }
  }
}
