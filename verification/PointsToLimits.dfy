/** Where candidates do not cover what a slot holds: the shapes of code that put a function into a
    slot and tell the analysis nothing (internal/cproject/resolve.go:657-668, 1096-1128, 1143-1230,
    1665-1724).  For each shape every program that has it has a run after which the slot holds the
    function; and the answer, certain and without the function, is wrong exactly when no construct
    of the program tells of it otherwise. */
module PointsToLimits {
  import opened PointsTo
  import opened PointsToText
  import opened PointsToRuns

  // ----- a wrong answer -----

  /** The answer for the slot is certain and lacks the function. */
  ghost predicate Missed(p: Program, k: Key, ref: Ref) {
    !Uncertain(Find(p), k) && !CanHold(Find(p), k, ref)
  }

  /** Some run ends with the function in the slot. */
  ghost predicate Reached(p: Program, k: Key, ref: Ref) {
    exists s :: Reaches(p, s) && Fn(ref) in Contents(s, k)
  }

  ghost predicate Reaches(p: Program, s: State) {
    exists start, actions :: Initial(start) && Run(p, start, actions) && End(p, start, actions) == s
  }

  /** No code uses the function as a value, and no call passes its parameter the other function or a
      value that cannot be named. */
  ghost predicate Unpassed(p: Program, f: string, position: nat, ref: Ref) {
    && (forall c :: 0 <= c < |p.code| ==> f !in EscapesOf(p, p.code[c].tree))
    && !Told(p, Passes(f, position, UnknownPassed)) && !Told(p, Passes(f, position, FunctionPassed(ref)))
  }

  /** No construct tells that the slot may hold the function or a value that cannot be named. */
  ghost predicate Unsaid(p: Program, k: Key, ref: Ref) {
    && !Told(p, Stores(k, Unknown)) && !Told(p, Stores(k, Function(ref)))
    && (k.Param? ==> Unpassed(p, k.f, k.position, ref))
    && forall f, position :: Told(p, Stores(k, ParameterOf(f, position))) ==> Unpassed(p, f, position, ref)
  }

  lemma {:induction false} LookingKeeps(p: Program, code: Code, escaped: set<string>, f: string)
    requires f in escaped
    ensures f in Looking(p, code, escaped)
  {
    EscapingKeeps(p, code.tree, escaped, f);
  }

  lemma {:induction false} EscapedLater(p: Program, m: nat, n: nat, f: string)
    requires m <= n <= |p.code| && f in AllEscapes(p, m)
    ensures f in AllEscapes(p, n)
  {
    if m < n {
      EscapedLater(p, m, n - 1, f);
      LookingKeeps(p, p.code[n-1], AllEscapes(p, n - 1), f);
    }
  }

  lemma {:induction false} EscapedAt(p: Program, c: nat, f: string)
    requires c < |p.code| && f in EscapesOf(p, p.code[c].tree)
    ensures f in Find(p).escaped
  {
    EscapingGrows(p, p.code[c].tree, AllEscapes(p, c), f);
    EscapedLater(p, c + 1, |p.code|, f);
  }

  lemma {:induction false} EscapedFrom(p: Program, n: nat, f: string) returns (c: nat)
    requires n <= |p.code| && f in AllEscapes(p, n)
    ensures c < n && f in EscapesOf(p, p.code[c].tree)
  {
    EscapingGrows(p, p.code[n-1].tree, AllEscapes(p, n - 1), f);
    if f in AllEscapes(p, n - 1) { c := EscapedFrom(p, n - 1, f); } else { c := n - 1; }
  }

  lemma {:induction false} UnpassedFound(p: Program, f: string, position: nat, ref: Ref)
    ensures Unpassed(p, f, position, ref) <==>
            !UncertainJoin(Find(p), f, position)
            && !IsPassed(Find(p), f, position, ref)
  {
    if f in Find(p).escaped { var c := EscapedFrom(p, |p.code|, f); }
    if c :| 0 <= c < |p.code| && f in EscapesOf(p, p.code[c].tree) { EscapedAt(p, c, f); }
    FoundTold(p, Passes(f, position, UnknownPassed));
    FoundTold(p, Passes(f, position, FunctionPassed(ref)));
  }

  /** The answer misses the function exactly when no construct tells of it. */
  lemma {:induction false} MissedUnsaid(p: Program, k: Key, ref: Ref)
    ensures Missed(p, k, ref) <==> Unsaid(p, k, ref)
  {
    FoundTold(p, Stores(k, Unknown));
    FoundTold(p, Stores(k, Function(ref)));
    if k.Param? { UnpassedFound(p, k.f, k.position, ref); }
    forall f, position
      ensures Told(p, Stores(k, ParameterOf(f, position))) <==> Feeds(Find(p), f, position, k)
      ensures Unpassed(p, f, position, ref) <==>
              !UncertainJoin(Find(p), f, position)
              && !IsPassed(Find(p), f, position, ref)
    {
      FoundTold(p, Stores(k, ParameterOf(f, position)));
      UnpassedFound(p, f, position, ref);
    }
  }

  // ----- going on from a state -----

  lemma {:induction false} RunOn(p: Program, s: State, actions: seq<Action>, a: Action)
    requires Run(p, s, actions) && Enabled(p, End(p, s, actions), a)
    ensures Run(p, s, actions + [a]) && End(p, s, actions + [a]) == Next(p, End(p, s, actions), a)
    decreases |actions|
  {
    var more := actions + [a];
    if actions == [] {
      assert more == [a] && more[1..] == [];
      assert Run(p, Next(p, s, a), []);
    } else {
      assert more[1..] == actions[1..] + [a];
      RunOn(p, Next(p, s, actions[0]), actions[1..], a);
    }
  }

  lemma {:induction false} GoOn(p: Program, s: State, a: Action)
    requires Reaches(p, s) && Enabled(p, s, a)
    ensures Reaches(p, Next(p, s, a))
  {
    var start, actions :| Initial(start) && Run(p, start, actions) && End(p, start, actions) == s;
    RunOn(p, start, actions, a);
  }

  function Empty(): State {
    State([], {Inert, Data}, [])
  }

  lemma {:induction false} Begins(p: Program)
    ensures Reaches(p, Empty())
  {
    assert Initial(Empty()) && Run(p, Empty(), []) && End(p, Empty(), []) == Empty();
  }

  /** The function a piece of code is the body of is entered, a table's initializer needs none. */
  function Entered(s: State, code: Code): State {
    if code.owner.Body? then s.(stack := s.stack + [code.owner.f]) else s
  }

  lemma {:induction false} EnterCode(p: Program, s: State, c: nat)
    requires Reaches(p, s) && c < |p.code|
    ensures Reaches(p, Entered(s, p.code[c])) && Running(p, Entered(s, p.code[c]), c)
  {
    if p.code[c].owner.Body? {
      var a := OutsideStart(p.code[c].owner.f, 0);
      GoOn(p, s, a);
      assert Next(p, s, a).cells == s.cells;
    }
  }

  function Added(s: State, k: Key, v: Value): State {
    s.(cells := s.cells + [Cell(k, v)])
  }

  lemma {:induction false} AddCell(p: Program, s: State, k: Key)
    requires Reaches(p, s)
    ensures Reaches(p, Added(s, k, Inert))
  {
    GoOn(p, s, Fresh(k));
  }

  lemma {:induction false} Holds(s: State, k: Key, v: Value, j: nat)
    requires j < |s.cells| && s.cells[j] == Cell(k, v)
    ensures v in Contents(s, k)
  {
    assert s.cells[j] in s.cells;
  }

  // ----- what expressions give -----

  /** The expression names the function. */
  predicate Designates(p: Program, e: Expr, ref: Ref) {
    Designator(e).Some? && TargetOf(p, Designator(e).value) == Known(ref)
  }

  lemma {:induction false} DesignatorGives(p: Program, s: State, e: Expr)
    requires Designator(e).Some?
    ensures !IsNull(e) && !IsList(Unwrap(e))
    ensures NamedValues(p, Designator(e).value) <= Values(p, s, e)
    ensures NamedValues(p, Designator(e).value) <= Addresses(p, s, e)
  {
    match e
    case Cast(x) => DesignatorGives(p, s, x);
    case Deref(x) =>
      DesignatorGives(p, s, x);
      forall v | v in NamedValues(p, Designator(e).value) ensures v in Through(s, Values(p, s, x)) {
        assert v in Follow(s, v);
      }
    case AddressOf(x) => DesignatorGives(p, s, x);
    case _ =>
  }

  lemma {:induction false} DesignatesGives(p: Program, s: State, e: Expr, ref: Ref)
    requires Designates(p, e, ref)
    ensures Fn(ref) in Values(p, s, e) && !IsList(Unwrap(e))
  {
    DesignatorGives(p, s, e);
  }

  /** The expression may be the function: its name does, or a branch or assigned value that names it. */
  predicate Yields(p: Program, e: Expr, ref: Ref) {
    || Designates(p, e, ref)
    || match e
       case Cast(x) => Yields(p, x, ref)
       case Assign(_, right) => Yields(p, right, ref)
       case Conditional(test, yes, no) => !Unwrap(test).Number? && (Yields(p, yes, ref) || Yields(p, no, ref))
       case _ => false
  }

  lemma {:induction false} YieldsGives(p: Program, s: State, e: Expr, ref: Ref)
    requires Yields(p, e, ref)
    ensures !IsNull(e) && !IsList(Unwrap(e)) && Fn(ref) in Values(p, s, e)
  {
    if Designates(p, e, ref) { DesignatorGives(p, s, e); }
    else {
      match e
      case Cast(x) => YieldsGives(p, s, x, ref);
      case Assign(_, right) => YieldsGives(p, s, right, ref);
      case Conditional(_, yes, no) =>
        if Yields(p, yes, ref) { YieldsGives(p, s, yes, ref); } else { YieldsGives(p, s, no, ref); }
    }
  }

  /** The slot itself, as an assignment or & names it. */
  predicate Names(k: Key, e: Expr) {
    match e
    case Variable(key, _) => key == k
    case Field(_, member, _) => member == Some(k)
    case Parameter(f, position) => k == Param(f, position)
    case _ => false
  }

  /** The expression may be the slot's address: the slot, an array, decays there or its address is taken. */
  predicate Points(k: Key, e: Expr) {
    match e
    case Cast(x) => Points(k, x)
    case Assign(_, right) => Points(k, right)
    case Conditional(test, yes, no) => !Unwrap(test).Number? && (Points(k, yes) || Points(k, no))
    case AddressOf(x) => Names(k, x)
    case Variable(key, isArray) => isArray && key == k
    case Field(_, member, isArray) => isArray && member == Some(k)
    case _ => false
  }

  lemma {:induction false} PointsGives(p: Program, s: State, k: Key, e: Expr)
    requires Points(k, e)
    ensures !IsNull(e) && !IsList(Unwrap(e)) && Address(k) in Values(p, s, e)
  {
    match e
    case Cast(x) => PointsGives(p, s, k, x);
    case Assign(_, right) => PointsGives(p, s, k, right);
    case Conditional(_, yes, no) => if Points(k, yes) { PointsGives(p, s, k, yes); } else { PointsGives(p, s, k, no); }
    case _ =>
  }

  /** The expression reads the slot. */
  predicate Gives(q: Key, e: Expr) {
    match e
    case Cast(x) => Gives(q, x)
    case Variable(key, isArray) => !isArray && key == q
    case Field(_, member, isArray) => !isArray && member == Some(q)
    case Parameter(f, position) => q == Param(f, position)
    case Element(base, _) => base == Variable(q, true)
    case _ => false
  }

  lemma {:induction false} GivesContents(p: Program, s: State, q: Key, e: Expr)
    requires Gives(q, e)
    ensures !IsNull(e) && !IsList(Unwrap(e)) && Contents(s, q) <= Values(p, s, e)
  {
    match e
    case Cast(x) => GivesContents(p, s, q, x);
    case Element(base, _) =>
      forall v | v in Contents(s, q) ensures v in Through(s, Values(p, s, base)) { assert v in Follow(s, Address(q)); }
    case _ =>
  }

  // ----- storing -----

  /** The construct puts the value of its i-th part into the slot. */
  predicate Receives(p: Program, node: Expr, i: nat, q: Key) {
    && i < |ValueParts(node)|
    && (EntryKey(node, i) == Some(q) || (node.Assign? && Names(q, node.left) && q !in p.constants))
  }

  /** Where a running construct stores, its slot may receive any value of the part. */
  lemma {:induction false} StoreStep(p: Program, s: State, c: nat, node: Expr, i: nat, q: Key, v: Value)
    returns (t: State)
    requires Reaches(p, s) && Running(p, s, c) && ActsIn(p.code[c], node) && Receives(p, node, i, q)
    requires v in Values(p, s, ValueParts(node)[i]) && !IsList(Unwrap(ValueParts(node)[i]))
    requires node.Assign? ==> v in Values(p, Added(s, q, Inert), ValueParts(node)[i])
    ensures Reaches(p, t) && t.stack == s.stack && t.world == s.world
    ensures |t.cells| == |s.cells| + 1 && t.cells[..|s.cells|] == s.cells && t.cells[|s.cells|] == Cell(q, v)
  {
    if EntryKey(node, i) == Some(q) {
      var a := Begin(c, node, i, v);
      GoOn(p, s, a);
      t := Next(p, s, a);
    } else {
      AddCell(p, s, q);
      t := WriteStep(p, Added(s, q, Inert), c, node, |s.cells|, v);
    }
  }

  lemma {:induction false} WriteStep(p: Program, s: State, c: nat, node: Expr, cell: nat, v: Value) returns (t: State)
    requires Reaches(p, s) && Running(p, s, c) && ActsIn(p.code[c], node) && node.Assign?
    requires cell < |s.cells| && s.cells[cell].key !in p.constants
    requires Address(s.cells[cell].key) in Addresses(p, s, node.left) && v in Values(p, s, node.right)
    ensures Reaches(p, t) && t == Put(s, cell, v)
  {
    var a := Write(c, node, cell, v);
    GoOn(p, s, a);
    t := Next(p, s, a);
  }

  /** A list, an assignment or a declaration whose part may be the function. */
  lemma {:induction false} YieldStep(p: Program, c: nat, node: Expr, i: nat, k: Key, ref: Ref) returns (t: State)
    requires c < |p.code| && ActsIn(p.code[c], node) && Receives(p, node, i, k) && Yields(p, ValueParts(node)[i], ref)
    ensures Reaches(p, t) && Fn(ref) in Contents(t, k)
  {
    Begins(p);
    EnterCode(p, Empty(), c);
    var s := Entered(Empty(), p.code[c]);
    YieldsGives(p, s, ValueParts(node)[i], ref);
    YieldsGives(p, Added(s, k, Inert), ValueParts(node)[i], ref);
    t := StoreStep(p, s, c, node, i, k, Fn(ref));
    Holds(t, k, Fn(ref), |s.cells|);
  }

  // ----- entries of lists that are not noted -----

  /** The entry is not just a name, or its list is not read, or it is an element of an array that is
      no table of its own: a local array, or one inside another variable. */
  predicate Drops(code: Code, list: Expr, k: Key, value: Expr) {
    || Designator(value).None? || list !in ListsRead(code)
    || (list.Items? && (code.owner.Body? || k != Global(code.owner.name)))
  }

  /** The function such an entry may be ends up in the slot; the answer is wrong exactly when nothing
      else tells of it. */
  lemma {:induction false} EntryLost(p: Program, c: nat, list: Expr, j: nat, k: Key, ref: Ref)
    requires c < |p.code| && list in Nodes(TreeOf(p.code[c])) && IsList(list) && j < |list.values|
             && EntryKey(list, j) == Some(k)
    requires Yields(p, list.values[j], ref) && Drops(p.code[c], list, k, list.values[j])
    ensures Reached(p, k, ref) && (Missed(p, k, ref) <==> Unsaid(p, k, ref))
  {
    var s := YieldStep(p, c, list, j, k, ref);
    MissedUnsaid(p, k, ref);
  }

  /** In a state in which a slot holds the function, storing what it reads puts the function into
      another. */
  lemma {:induction false} SlotStored(p: Program, s: State, c: nat, node: Expr, i: nat, k: Key, q: Key, ref: Ref)
    requires Reaches(p, s) && Running(p, s, c) && ActsIn(p.code[c], node) && Receives(p, node, i, k)
    requires Gives(q, ValueParts(node)[i]) && Fn(ref) in Contents(s, q)
    ensures Reached(p, k, ref)
  {
    GivesContents(p, s, q, ValueParts(node)[i]);
    var t := Added(s, k, Inert);
    var cell :| cell in s.cells && cell.key == q && cell.value == Fn(ref);
    assert cell in t.cells;
    GivesContents(p, t, q, ValueParts(node)[i]);
    var u := StoreStep(p, s, c, node, i, k, Fn(ref));
    Holds(u, k, Fn(ref), |s.cells|);
  }

  /** An entry that reads another slot is not noted either. */
  lemma {:induction false} CopiedEntryLost(p: Program, d: nat, node: Expr, i: nat, q: Key, c: nat, list: Expr, j: nat,
                                           k: Key, ref: Ref)
    requires d < |p.code| && ActsIn(p.code[d], node) && Receives(p, node, i, q) && Yields(p, ValueParts(node)[i], ref)
    requires c < |p.code| && list in Nodes(TreeOf(p.code[c])) && IsList(list) && j < |list.values|
             && EntryKey(list, j) == Some(k)
    requires Gives(q, list.values[j])
    ensures Reached(p, k, ref) && (Missed(p, k, ref) <==> Unsaid(p, k, ref))
  {
    var s := YieldStep(p, d, node, i, q, ref);
    EnterCode(p, s, c);
    SlotStored(p, Entered(s, p.code[c]), c, list, j, k, q, ref);
    MissedUnsaid(p, k, ref);
  }

  /** Any other entry is told, so that nothing is lost. */
  lemma {:induction false} EntryKept(p: Program, c: nat, list: Expr, j: nat, k: Key, ref: Ref)
    requires c < |p.code| && list in Nodes(TreeOf(p.code[c])) && IsList(list) && j < |list.values|
             && EntryKey(list, j) == Some(k)
    requires Designates(p, list.values[j], ref) && !Drops(p.code[c], list, k, list.values[j])
    ensures CanHold(Find(p), k, ref)
  {
    DesignatesGives(p, Empty(), list.values[j], ref);
    DesignatorValues(p, Empty(), list.values[j]);
    EntryStored(p, p.code[c].owner, list, j, k);
    assert Says(p, p.code[c], Stores(k, Function(ref)));
    FoundTold(p, Stores(k, Function(ref)));
  }

  // ----- parameters -----

  /** The call hands the value over, a function it names or an address, as the argument of that
      position; its other arguments are functions or numbers. */
  predicate Hands(p: Program, call: Expr, position: nat, v: Value) {
    && call.Call? && 1 <= position <= |call.args| && Offers(p, call.args[position-1], v)
    && forall i :: 0 <= i < |call.args| && i != position - 1 ==> Ready(p, call.args[i])
  }

  predicate Offers(p: Program, e: Expr, v: Value) {
    (v.Fn? && Designates(p, e, v.ref)) || (v.Address? && Points(v.key, e))
  }

  lemma {:induction false} OffersGives(p: Program, s: State, e: Expr, v: Value)
    requires Offers(p, e, v)
    ensures v in Values(p, s, e)
  {
    if v.Fn? { DesignatesGives(p, s, e, v.ref); } else { PointsGives(p, s, v.key, e); }
  }

  predicate Ready(p: Program, e: Expr) {
    e.Number? || (Designator(e).Some? && TargetOf(p, Designator(e).value).Known?)
  }

  function ReadyValue(p: Program, e: Expr): Value
    requires Ready(p, e)
  {
    if e.Number? then if e.zero then Inert else Data else Fn(TargetOf(p, Designator(e).value).ref)
  }

  lemma {:induction false} ReadyGives(p: Program, s: State, e: Expr)
    requires Ready(p, e)
    ensures ReadyValue(p, e) in Values(p, s, e)
  {
    if !e.Number? { DesignatorGives(p, s, e); }
  }

  /** What the callee's name may stand for. */
  predicate Calls(p: Program, call: Expr, f: string) {
    call.Call? && Designator(call.callee).Some? && Fn(Own(f)) in NamedValues(p, Designator(call.callee).value)
  }

  lemma {:induction false} ArgumentGives(p: Program, s: State, call: Expr, position: nat, v: Value, i: nat)
    returns (u: Value)
    requires Hands(p, call, position, v) && i < |call.args|
    ensures u in Values(p, s, call.args[i]) && (i == position - 1 ==> u == v)
  {
    if i == position - 1 { OffersGives(p, s, call.args[i], v); u := v; }
    else { ReadyGives(p, s, call.args[i]); u := ReadyValue(p, call.args[i]); }
  }

  lemma {:induction false} ArgumentsGive(p: Program, s: State, call: Expr, position: nat, v: Value, n: nat)
    returns (values: seq<Value>)
    requires Hands(p, call, position, v) && n <= |call.args|
    ensures |values| == n && (position <= n ==> values[position-1] == v)
    ensures forall i :: 0 <= i < n ==> values[i] in Values(p, s, call.args[i])
  {
    if n == 0 { values := []; }
    else {
      values := ArgumentsGive(p, s, call, position, v, n - 1);
      var u := ArgumentGives(p, s, call, position, v, n - 1);
      values := values + [u];
    }
  }

  lemma {:induction false} PushedHolds(s: State, f: string, values: seq<Value>, i: nat)
    requires i < |values|
    ensures var t := Pushed(s, f, values);
            && t.stack == s.stack + [f] && values[i] in Contents(t, Param(f, i + 1))
            && |s.cells| <= |t.cells| && t.cells[..|s.cells|] == s.cells
  {
    Holds(Pushed(s, f, values), Param(f, i + 1), values[i], |s.cells| + i);
  }

  lemma {:induction false} CalleeGives(p: Program, s: State, call: Expr, f: string)
    requires Calls(p, call, f)
    ensures Fn(Own(f)) in Values(p, s, call.callee)
  {
    DesignatorGives(p, s, call.callee);
  }

  lemma {:induction false} EnterStep(p: Program, s: State, d: nat, call: Expr, f: string, values: seq<Value>)
    requires Reaches(p, s) && Running(p, s, d) && p.code[d].owner.Body? && call in Nodes(p.code[d].tree) && call.Call?
    requires Fn(Own(f)) in Values(p, s, call.callee) && |values| == |call.args|
    requires forall i :: 0 <= i < |values| ==> values[i] in Values(p, s, call.args[i])
    ensures Reaches(p, Pushed(s, f, values)) && Pushed(s, f, values).stack == s.stack + [f]
    ensures forall i :: 0 <= i < |values| ==> values[i] in Contents(Pushed(s, f, values), Param(f, i + 1))
    ensures |s.cells| <= |Pushed(s, f, values).cells| && Pushed(s, f, values).cells[..|s.cells|] == s.cells
  {
    GoOn(p, s, Enter(d, call, f, values));
    forall i | 0 <= i < |values| ensures values[i] in Contents(Pushed(s, f, values), Param(f, i + 1)) {
      PushedHolds(s, f, values, i);
    }
  }

  lemma {:induction false} CallValues(p: Program, s: State, call: Expr, f: string, position: nat, v: Value)
    returns (values: seq<Value>)
    requires Calls(p, call, f) && Hands(p, call, position, v)
    ensures Fn(Own(f)) in Values(p, s, call.callee) && |values| == |call.args|
    ensures forall i :: 0 <= i < |values| ==> values[i] in Values(p, s, call.args[i])
    ensures 1 <= position <= |values| && values[position-1] == v
  {
    CalleeGives(p, s, call, f);
    values := ArgumentsGive(p, s, call, position, v, |call.args|);
  }

  lemma {:induction false} CallStep(p: Program, s: State, d: nat, call: Expr, f: string, position: nat, v: Value)
    returns (t: State)
    requires Reaches(p, s) && Running(p, s, d) && p.code[d].owner.Body? && call in Nodes(p.code[d].tree)
    requires Calls(p, call, f) && Hands(p, call, position, v)
    ensures Reaches(p, t) && t.stack == s.stack + [f] && v in Contents(t, Param(f, position))
    ensures |s.cells| <= |t.cells| && t.cells[..|s.cells|] == s.cells
  {
    var values := CallValues(p, s, call, f, position, v);
    EnterStep(p, s, d, call, f, values);
    t := Pushed(s, f, values);
    assert values[position-1] in Contents(t, Param(f, position - 1 + 1));
  }

  lemma {:induction false} CalledFrom(p: Program, d: nat, call: Expr, f: string, position: nat, ref: Ref)
    returns (t: State)
    requires d < |p.code| && p.code[d].owner.Body? && call in Nodes(p.code[d].tree)
    requires Calls(p, call, f) && Hands(p, call, position, Fn(ref))
    ensures Reaches(p, t) && t.stack != [] && t.stack[|t.stack|-1] == f && Fn(ref) in Contents(t, Param(f, position))
  {
    Begins(p);
    EnterCode(p, Empty(), d);
    t := CallStep(p, Entered(Empty(), p.code[d]), d, call, f, position, Fn(ref));
  }

  /** An entry of a list that is a parameter is not noted: what a caller passes for it ends up in the
      slot all the same. */
  lemma {:induction false} ParameterEntryLost(p: Program, d: nat, call: Expr, c: nat, list: Expr, j: nat, f: string,
                                              position: nat, k: Key, ref: Ref)
    requires d < |p.code| && p.code[d].owner.Body? && call in Nodes(p.code[d].tree) && Calls(p, call, f)
             && Hands(p, call, position, Fn(ref))
    requires c < |p.code| && p.code[c].owner == Body(f) && list in Nodes(p.code[c].tree) && IsList(list)
    requires j < |list.values| && EntryKey(list, j) == Some(k) && Gives(Param(f, position), list.values[j])
    ensures Reached(p, k, ref) && (Missed(p, k, ref) <==> Unsaid(p, k, ref))
  {
    var s := CalledFrom(p, d, call, f, position, ref);
    SlotStored(p, s, c, list, j, k, Param(f, position), ref);
    MissedUnsaid(p, k, ref);
  }

  /** A call by a name that stands for one of several definitions passes nothing the analysis notes,
      neither to the parameter nor to a slot the parameter is stored in. */
  lemma {:induction false} AlternativeLost(p: Program, d: nat, call: Expr, f: string, position: nat, ref: Ref)
    requires d < |p.code| && p.code[d].owner.Body? && call in Nodes(p.code[d].tree) && Calls(p, call, f)
             && Hands(p, call, position, Fn(ref))
    requires TargetOf(p, Designator(call.callee).value).Alternatives?
    ensures DirectOf(p, call.callee) == None
    ensures Reached(p, Param(f, position), ref)
            && (Missed(p, Param(f, position), ref) <==> Unsaid(p, Param(f, position), ref))
  {
    var s := CalledFrom(p, d, call, f, position, ref);
    MissedUnsaid(p, Param(f, position), ref);
  }

  lemma {:induction false} AlternativeStoredLost(p: Program, d: nat, call: Expr, c: nat, node: Expr, i: nat, f: string,
                                                 position: nat, k: Key, ref: Ref)
    requires d < |p.code| && p.code[d].owner.Body? && call in Nodes(p.code[d].tree) && Calls(p, call, f)
             && Hands(p, call, position, Fn(ref))
    requires TargetOf(p, Designator(call.callee).value).Alternatives?
    requires c < |p.code| && p.code[c].owner == Body(f) && node in Nodes(p.code[c].tree) && Receives(p, node, i, k)
    requires Gives(Param(f, position), ValueParts(node)[i])
    ensures Reached(p, k, ref) && (Missed(p, k, ref) <==> Unsaid(p, k, ref))
  {
    var s := CalledFrom(p, d, call, f, position, ref);
    SlotStored(p, s, c, node, i, k, Param(f, position), ref);
    MissedUnsaid(p, k, ref);
  }

  /** A parameter written in its own function and then stored: the function written ends up in the
      slot, and the answer joins what the callers pass instead. */
  lemma {:induction false} OverwrittenLost(p: Program, c: nat, write: Expr, node: Expr, i: nat, f: string,
                                           position: nat, k: Key, ref: Ref)
    requires c < |p.code| && p.code[c].owner == Body(f) && write in Nodes(p.code[c].tree)
             && node in Nodes(p.code[c].tree)
    requires write.Assign? && Names(Param(f, position), write.left) && Param(f, position) !in p.constants
             && Designates(p, write.right, ref)
    requires Receives(p, node, i, k) && Gives(Param(f, position), ValueParts(node)[i])
    ensures Reached(p, k, ref) && (Missed(p, k, ref) <==> Unsaid(p, k, ref))
  {
    Begins(p);
    EnterCode(p, Empty(), c);
    var s := Entered(Empty(), p.code[c]);
    DesignatesGives(p, s, write.right, ref);
    DesignatesGives(p, Added(s, Param(f, position), Inert), write.right, ref);
    var t := StoreStep(p, s, c, write, 0, Param(f, position), Fn(ref));
    Holds(t, Param(f, position), Fn(ref), |s.cells|);
    SlotStored(p, t, c, node, i, k, Param(f, position), ref);
    MissedUnsaid(p, k, ref);
  }

  // ----- addresses -----

  /** An assignment through a pointer the slot `q` holds. */
  predicate WritesThrough(q: Key, write: Expr) {
    write.Assign? && match write.left
                     case Deref(x) => Gives(q, x)
                     case Element(base, _) => Gives(q, base)
                     case _ => false
  }

  /** Once the address of `k` is in `q`, and `k` has a cell, writing through `q` reaches `k`. */
  lemma {:induction false} ThroughStep(p: Program, s: State, d: nat, write: Expr, cell: nat, k: Key, q: Key, ref: Ref)
    returns (t: State)
    requires Reaches(p, s) && Running(p, s, d) && ActsIn(p.code[d], write) && WritesThrough(q, write)
             && Designates(p, write.right, ref)
    requires cell < |s.cells| && s.cells[cell].key == k && k !in p.constants && Address(k) in Contents(s, q)
    ensures Reaches(p, t) && t.stack == s.stack && Fn(ref) in Contents(t, k)
  {
    GivesContents(p, s, q, if write.left.Deref? then write.left.inner else write.left.base);
    DesignatesGives(p, s, write.right, ref);
    t := WriteStep(p, s, d, write, cell, Fn(ref));
    Holds(t, k, Fn(ref), cell);
  }

  /** The address of `k` comes into `q`, and `k` has a cell. */
  lemma {:induction false} PointStep(p: Program, c: nat, node: Expr, i: nat, k: Key, q: Key) returns (t: State)
    requires c < |p.code| && ActsIn(p.code[c], node) && Receives(p, node, i, q) && Points(k, ValueParts(node)[i])
    ensures Reaches(p, t) && Running(p, t, c) && |t.cells| > 0 && t.cells[0].key == k && Address(k) in Contents(t, q)
  {
    Begins(p);
    EnterCode(p, Empty(), c);
    var s := Entered(Empty(), p.code[c]);
    AddCell(p, s, k);
    var u := Added(s, k, Inert);
    PointsGives(p, u, k, ValueParts(node)[i]);
    PointsGives(p, Added(u, q, Inert), k, ValueParts(node)[i]);
    t := StoreStep(p, u, c, node, i, q, Address(k));
    assert t.cells[0] == t.cells[..1][0];
    Holds(t, q, Address(k), 1);
  }

  /** A construct that stores an array or an address taken, as an assignment, an initializer or a
      conditional in one may, and a table's initializer that is not walked: writing through the
      pointer reaches the slot. */
  lemma {:induction false} AliasLost(p: Program, c: nat, node: Expr, i: nat, d: nat, write: Expr, k: Key, q: Key,
                                     ref: Ref)
    requires c < |p.code| && ActsIn(p.code[c], node) && Receives(p, node, i, q) && Points(k, ValueParts(node)[i])
    requires d < |p.code| && ActsIn(p.code[d], write) && WritesThrough(q, write) && Designates(p, write.right, ref)
             && k !in p.constants
    ensures Reached(p, k, ref) && (Missed(p, k, ref) <==> Unsaid(p, k, ref))
  {
    var s := PointStep(p, c, node, i, k, q);
    EnterCode(p, s, d);
    var t := ThroughStep(p, Entered(s, p.code[d]), d, write, 0, k, q, ref);
    MissedUnsaid(p, k, ref);
  }

  /** A parameter whose address its own function takes and writes through, and that is then stored. */
  lemma {:induction false} LentParameterLost(p: Program, c: nat, lend: Expr, h: nat, write: Expr, node: Expr, i: nat,
                                             q: Key, f: string, position: nat, k: Key, ref: Ref)
    requires c < |p.code| && p.code[c].owner == Body(f) && lend in Nodes(p.code[c].tree)
             && write in Nodes(p.code[c].tree) && node in Nodes(p.code[c].tree)
    requires Receives(p, lend, h, q) && Points(Param(f, position), ValueParts(lend)[h])
    requires WritesThrough(q, write) && Designates(p, write.right, ref) && Param(f, position) !in p.constants
    requires Receives(p, node, i, k) && Gives(Param(f, position), ValueParts(node)[i])
    ensures Reached(p, k, ref) && (Missed(p, k, ref) <==> Unsaid(p, k, ref))
  {
    var s := PointStep(p, c, lend, h, Param(f, position), q);
    var t := ThroughStep(p, s, c, write, 0, Param(f, position), q, ref);
    SlotStored(p, t, c, node, i, k, Param(f, position), ref);
    MissedUnsaid(p, k, ref);
  }

  /** An element of an array that is a member is written: such an assignment is to no slot. */
  lemma {:induction false} ElementLost(p: Program, d: nat, write: Expr, k: Key, ref: Ref)
    requires d < |p.code| && ActsIn(p.code[d], write) && write.Assign? && write.left.Element?
             && !IsVariable(write.left.base)
    requires Points(k, write.left.base) && Designates(p, write.right, ref) && k !in p.constants
    ensures AssignFacts(p, p.code[d].owner, write.left, write.right) == []
    ensures Reached(p, k, ref) && (Missed(p, k, ref) <==> Unsaid(p, k, ref))
  {
    Begins(p);
    AddCell(p, Empty(), k);
    EnterCode(p, Added(Empty(), k, Inert), d);
    var s := Entered(Added(Empty(), k, Inert), p.code[d]);
    PointsGives(p, s, k, write.left.base);
    DesignatesGives(p, s, write.right, ref);
    var t := WriteStep(p, s, d, write, 0, Fn(ref));
    Holds(t, k, Fn(ref), 0);
    MissedUnsaid(p, k, ref);
  }

  /** An array decays, or an address is taken, in an argument that is not noted as one: the function
      called writes through its parameter. */
  lemma {:induction false} HandedLost(p: Program, d: nat, call: Expr, c: nat, write: Expr, f: string, position: nat,
                                      k: Key, ref: Ref)
    requires d < |p.code| && p.code[d].owner.Body? && call in Nodes(p.code[d].tree)
    requires Calls(p, call, f) && Hands(p, call, position, Address(k))
    requires c < |p.code| && p.code[c].owner == Body(f) && write in Nodes(p.code[c].tree)
    requires WritesThrough(Param(f, position), write) && Designates(p, write.right, ref) && k !in p.constants
    ensures Reached(p, k, ref) && (Missed(p, k, ref) <==> Unsaid(p, k, ref))
  {
    Begins(p);
    AddCell(p, Empty(), k);
    var first := Added(Empty(), k, Inert);
    EnterCode(p, first, d);
    var s := CallStep(p, Entered(first, p.code[d]), d, call, f, position, Address(k));
    assert s.cells[0] == s.cells[..1][0];
    var t := ThroughStep(p, s, c, write, 0, k, Param(f, position), ref);
    MissedUnsaid(p, k, ref);
  }

  /** A function is entered through a call whose arguments are functions or numbers. */
  lemma {:induction false} EnterReady(p: Program, s: State, d: nat, call: Expr, f: string) returns (t: State)
    requires Reaches(p, s) && Running(p, s, d) && p.code[d].owner.Body? && call in Nodes(p.code[d].tree)
    requires Calls(p, call, f) && forall j :: 0 <= j < |call.args| ==> Ready(p, call.args[j])
    ensures Reaches(p, t) && t.stack == s.stack + [f] && t.world == s.world
    ensures |s.cells| <= |t.cells| && t.cells[..|s.cells|] == s.cells
  {
    var values := seq(|call.args|, j requires 0 <= j < |call.args| => ReadyValue(p, call.args[j]));
    forall j | 0 <= j < |values| ensures values[j] in Values(p, s, call.args[j]) { ReadyGives(p, s, call.args[j]); }
    CalleeGives(p, s, call, f);
    EnterStep(p, s, d, call, f, values);
    t := Pushed(s, f, values);
  }

  /** The function entered lets the address loose and returns. */
  lemma {:induction false} LooseStep(p: Program, s: State, before: seq<string>, c: nat, node: Expr, i: nat, k: Key)
    returns (t: State)
    requires Reaches(p, s) && c < |p.code| && p.code[c].owner.Body? && s.stack == before + [p.code[c].owner.f]
    requires node in Nodes(p.code[c].tree) && i < |ValueParts(node)| && Points(k, ValueParts(node)[i])
    ensures Reaches(p, t) && t.cells == s.cells && t.stack == before && Address(k) in t.world
  {
    PointsGives(p, s, k, ValueParts(node)[i]);
    var a := Release(c, node, i, Address(k));
    GoOn(p, s, a);
    var loose := Next(p, s, a);
    GoOn(p, loose, Action.Return);
    t := Next(p, loose, Action.Return);
  }

  lemma {:induction false} ThroughCall(p: Program, s: State, d: nat, write: Expr, k: Key, ref: Ref)
    requires Reaches(p, s) && Running(p, s, d) && ActsIn(p.code[d], write) && write.Assign?
    requires write.left.Deref? && write.left.inner.Call?
    requires |s.cells| > 0 && s.cells[0].key == k && Address(k) in s.world && Designates(p, write.right, ref)
    requires k !in p.constants
    ensures Reached(p, k, ref)
  {
    DesignatesGives(p, s, write.right, ref);
    assert Address(k) in Values(p, s, write.left.inner);
    var t := WriteStep(p, s, d, write, 0, Fn(ref));
    Holds(t, k, Fn(ref), 0);
  }

  lemma {:induction false} CalleeWithin(write: Expr, e: Expr)
    requires write in Nodes(e) && write.Assign? && write.left.Deref?
    ensures write.left.inner in Nodes(e)
  {
    SubNodesOf(write, e, 0);
    SubNodes(write.left, 0);
    assert write.left.inner in Nodes(write.left.inner);
  }

  /** From the start to where a call that gave the slot's address has returned. */
  lemma {:induction false} GivenByCall(p: Program, c: nat, node: Expr, i: nat, d: nat, call: Expr, k: Key)
    returns (u: State)
    requires c < |p.code| && p.code[c].owner.Body? && node in Nodes(p.code[c].tree)
    requires i < |ValueParts(node)| && Points(k, ValueParts(node)[i])
    requires d < |p.code| && p.code[d].owner.Body? && call in Nodes(p.code[d].tree)
    requires Calls(p, call, p.code[c].owner.f) && forall j :: 0 <= j < |call.args| ==> Ready(p, call.args[j])
    ensures Reaches(p, u) && Running(p, u, d) && |u.cells| > 0 && u.cells[0].key == k && Address(k) in u.world
  {
    Begins(p);
    AddCell(p, Empty(), k);
    EnterCode(p, Added(Empty(), k, Inert), d);
    var s := Entered(Added(Empty(), k, Inert), p.code[d]);
    var t := EnterReady(p, s, d, call, p.code[c].owner.f);
    assert t.cells[0] == t.cells[..1][0];
    u := LooseStep(p, t, s.stack, c, node, i, k);
  }

  /** An array is returned by a function, and what a call of the function gives is written through. */
  lemma {:induction false} ReturnedLost(p: Program, c: nat, node: Expr, i: nat, f: string, d: nat, write: Expr, k: Key,
                                        ref: Ref)
    requires c < |p.code| && p.code[c].owner == Body(f) && node in Nodes(p.code[c].tree)
    requires node.Other? && i < |node.parts| && Points(k, node.parts[i])
    requires d < |p.code| && p.code[d].owner.Body? && write in Nodes(p.code[d].tree) && write.Assign?
    requires write.left.Deref? && Calls(p, write.left.inner, f)
    requires forall j :: 0 <= j < |write.left.inner.args| ==> Ready(p, write.left.inner.args[j])
    requires Designates(p, write.right, ref) && k !in p.constants
    ensures Reached(p, k, ref) && (Missed(p, k, ref) <==> Unsaid(p, k, ref))
  {
    CalleeWithin(write, p.code[d].tree);
    var u := GivenByCall(p, c, node, i, d, write.left.inner, k);
    ThroughCall(p, u, d, write, k, ref);
    MissedUnsaid(p, k, ref);
  }
}
