/** What a program may keep in its slots while it runs, and that the candidates of a slot
    cover it (internal/cproject/resolve.go:1665). */
module PointsToRuns {
  import opened PointsTo
  import opened PointsToText

  // ----- running programs -----

  /** `Inert` leads to no function; through `Data` anything loose in the program may be reached. */
  datatype Value = Inert | Data | Fn(ref: Ref) | Address(key: Key)

  datatype Cell = Cell(key: Key, value: Value)

  /** The cells of all slots, the values loose elsewhere in memory or outside the program, and
      the functions being run. */
  datatype State = State(cells: seq<Cell>, world: set<Value>, stack: seq<string>)

  function Contents(s: State, k: Key): set<Value> {
    set c | c in s.cells && c.key == k :: c.value
  }

  function Circulating(s: State): set<Value> {
    s.world + set c | c in s.cells :: c.value
  }

  function Follow(s: State, v: Value): set<Value> {
    match v
    case Inert => {Inert}
    case Data => s.world
    case Fn(_) => {v}
    case Address(k) => Contents(s, k)
  }

  function Through(s: State, values: set<Value>): set<Value> {
    set v, w | v in values && w in Follow(s, v) :: w
  }

  function NamedValues(p: Program, name: string): set<Value> {
    match TargetOf(p, name)
    case Known(ref) => {Fn(ref)}
    case Alternatives(fs) => set f | f in fs :: Fn(Own(f))
    case Unresolved => {Fn(Foreign(name))}
  }

  /** What an expression may evaluate to. */
  function Values(p: Program, s: State, e: Expr): set<Value> {
    if IsNull(e) then {Inert}
    else
      match e
      case Named(name) => NamedValues(p, name)
      case Parameter(fn, position) => Contents(s, Param(fn, position))
      case Variable(k, isArray) => if isArray then {Address(k)} else Contents(s, k)
      case Field(_, Some(k), isArray) => if isArray then {Address(k)} else Contents(s, k)
      case Field(_, None, _) => s.world
      case Element(base, _) => Through(s, Values(p, s, base))
      case Deref(x) => Through(s, Values(p, s, x))
      case AddressOf(x) => Addresses(p, s, x)
      case Cast(x) => Values(p, s, x)
      case Assign(_, right) => Values(p, s, right)
      case Conditional(test, yes, no) =>
        var t := Unwrap(test);
        if t.Number? then Values(p, s, if t.zero then no else yes) else Values(p, s, yes) + Values(p, s, no)
      case Number(_) => {Data}
      case AsNumber(_) => {Data}
      case FromNumber(_) => {Data}
      case Sizeof(_) => {Data}
      case Compare(_, _) => {Data}
      case _ => s.world
  }

  /** What taking its address may give; the cells an assignment to it may write are those. */
  function Addresses(p: Program, s: State, e: Expr): set<Value> {
    match e
    case Cast(x) => Addresses(p, s, x)
    case AddressOf(x) => Addresses(p, s, x)
    case Deref(x) => Values(p, s, x)
    case Element(base, _) => Values(p, s, base)
    case Named(name) => NamedValues(p, name)
    case Parameter(fn, position) => {Address(Param(fn, position))}
    case Variable(k, _) => {Address(k)}
    case Field(_, Some(k), _) => {Address(k)}
    case _ => {Data}
  }

  // ----- what a run may do -----

  /** The initializer of a table declares it. */
  function TreeOf(code: Code): Expr {
    match code.owner
    case Body(_) => code.tree
    case Table(name) => Declare(Global(name), code.tree)
  }

  /** The constructs of some code that act: an initializer of a table is constant, it calls and
      assigns nothing. */
  predicate ActsIn(code: Code, node: Expr) {
    node in Nodes(TreeOf(code)) && (code.owner.Body? || IsList(node) || node == TreeOf(code))
  }

  /** The parts of a construct whose value goes somewhere. */
  function ValueParts(node: Expr): seq<Expr> {
    match node
    case Call(_, args) => args
    case Assign(_, right) => [right]
    case Declare(_, init) => [init]
    case Rows(_, values) => values
    case Items(_, values) => values
    case Other(parts) => parts
    case _ => []
  }

  /** The slot an initializer list's entry starts. */
  function EntryKey(list: Expr, k: nat): Option<Key> {
    match list
    case Items(within, _) => Some(within)
    case Rows(members, _) => if k < |members| then members[k] else None
    case Declare(key, _) => Some(key)
    case _ => None
  }

  datatype Action =
    | Write(code: nat, node: Expr, cell: nat, value: Value)
    | Begin(code: nat, node: Expr, entry: nat, value: Value)
    | Release(code: nat, node: Expr, part: nat, value: Value)
    | Enter(code: nat, node: Expr, f: string, values: seq<Value>)
    | Return
    | Fresh(key: Key)
    | Copy(from: nat, into: nat)
    | Meet(name: string)
    | OutsideWrite(cell: nat, value: Value)
    | OutsideCall(f: string, values: seq<Value>)
    | OutsideStart(f: string, arity: nat)

  /** A body is run by the function entered last; initializers whenever it may matter. */
  predicate Running(p: Program, s: State, code: nat) {
    code < |p.code| && (p.code[code].owner.Table?
      || (s.stack != [] && p.code[code].owner == Body(s.stack[|s.stack|-1])))
  }

  predicate Enabled(p: Program, s: State, a: Action) {
    match a
    case Write(code, node, cell, value) =>
      && Running(p, s, code) && ActsIn(p.code[code], node) && node.Assign?
      && cell < |s.cells| && s.cells[cell].key !in p.constants
      && Address(s.cells[cell].key) in Addresses(p, s, node.left) && value in Values(p, s, node.right)
    case Begin(code, node, entry, value) =>
      && Running(p, s, code) && ActsIn(p.code[code], node)
      && entry < |ValueParts(node)| && EntryKey(node, entry).Some?
      && !IsList(Unwrap(ValueParts(node)[entry])) && value in Values(p, s, ValueParts(node)[entry])
    case Release(code, node, part, value) =>
      && Running(p, s, code) && ActsIn(p.code[code], node)
      && part < |ValueParts(node)| && value in Values(p, s, ValueParts(node)[part])
    case Enter(code, node, f, values) =>
      && Running(p, s, code) && ActsIn(p.code[code], node) && node.Call?
      && Fn(Own(f)) in Values(p, s, node.callee) && |values| == |node.args|
      && forall k :: 0 <= k < |values| ==> values[k] in Values(p, s, node.args[k])
    case Return => s.stack != []
    case Fresh(_) => true
    case Copy(from, into) => from < |s.cells| && into < |s.cells| && s.cells[from].key == s.cells[into].key
    case Meet(_) => true
    case OutsideWrite(cell, value) =>
      cell < |s.cells| && s.cells[cell].key !in p.constants && Address(s.cells[cell].key) in s.world && value in s.world
    case OutsideCall(f, values) =>
      Fn(Own(f)) in s.world && forall k :: 0 <= k < |values| ==> values[k] in s.world
    case OutsideStart(_, _) => true
  }

  function Put(s: State, cell: nat, value: Value): State
    requires cell < |s.cells|
  {
    s.(cells := s.cells[cell := Cell(s.cells[cell].key, value)])
  }

  /** The parameters of a call, the first at position 1. */
  function Pushed(s: State, f: string, values: seq<Value>): State {
    s.(cells := s.cells + seq(|values|, k requires 0 <= k < |values| => Cell(Param(f, k + 1), values[k])),
      stack := s.stack + [f])
  }

  function Next(p: Program, s: State, a: Action): State
    requires Enabled(p, s, a)
  {
    match a
    case Write(_, _, cell, value) => Put(s, cell, value)
    case Begin(_, node, entry, value) => s.(cells := s.cells + [Cell(EntryKey(node, entry).value, value)])
    case Release(_, _, _, value) => s.(world := s.world + {value})
    case Enter(_, _, f, values) => Pushed(s, f, values)
    case Return => s.(stack := s.stack[..|s.stack|-1])
    case Fresh(key) => s.(cells := s.cells + [Cell(key, Inert)])
    case Copy(from, into) => Put(s, into, s.cells[from].value)
    case Meet(name) => s.(world := s.world + {Fn(Foreign(name))})
    case OutsideWrite(cell, value) => Put(s, cell, value)
    case OutsideCall(f, values) => Pushed(s, f, values)
    case OutsideStart(f, arity) => Pushed(s, f, seq(arity, _ => Inert))
  }

  predicate Initial(s: State) {
    s.stack == [] && s.world == {Inert, Data} && forall k :: 0 <= k < |s.cells| ==> s.cells[k].value == Inert
  }

  predicate Run(p: Program, s: State, actions: seq<Action>)
    decreases |actions|
  {
    actions != [] ==> Enabled(p, s, actions[0]) && Run(p, Next(p, s, actions[0]), actions[1..])
  }

  function End(p: Program, s: State, actions: seq<Action>): State
    requires Run(p, s, actions)
    decreases |actions|
  {
    if actions == [] then s else End(p, Next(p, s, actions[0]), actions[1..])
  }

  // ----- everything that acts was recorded -----

  lemma {:induction false} VisitedParts(e: Expr, x: Expr)
    requires x in Children(e) && Designator(x).None?
    ensures x in Visited(e)
  {
    match e
    case Call(callee, args) => UnnamedParts([callee], x);
    case Compare(left, right) => UnnamedParts([left, right], x);
    case AsNumber(inner) => UnnamedParts([inner], x);
    case _ =>
  }

  /** What escapes from an expression does not depend on what was found before. */
  lemma {:induction false} EscapingGrows(p: Program, e: Expr, escaped: set<string>, f: string)
    ensures f in Escaping(p, e, escaped) <==> f in escaped || f in EscapesOf(p, e)
    decreases e, |Visited(e)| + 1
  {
    EscapingToGrows(p, e, |Visited(e)|, escaped + Naming(p, e), f);
    EscapingToGrows(p, e, |Visited(e)|, {} + Naming(p, e), f);
  }

  lemma {:induction false} EscapingToGrows(p: Program, e: Expr, n: nat, escaped: set<string>, f: string)
    requires n <= |Visited(e)|
    ensures f in EscapingTo(p, e, n, escaped) <==> f in escaped || f in EscapingTo(p, e, n, {})
    decreases e, n
  {
    if n > 0 {
      VisitedBelow(e);
      EscapingToGrows(p, e, n - 1, escaped, f);
      EscapingGrows(p, Visited(e)[n-1], EscapingTo(p, e, n - 1, escaped), f);
      EscapingGrows(p, Visited(e)[n-1], EscapingTo(p, e, n - 1, {}), f);
    }
  }

  lemma {:induction false} PartEscapes(p: Program, e: Expr, k: nat, n: nat, x: Expr, f: string)
    requires k < n <= |Visited(e)| && Visited(e)[k] == x && forall s :: f in Escaping(p, x, s)
    ensures f in EscapingTo(p, e, n, {})
  {
    var before := EscapingTo(p, e, n - 1, {});
    if k == n - 1 { assert f in Escaping(p, x, before); }
    else {
      PartEscapes(p, e, k, n - 1, x, f);
      EscapingKeeps(p, Visited(e)[n-1], before, f);
    }
  }

  lemma {:induction false} NamedEscapes(p: Program, name: string)
    ensures EscapesOf(p, Named(name)) == OwnFunctions(p, name)
  {
    var none: set<string> := {};
    var e := Named(name);
    assert Visited(e) == [] && none + Naming(p, e) == OwnFunctions(p, name);
    assert Escaping(p, e, none) == EscapingTo(p, e, 0, none + Naming(p, e));
    assert EscapingTo(p, e, 0, none + Naming(p, e)) == none + Naming(p, e);
  }

  /** What a visited part uses as values, the whole does. */
  lemma {:induction false} SubEscapes(p: Program, e: Expr, x: Expr)
    requires x in Visited(e)
    ensures EscapesOf(p, x) <= EscapesOf(p, e)
  {
    var k :| 0 <= k < |Visited(e)| && Visited(e)[k] == x;
    forall f | f in EscapesOf(p, x) ensures f in EscapesOf(p, e) {
      forall s ensures f in Escaping(p, x, s) { EscapingGrows(p, x, s, f); }
      PartEscapes(p, e, k, |Visited(e)|, x, f);
      EscapingToGrows(p, e, |Visited(e)|, {} + Naming(p, e), f);
    }
  }

  lemma {:induction false} EscapesCover(p: Program, e: Expr, node: Expr)
    requires node in Nodes(e) && ValueParts(node) != []
    ensures EscapesOf(p, node) <= EscapesOf(p, e)
    decreases e
  {
    if node != e {
      var k := NodesFrom(e, |Children(e)|, node);
      var x := Children(e)[k];
      EscapesCover(p, x, node);
      if x in Visited(e) { SubEscapes(p, e, x); }
      else if Designator(x).Some? { NodesText(x, node); NamingNodes(x, node); }
      else { VisitedParts(e, x); }
    }
  }

  lemma {:induction false} CodeEscapes(p: Program, c: nat, n: nat, f: string)
    requires c < n <= |p.code| && forall s :: f in Escaping(p, p.code[c].tree, s)
    ensures f in AllEscapes(p, n)
  {
    var before := AllEscapes(p, n - 1);
    if c == n - 1 { assert f in Escaping(p, p.code[c].tree, before); }
    else {
      CodeEscapes(p, c, n - 1, f);
      EscapingKeeps(p, p.code[n-1].tree, before, f);
    }
  }

  lemma {:induction false} EscapingKeeps(p: Program, e: Expr, escaped: set<string>, f: string)
    requires f in escaped
    ensures f in Escaping(p, e, escaped)
  {
    EscapingGrows(p, e, escaped, f);
  }

  /** What a construct of a body tells was found. */
  lemma {:induction false} BodyFound(p: Program, c: nat, node: Expr)
    requires c < |p.code| && p.code[c].owner.Body? && node in Nodes(p.code[c].tree)
    ensures Within(NodeFacts(p, p.code[c].owner, node), Find(p).facts)
  {
    NodesText(p.code[c].tree, node);
    forall x | x in NodeFacts(p, p.code[c].owner, node) ensures x in Find(p).facts { SaidFound(p, c, x); }
  }

  /** So was what the entries of the lists that are read tell. */
  lemma {:induction false} ListFound(p: Program, c: nat, list: Expr, j: nat)
    requires c < |p.code| && list in ListsRead(p.code[c]) && IsList(list) && j < |list.values|
    ensures Within(EntryFacts(p, p.code[c].owner, list, j), Find(p).facts)
  {
    forall x | x in EntryFacts(p, p.code[c].owner, list, j) ensures x in Find(p).facts { SaidFound(p, c, x); }
  }

  lemma {:induction false} TableFound(p: Program, c: nat)
    requires c < |p.code|
    ensures Within(TableFacts(p, p.code[c]), Find(p).facts)
  {
    forall x | x in TableFacts(p, p.code[c]) ensures x in Find(p).facts { SaidFound(p, c, x); }
  }

  /** So were the functions it uses as values. */
  lemma {:induction false} EscapesFound(p: Program, c: nat, node: Expr)
    requires c < |p.code| && node in Nodes(TreeOf(p.code[c])) && ValueParts(node) != []
    ensures EscapesOf(p, node) <= Find(p).escaped
  {
    EscapesCover(p, TreeOf(p.code[c]), node);
    DeclaredEscapes(p, p.code[c]);
    forall f | f in EscapesOf(p, node) ensures f in Find(p).escaped {
      forall s ensures f in Escaping(p, p.code[c].tree, s) { EscapingGrows(p, p.code[c].tree, s, f); }
      CodeEscapes(p, c, |p.code|, f);
    }
  }

  lemma {:induction false} DeclaredEscapes(p: Program, code: Code)
    ensures EscapesOf(p, TreeOf(code)) == EscapesOf(p, code.tree)
  {
    if code.owner.Table? {
      var whole := TreeOf(code);
      var none: set<string> := {};
      assert none + Naming(p, whole) == none && Visited(whole) == [code.tree];
      assert Escaping(p, whole, none) == EscapingTo(p, whole, 1, none);
      assert EscapingTo(p, whole, 0, none) == none;
      assert EscapingTo(p, whole, 1, none) == Escaping(p, code.tree, EscapingTo(p, whole, 0, none));
    }
  }

  predicate Within(facts: seq<Fact>, all: seq<Fact>) {
    forall x :: x in facts ==> x in all
  }

  /** What every construct of a body, every entry of a list that is read and every plain initializer
      of a table tells was found, and every function used as a value. */
  ghost predicate Covers(p: Program, found: Found) {
    && (forall c, n {:trigger NodeFacts(p, p.code[c].owner, n)} ::
          0 <= c < |p.code| && p.code[c].owner.Body?
          && n in Nodes(p.code[c].tree) ==>
          Within(NodeFacts(p, p.code[c].owner, n), found.facts))
    && (forall c, n {:trigger EscapesOf(p, n), p.code[c]} ::
          0 <= c < |p.code| && n in Nodes(TreeOf(p.code[c]))
          && ValueParts(n) != [] ==>
          EscapesOf(p, n) <= found.escaped)
    && (forall c, list, j {:trigger EntryFacts(p, p.code[c].owner, list, j)} ::
          0 <= c < |p.code| && list in ListsRead(p.code[c]) && IsList(list) && 0 <= j < |list.values| ==>
          Within(EntryFacts(p, p.code[c].owner, list, j), found.facts))
    && (forall c {:trigger TableFacts(p, p.code[c])} :: 0 <= c < |p.code| ==>
          Within(TableFacts(p, p.code[c]), found.facts))
  }

  lemma {:induction false} FindCovers(p: Program)
    ensures Covers(p, Find(p))
  {
    forall c, n | 0 <= c < |p.code| && p.code[c].owner.Body? && n in Nodes(p.code[c].tree)
      ensures Within(NodeFacts(p, p.code[c].owner, n), Find(p).facts)
    {
      BodyFound(p, c, n);
    }
    forall c, n | 0 <= c < |p.code| && n in Nodes(TreeOf(p.code[c])) && ValueParts(n) != []
      ensures EscapesOf(p, n) <= Find(p).escaped
    {
      EscapesFound(p, c, n);
    }
    forall c, list, j | 0 <= c < |p.code| && list in ListsRead(p.code[c]) && IsList(list) && 0 <= j < |list.values|
      ensures Within(EntryFacts(p, p.code[c].owner, list, j), Find(p).facts)
    {
      ListFound(p, c, list, j);
    }
    forall c | 0 <= c < |p.code| ensures Within(TableFacts(p, p.code[c]), Find(p).facts) { TableFound(p, c); }
  }

  // ----- where values come from -----

  /** A repository function a value is was used as a value there, or is loose already. */
  lemma {:induction false} FunctionsFrom(p: Program, s: State, e: Expr, f: string)
    requires Fn(Own(f)) in Values(p, s, e)
    ensures f in EscapesOf(p, e) || Fn(Own(f)) in Circulating(s)
    decreases e, 0
  {
    match e
    case Named(name) => NamedEscapes(p, name);
    case Element(base, _) => FunctionThrough(p, s, base, f); SubEscapes(p, e, base);
    case Deref(x) => FunctionThrough(p, s, x, f); SubEscapes(p, e, x);
    case AddressOf(x) => FunctionAddresses(p, s, x, f); SubEscapes(p, e, x);
    case Cast(x) => FunctionsFrom(p, s, x, f); SubEscapes(p, e, x);
    case Assign(_, right) => FunctionsFrom(p, s, right, f); SubEscapes(p, e, right);
    case Conditional(_, yes, no) =>
      if Fn(Own(f)) in Values(p, s, yes) { FunctionsFrom(p, s, yes, f); SubEscapes(p, e, yes); }
      else { FunctionsFrom(p, s, no, f); SubEscapes(p, e, no); }
    case _ =>
  }

  lemma {:induction false} FunctionThrough(p: Program, s: State, x: Expr, f: string)
    requires Fn(Own(f)) in Through(s, Values(p, s, x))
    ensures f in EscapesOf(p, x) || Fn(Own(f)) in Circulating(s)
    decreases x, 1
  {
    var v :| v in Values(p, s, x) && Fn(Own(f)) in Follow(s, v);
    if v.Fn? { FunctionsFrom(p, s, x, f); }
  }

  lemma {:induction false} FunctionAddresses(p: Program, s: State, e: Expr, f: string)
    requires Fn(Own(f)) in Addresses(p, s, e)
    ensures f in EscapesOf(p, e) || Fn(Own(f)) in Circulating(s)
    decreases e, 0
  {
    match e
    case Named(name) => NamedEscapes(p, name);
    case Cast(x) => FunctionAddresses(p, s, x, f); SubEscapes(p, e, x);
    case AddressOf(x) => FunctionAddresses(p, s, x, f); SubEscapes(p, e, x);
    case Deref(x) => FunctionsFrom(p, s, x, f); SubEscapes(p, e, x);
    case Element(base, _) => FunctionsFrom(p, s, base, f); SubEscapes(p, e, base);
    case _ =>
  }

  predicate Bare(k: Key, e: Expr) {
    ArrayOf(e) == Some(k)
  }

  /** A construct that lets an array's address go where it is not noticed. */
  predicate Misuses(k: Key, node: Expr) {
    match node
    case Element(base, _) => Bare(k, base) && !IsVariable(base)
    case Assign(_, right) => Bare(k, right)
    case Declare(_, init) => Bare(k, init)
    case Conditional(_, yes, no) => Bare(k, yes) || Bare(k, no)
    case Rows(_, values) => exists j :: 0 <= j < |values| && Bare(k, values[j])
    case Items(_, values) => exists j :: 0 <= j < |values| && Bare(k, values[j])
    case Other(parts) => exists j :: 0 <= j < |parts| && Bare(k, parts[j])
    case _ => false
  }

  /** Takes the address of a slot. */
  predicate Takes(k: Key, node: Expr) {
    node.AddressOf? && SlotOf(node.inner) == Some(k)
  }

  /** The slot's address is loose, or let go somewhere in the expression. */
  ghost predicate LetGo(s: State, k: Key, e: Expr) {
    Address(k) in Circulating(s) || exists n :: n in Nodes(e) && (Takes(k, n) || Misuses(k, n))
  }

  lemma {:induction false} LetGoBelow(s: State, k: Key, e: Expr, j: nat)
    requires j < |Children(e)| && !e.Sizeof? && LetGo(s, k, Children(e)[j])
    ensures LetGo(s, k, e)
  {
    SubNodes(e, j);
  }

  lemma {:induction false} AddressesFrom(p: Program, s: State, e: Expr, k: Key)
    requires Address(k) in Values(p, s, e)
    ensures Bare(k, e) || LetGo(s, k, e)
  {
    match e
    case Element(base, _) => AddressThrough(p, s, base, k);
    case Deref(x) => AddressThrough(p, s, x, k);
    case AddressOf(x) =>
      AddressTaken(p, s, x, k);
      if LetGo(s, k, x) { LetGoBelow(s, k, e, 0); } else { assert e in Nodes(e) && Takes(k, e); }
    case Cast(x) => AddressesFrom(p, s, x, k); if LetGo(s, k, x) { LetGoBelow(s, k, e, 0); }
    case Assign(_, right) =>
      AddressesFrom(p, s, right, k);
      if LetGo(s, k, right) { LetGoBelow(s, k, e, 1); } else { assert e in Nodes(e) && Misuses(k, e); }
    case Conditional(_, yes, no) =>
      if Address(k) in Values(p, s, yes) {
        AddressesFrom(p, s, yes, k);
        if LetGo(s, k, yes) { LetGoBelow(s, k, e, 1); } else { assert e in Nodes(e) && Misuses(k, e); }
      } else {
        AddressesFrom(p, s, no, k);
        if LetGo(s, k, no) { LetGoBelow(s, k, e, 2); } else { assert e in Nodes(e) && Misuses(k, e); }
      }
    case _ =>
  }

  lemma {:induction false} AddressThrough(p: Program, s: State, x: Expr, k: Key)
    requires Address(k) in Through(s, Values(p, s, x))
    ensures Address(k) in Circulating(s)
  {
  }

  lemma {:induction false} AddressTaken(p: Program, s: State, e: Expr, k: Key)
    requires Address(k) in Addresses(p, s, e)
    ensures SlotOf(e) == Some(k) || LetGo(s, k, e)
  {
    match e
    case Cast(x) => AddressTaken(p, s, x, k); if LetGo(s, k, x) { LetGoBelow(s, k, e, 0); }
    case AddressOf(x) =>
      AddressTaken(p, s, x, k);
      if LetGo(s, k, x) { LetGoBelow(s, k, e, 0); } else { assert e in Nodes(e) && Takes(k, e); }
    case Deref(x) =>
      AddressesFrom(p, s, x, k);
      if LetGo(s, k, x) { LetGoBelow(s, k, e, 0); } else { ArraySlot(x, k); }
    case Element(base, _) =>
      AddressesFrom(p, s, base, k);
      if LetGo(s, k, base) { LetGoBelow(s, k, e, 0); }
      else if IsVariable(base) { ArraySlot(base, k); UnwrapSlot(base); }
      else { assert e in Nodes(e) && Misuses(k, e); }
    case _ =>
  }

  lemma {:induction false} ArraySlot(e: Expr, k: Key)
    requires Bare(k, e)
    ensures SlotOf(e) == Some(k)
  {
    if e.Cast? { ArraySlot(e.inner, k); }
  }

  lemma {:induction false} UnwrapSlot(e: Expr)
    ensures SlotOf(Unwrap(e)) == SlotOf(e) && ArrayOf(Unwrap(e)) == ArrayOf(e)
  {
    if e.Cast? { UnwrapSlot(e.inner); }
  }

  lemma {:induction false} UnwrapValues(p: Program, s: State, e: Expr)
    ensures Values(p, s, Unwrap(e)) == Values(p, s, e)
  {
    if e.Cast? { UnwrapValues(p, s, e.inner); }
  }

  /** A designator has just the value of the name. */
  lemma {:induction false} DesignatorValues(p: Program, s: State, e: Expr)
    requires Designator(e).Some?
    ensures !IsNull(e)
    ensures forall v :: v in Values(p, s, e) ==> v in NamedValues(p, Designator(e).value)
    ensures forall v :: v in Addresses(p, s, e) ==> v in NamedValues(p, Designator(e).value)
  {
    match e
    case Cast(x) => DesignatorValues(p, s, x);
    case Deref(x) =>
      DesignatorValues(p, s, x);
      forall v | v in Through(s, Values(p, s, x)) ensures v in NamedValues(p, Designator(e).value) {
        var u :| u in Values(p, s, x) && v in Follow(s, u);
        assert u.Fn?;
      }
    case AddressOf(x) => DesignatorValues(p, s, x);
    case _ =>
  }

  // ----- when the candidates of a slot can be relied on -----

  /** No name stands for the function as one of several definitions. */
  ghost predicate Sole(p: Program, f: string) {
    forall name :: name in p.resolve && p.resolve[name].Alternatives? ==> f !in p.resolve[name].fs
  }

  /** Where the slot is an array it is only subscripted, dereferenced, handed to calls or its
      address taken; and no table's initializer takes its address. */
  ghost predicate PlainlyUsed(p: Program, k: Key) {
    forall c, n :: 0 <= c < |p.code| && n in Nodes(TreeOf(p.code[c])) ==>
      !Misuses(k, n) && (p.code[c].owner.Table? ==> !Takes(k, n))
  }

  /** An entry put into the slot starts a list of its own, or is null, or names a function in a list
      that is read: of a record, or of the table's own elements. */
  predicate EntryNoted(code: Code, k: Key, list: Expr, value: Expr) {
    || IsList(Unwrap(value)) || IsNull(value)
    || (Designator(value).Some? && list in ListsRead(code)
          && (list.Items? ==> code.owner.Table? && k == Global(code.owner.name)))
  }

  ghost predicate ListsNoted(p: Program, k: Key) {
    forall c, n, j ::
      0 <= c < |p.code| && n in Nodes(TreeOf(p.code[c])) && IsList(n) && 0 <= j < |n.values|
      && EntryKey(n, j) == Some(k) ==>
      EntryNoted(p.code[c], k, n, n.values[j])
  }

  ghost predicate Tracked(p: Program, k: Key) {
    (k.Param? ==> Sole(p, k.f)) && PlainlyUsed(p, k) && ListsNoted(p, k)
  }

  /** The slot can be followed, and so can every parameter the text stores in it, which is never
      written in its function nor has its address taken. */
  ghost predicate Followable(p: Program, k: Key) {
    && Tracked(p, k)
    && forall f, position :: Told(p, Stores(k, ParameterOf(f, position))) ==>
         Tracked(p, Param(f, position)) && forall what :: !Told(p, Stores(Param(f, position), what))
  }

  /** The parameters found stored in the slot can be followed. */
  ghost predicate Fed(p: Program, found: Found, k: Key) {
    forall f, position :: Feeds(found, f, position, k) ==>
      Tracked(p, Param(f, position)) && forall what :: Stores(Param(f, position), what) !in found.facts
  }

  lemma {:induction false} FollowableFed(p: Program, k: Key)
    requires Followable(p, k)
    ensures Tracked(p, k) && Fed(p, Find(p), k)
  {
    forall f, position | Feeds(Find(p), f, position, k)
      ensures Tracked(p, Param(f, position)) && forall what :: Stores(Param(f, position), what) !in Find(p).facts
    {
      FoundTold(p, Stores(k, ParameterOf(f, position)));
      forall what ensures Stores(Param(f, position), what) !in Find(p).facts {
        FoundTold(p, Stores(Param(f, position), what));
      }
    }
  }

  // ----- what every step keeps -----

  ghost predicate Fine(found: Found, k: Key, v: Value) {
    Uncertain(found, k) || v.Inert? || (v.Fn? && CanHold(found, k, v.ref))
  }

  /** Loose functions of the repository were found used as values. */
  ghost predicate OwnEscaped(found: Found, s: State) {
    forall f :: Fn(Own(f)) in Circulating(s) ==> f in found.escaped
  }

  ghost predicate Held(found: Found, s: State, k: Key) {
    forall v :: v in Contents(s, k) ==> Fine(found, k, v)
  }

  /** Who has the address of a slot that is certain cannot write to it. */
  ghost predicate Shut(p: Program, found: Found, s: State, k: Key) {
    Address(k) in Circulating(s) ==> Uncertain(found, k) || k in p.constants
  }

  lemma {:induction false} PartFunction(p: Program, found: Found, s: State, c: nat, node: Expr, part: Expr, f: string)
    requires Covers(p, found) && c < |p.code| && ActsIn(p.code[c], node) && part in ValueParts(node)
    requires OwnEscaped(found, s) && Fn(Own(f)) in Values(p, s, part)
    ensures f in found.escaped
  {
    FunctionsFrom(p, s, part, f);
    if f in EscapesOf(p, part) {
      PartChild(node, part);
      SubEscapes(p, node, part);
    }
  }

  /** Letting the address of a tracked slot go was recorded. */
  lemma {:induction false} LetGoRecorded(p: Program, found: Found, s: State, c: nat, e: Expr, k: Key)
    requires Covers(p, found) && c < |p.code| && Nodes(e) <= Nodes(TreeOf(p.code[c]))
    requires PlainlyUsed(p, k) && Shut(p, found, s, k) && LetGo(s, k, e)
    ensures Uncertain(found, k) || k in p.constants
  {
    if Address(k) !in Circulating(s) {
      var n :| n in Nodes(e) && (Takes(k, n) || Misuses(k, n));
      assert Takes(k, n) && p.code[c].owner.Body?;
      assert Within(NodeFacts(p, p.code[c].owner, n), found.facts);
      EscapeRecorded(p, n.inner, k);
    }
  }

  lemma {:induction false} EscapeRecorded(p: Program, value: Expr, k: Key)
    requires SlotOf(value) == Some(k)
    ensures k in p.constants || EscapeFacts(p, value) == [Stores(k, Unknown)]
  {
    if ArrayOf(value).Some? { ArraySlot(value, ArrayOf(value).value); }
  }

  lemma {:induction false} CallRecorded(p: Program, direct: Option<string>, args: seq<Expr>, j: nat, n: nat, x: Fact)
    requires j < n <= |args| && x in ArgumentFacts(p, direct, args[j], j + 1)
    ensures x in Calling(p, direct, args, n, [])
  {
    if j < n - 1 { CallRecorded(p, direct, args, j, n - 1, x); }
  }

  lemma {:induction false} PartChild(node: Expr, part: Expr)
    requires part in ValueParts(node)
    ensures part in Children(node) && part in Visited(node) && !node.Sizeof?
  {
    if node.Call? {
      var j :| 0 <= j < |node.args| && node.args[j] == part;
      assert Children(node)[j+1] == part;
    }
  }

  lemma {:induction false} PartNodes(node: Expr, e: Expr, part: Expr)
    requires node in Nodes(e) && part in ValueParts(node)
    ensures Nodes(part) <= Nodes(e)
    decreases e
  {
    if node == e {
      PartChild(node, part);
      var j :| 0 <= j < |Children(e)| && Children(e)[j] == part;
      SubNodes(e, j);
    } else {
      var k := NodesFrom(e, |Children(e)|, node);
      PartNodes(node, Children(e)[k], part);
      SubNodes(e, k);
    }
  }

  /** Handing an array to a call was recorded. */
  lemma {:induction false} ArrayHanded(p: Program, found: Found, c: nat, node: Expr, part: Expr, k: Key)
    requires Covers(p, found) && c < |p.code| && p.code[c].owner.Body? && node in Nodes(p.code[c].tree)
    requires node.Call? && part in node.args && Bare(k, part)
    ensures Stores(k, Unknown) in found.facts || k in p.constants
  {
    var j :| 0 <= j < |node.args| && node.args[j] == part;
    ArraySlot(part, k);
    EscapeRecorded(p, part, k);
    if k !in p.constants { CallRecorded(p, DirectOf(p, node.callee), node.args, j, |node.args|, Stores(k, Unknown)); }
    assert Within(NodeFacts(p, p.code[c].owner, node), found.facts);
  }

  lemma {:induction false} PartAddress(p: Program, found: Found, s: State, c: nat, node: Expr, part: Expr, k: Key)
    requires Covers(p, found) && c < |p.code| && ActsIn(p.code[c], node) && part in ValueParts(node)
    requires PlainlyUsed(p, k) && Shut(p, found, s, k) && Address(k) in Values(p, s, part)
    ensures Uncertain(found, k) || k in p.constants
  {
    AddressesFrom(p, s, part, k);
    PartNodes(node, TreeOf(p.code[c]), part);
    if LetGo(s, k, part) { LetGoRecorded(p, found, s, c, part, k); }
    else {
      assert !Misuses(k, node);
      ArrayHanded(p, found, c, node, part, k);
    }
  }

  /** Reading through a slot gives what the slot may hold. */
  lemma {:induction false} SlotValues(p: Program, found: Found, s: State, e: Expr, k: Key, v: Value)
    requires SlotOf(e) == Some(k) && Held(found, s, k) && v in Values(p, s, e)
    ensures Fine(found, k, v) || (Bare(k, e) && v == Address(k))
  {
    match e
    case Cast(x) => SlotValues(p, found, s, x, k, v);
    case Deref(x) =>
      var u :| u in Values(p, s, x) && v in Follow(s, u);
      SlotValues(p, found, s, x, k, u);
    case Element(base, _) =>
      var u :| u in Values(p, s, base) && v in Follow(s, u);
      UnwrapSlot(base);
      UnwrapValues(p, s, base);
    case _ =>
  }

  /** What the parameters stored in the slot hold, they hold by their callers alone. */
  ghost predicate FedHeld(found: Found, s: State, k: Key) {
    forall f, position :: Feeds(found, f, position, k) ==>
      Held(found, s, Param(f, position)) && forall what :: Stores(Param(f, position), what) !in found.facts
  }

  /** What a recorded store puts into a slot. */
  lemma {:induction false} StoreFine(p: Program, found: Found, s: State, owner: Owner, k: Key, value: Expr, v: Value)
    requires Held(found, s, k) && !Bare(k, value) && v in Values(p, s, value)
    requires Within(StoreFacts(p, owner, k, value), found.facts) && FedHeld(found, s, k)
    ensures Fine(found, k, v)
  {
    UnwrapSlot(value);
    if IsNull(value) {
    } else if Keeps(k, value) {
      SlotValues(p, found, s, value, k, v);
    } else {
      var what := StoredOf(p, owner, value);
      assert Stores(k, what) in StoreFacts(p, owner, k, value);
      match what
      case Function(ref) => DesignatorValues(p, s, value);
      case ParameterOf(f, position) =>
        assert Feeds(found, f, position, k);
        UnwrapValues(p, s, value);
        assert Fine(found, Param(f, position), v);
      case Unknown =>
    }
  }

  // ----- one step -----

  /** What an assignment may put into the slot it names. */
  lemma {:induction false} WriteSlot(p: Program, found: Found, s: State, owner: Owner, left: Expr, right: Expr, k: Key,
                                     v: Value)
    requires Held(found, s, k) && FedHeld(found, s, k) && SlotOf(left) == Some(k) && !Bare(k, right)
    requires Within(AssignFacts(p, owner, left, right), found.facts) && v in Values(p, s, right)
    ensures Fine(found, k, v)
  {
    if k.Param? {
      if !IsNull(right) { assert Stores(k, Unknown) in AssignFacts(p, owner, left, right); }
    } else {
      StoreFine(p, found, s, owner, k, right, v);
    }
  }

  /** What an assignment may put into a slot. */
  lemma {:induction false} WriteFine(p: Program, found: Found, s: State, c: nat, node: Expr, k: Key, v: Value)
    requires Covers(p, found) && c < |p.code| && ActsIn(p.code[c], node) && node.Assign?
    requires PlainlyUsed(p, k) && Held(found, s, k) && Shut(p, found, s, k) && FedHeld(found, s, k)
    requires k !in p.constants && Address(k) in Addresses(p, s, node.left) && v in Values(p, s, node.right)
    ensures Fine(found, k, v)
  {
    AddressTaken(p, s, node.left, k);
    if LetGo(s, k, node.left) {
      SubNodesOf(node, TreeOf(p.code[c]), 0);
      LetGoRecorded(p, found, s, c, node.left, k);
    } else {
      assert Within(NodeFacts(p, p.code[c].owner, node), found.facts);
      assert !Misuses(k, node);
      WriteSlot(p, found, s, p.code[c].owner, node.left, node.right, k, v);
    }
  }

  lemma {:induction false} SubNodesOf(node: Expr, e: Expr, j: nat)
    requires node in Nodes(e) && j < |Children(node)| && !node.Sizeof?
    ensures Nodes(Children(node)[j]) <= Nodes(e)
    decreases e
  {
    if node == e { SubNodes(e, j); }
    else {
      var k := NodesFrom(e, |Children(e)|, node);
      SubNodesOf(node, Children(e)[k], j);
      SubNodes(e, k);
    }
  }

  /** What an initializer may put into a slot. */
  lemma {:induction false} BeginFine(p: Program, found: Found, s: State, c: nat, node: Expr, entry: nat, k: Key,
                                     v: Value)
    requires Covers(p, found) && c < |p.code| && ActsIn(p.code[c], node)
    requires PlainlyUsed(p, k) && ListsNoted(p, k) && Held(found, s, k) && FedHeld(found, s, k)
    requires entry < |ValueParts(node)| && EntryKey(node, entry) == Some(k) && !IsList(Unwrap(ValueParts(node)[entry]))
    requires v in Values(p, s, ValueParts(node)[entry])
    ensures Fine(found, k, v)
  {
    var owner, value := p.code[c].owner, ValueParts(node)[entry];
    if IsList(node) {
      assert EntryNoted(p.code[c], k, node, node.values[entry]);
      if !IsNull(value) {
        EntryStored(p, owner, node, entry, k);
        assert Within(EntryFacts(p, owner, node, entry), found.facts);
        NotedFine(p, found, s, owner, k, value, v);
      }
    } else {
      assert !Misuses(k, node);
      if owner.Body? {
        assert Within(NodeFacts(p, owner, node), found.facts);
      } else {
        assert Within(TableFacts(p, p.code[c]), found.facts);
      }
      StoreFine(p, found, s, owner, k, value, v);
    }
  }

  lemma {:induction false} EntryStored(p: Program, owner: Owner, list: Expr, j: nat, k: Key)
    requires IsList(list) && j < |list.values| && EntryKey(list, j) == Some(k) && Designator(list.values[j]).Some?
    requires !IsList(Unwrap(list.values[j])) && !IsNull(list.values[j])
    requires list.Items? ==> owner.Table? && k == Global(owner.name)
    ensures Stores(k, StoredOf(p, owner, list.values[j])) in EntryFacts(p, owner, list, j)
  {
    NamingSlot(list.values[j]);
    UnwrapSlot(list.values[j]);
  }

  lemma {:induction false} NotedFine(p: Program, found: Found, s: State, owner: Owner, k: Key, value: Expr, v: Value)
    requires Designator(value).Some? && Stores(k, StoredOf(p, owner, value)) in found.facts && v in Values(p, s, value)
    ensures Fine(found, k, v)
  {
    DesignatorValues(p, s, value);
  }

  /** A function called other than by its name was used as a value. */
  lemma {:induction false} CalledByValue(p: Program, found: Found, s: State, c: nat, node: Expr, f: string)
    requires Covers(p, found) && c < |p.code| && node in Nodes(TreeOf(p.code[c])) && node.Call?
             && ValueParts(node) != []
    requires OwnEscaped(found, s) && Designator(node.callee).None? && Fn(Own(f)) in Values(p, s, node.callee)
    ensures f in found.escaped
  {
    FunctionsFrom(p, s, node.callee, f);
    if f in EscapesOf(p, node.callee) {
      assert Unnamed([node.callee]) == Unnamed([]) + [node.callee];
      assert Visited(node)[0] == node.callee;
      SubEscapes(p, node, node.callee);
      assert EscapesOf(p, node) <= found.escaped;
    }
  }

  lemma {:induction false} CalledByName(p: Program, s: State, callee: Expr, f: string)
    requires Designator(callee).Some? && Sole(p, f) && Fn(Own(f)) in Values(p, s, callee)
    ensures DirectOf(p, callee) == Some(f)
  {
    DesignatorValues(p, s, callee);
  }

  /** What a call may pass to a parameter. */
  lemma {:induction false} EnterFine(p: Program, found: Found, s: State, c: nat, node: Expr, f: string, j: nat,
                                     v: Value)
    requires Covers(p, found) && c < |p.code| && ActsIn(p.code[c], node) && node.Call?
    requires Sole(p, f) && OwnEscaped(found, s)
    requires Fn(Own(f)) in Values(p, s, node.callee) && j < |node.args| && v in Values(p, s, node.args[j])
    ensures Fine(found, Param(f, j + 1), v)
  {
    if Designator(node.callee).Some? {
      CalledByName(p, s, node.callee, f);
      CallRecorded(p, DirectOf(p, node.callee), node.args, j, |node.args|, Passes(f, j + 1, PassedOf(p, node.args[j])));
      assert Within(NodeFacts(p, p.code[c].owner, node), found.facts);
      PassedFine(p, found, s, f, j + 1, node.args[j], v);
    } else {
      CalledByValue(p, found, s, c, node, f);
    }
  }

  lemma {:induction false} PassedFine(p: Program, found: Found, s: State, f: string, position: nat, argument: Expr,
                                      v: Value)
    requires Passes(f, position, PassedOf(p, argument)) in found.facts && v in Values(p, s, argument)
    ensures Fine(found, Param(f, position), v)
  {
    if Designator(argument).Some? { DesignatorValues(p, s, argument); }
  }

  /** What a step brings into circulation. */
  function News(s: State, a: Action): set<Value> {
    match a
    case Write(_, _, _, value) => {value}
    case Begin(_, _, _, value) => {value}
    case Release(_, _, _, value) => {value}
    case Enter(_, _, _, values) => set v | v in values
    case Copy(from, _) => if from < |s.cells| then {s.cells[from].value} else {}
    case Meet(name) => {Fn(Foreign(name))}
    case OutsideWrite(_, value) => {value}
    case OutsideCall(_, values) => set v | v in values
    case Return => {}
    case Fresh(_) => {Inert}
    case OutsideStart(_, _) => {Inert}
  }

  lemma {:induction false} CellsAfter(p: Program, s: State, a: Action, c: Cell)
    requires Enabled(p, s, a) && c in Next(p, s, a).cells
    ensures c in s.cells || c.value in News(s, a)
  {
    var n := Next(p, s, a);
    var j :| 0 <= j < |n.cells| && n.cells[j] == c;
    if j < |s.cells| { assert s.cells[j] in s.cells; }
  }

  lemma {:induction false} CirculatingAfter(p: Program, s: State, a: Action, v: Value)
    requires Enabled(p, s, a) && v in Circulating(Next(p, s, a))
    ensures v in Circulating(s) || v in News(s, a)
  {
    var n := Next(p, s, a);
    if v !in n.world {
      var c :| c in n.cells && c.value == v;
      CellsAfter(p, s, a, c);
    }
  }

  /** The value of a part of acting code. */
  ghost predicate Made(p: Program, s: State, v: Value) {
    exists c, node, part :: 0 <= c < |p.code| && ActsIn(p.code[c], node) && part in ValueParts(node)
      && v in Values(p, s, part)
  }

  lemma {:induction false} NewsMade(p: Program, s: State, a: Action, v: Value)
    requires Enabled(p, s, a) && v in News(s, a)
    ensures v in Circulating(s) || v.Inert? || (v.Fn? && v.ref.Foreign?) || Made(p, s, v)
  {
    match a
    case Write(code, node, _, value) => assert node.right in ValueParts(node);
    case Begin(code, node, entry, value) => assert ValueParts(node)[entry] in ValueParts(node);
    case Release(code, node, part, value) => assert ValueParts(node)[part] in ValueParts(node);
    case Enter(code, node, f, values) =>
      var j :| 0 <= j < |values| && values[j] == v;
      assert node.args[j] in ValueParts(node);
    case Copy(from, _) => assert s.cells[from] in s.cells;
    case OutsideCall(f, values) =>
      var j :| 0 <= j < |values| && values[j] == v;
    case _ =>
  }

  lemma {:induction false} StepOwn(p: Program, found: Found, s: State, a: Action)
    requires Covers(p, found) && Enabled(p, s, a) && OwnEscaped(found, s)
    ensures OwnEscaped(found, Next(p, s, a))
  {
    forall f | Fn(Own(f)) in Circulating(Next(p, s, a)) ensures f in found.escaped {
      var v := Fn(Own(f));
      CirculatingAfter(p, s, a, v);
      if v !in Circulating(s) {
        NewsMade(p, s, a, v);
        var c, node, part :| 0 <= c < |p.code| && ActsIn(p.code[c], node) && part in ValueParts(node)
          && v in Values(p, s, part);
        PartFunction(p, found, s, c, node, part, f);
      }
    }
  }

  lemma {:induction false} StepShut(p: Program, found: Found, s: State, a: Action, k: Key)
    requires Covers(p, found) && Enabled(p, s, a) && PlainlyUsed(p, k) && Shut(p, found, s, k)
    ensures Shut(p, found, Next(p, s, a), k)
  {
    var v := Address(k);
    if v in Circulating(Next(p, s, a)) && v !in Circulating(s) {
      CirculatingAfter(p, s, a, v);
      NewsMade(p, s, a, v);
      var c, node, part :| 0 <= c < |p.code| && ActsIn(p.code[c], node) && part in ValueParts(node)
        && v in Values(p, s, part);
      PartAddress(p, found, s, c, node, part, k);
    }
  }

  lemma {:induction false} PushedCell(s: State, f: string, values: seq<Value>, c: Cell) returns (j: nat)
    requires c in Pushed(s, f, values).cells && c !in s.cells
    ensures j < |values| && c == Cell(Param(f, j + 1), values[j])
  {
    var cells := Pushed(s, f, values).cells;
    var i :| 0 <= i < |cells| && cells[i] == c;
    assert forall n :: 0 <= n < |s.cells| ==> cells[n] in s.cells;
    j := i - |s.cells|;
  }

  /** A parameter's cell a call begins. */
  lemma {:induction false} ParameterCell(p: Program, found: Found, s: State, a: Action, c: Cell)
    requires Covers(p, found) && Enabled(p, s, a) && a.Enter? && c in Next(p, s, a).cells && c !in s.cells
    requires OwnEscaped(found, s) && Tracked(p, c.key)
    ensures Fine(found, c.key, c.value)
  {
    var j := PushedCell(s, a.f, a.values, c);
    EnterFine(p, found, s, a.code, a.node, a.f, j, c.value);
  }

  lemma {:induction false} OutsideCell(p: Program, found: Found, s: State, a: Action, c: Cell)
    requires Enabled(p, s, a) && (a.OutsideCall? || a.OutsideStart?) && c in Next(p, s, a).cells && c !in s.cells
    requires OwnEscaped(found, s)
    ensures Fine(found, c.key, c.value)
  {
    var values := if a.OutsideCall? then a.values else seq(a.arity, _ => Inert);
    var j := PushedCell(s, a.f, values, c);
    if a.OutsideCall? { assert Fn(Own(a.f)) in Circulating(s); }
  }

  /** The cell a step changes or begins. */
  lemma {:induction false} CellFine(p: Program, found: Found, s: State, a: Action, c: Cell)
    requires Covers(p, found) && Enabled(p, s, a) && !a.Copy? && c in Next(p, s, a).cells && c !in s.cells
    requires OwnEscaped(found, s) && Tracked(p, c.key) && Held(found, s, c.key) && Shut(p, found, s, c.key)
             && FedHeld(found, s, c.key)
    ensures Fine(found, c.key, c.value)
  {
    match a
    case Write(code, node, cell, value) => WriteFine(p, found, s, code, node, c.key, c.value);
    case Begin(code, node, entry, value) => BeginFine(p, found, s, code, node, entry, c.key, c.value);
    case Enter(code, node, f, values) => ParameterCell(p, found, s, a, c);
    case OutsideCall(_, _) => OutsideCell(p, found, s, a, c);
    case OutsideStart(_, _) => OutsideCell(p, found, s, a, c);
    case _ =>
  }

  /** Copying a record's slot brings nothing new to any slot. */
  lemma {:induction false} CopyCells(p: Program, s: State, a: Action, c: Cell)
    requires Enabled(p, s, a) && a.Copy? && c in Next(p, s, a).cells
    ensures c in s.cells
  {
    var n := Next(p, s, a);
    var j :| 0 <= j < |n.cells| && n.cells[j] == c;
    if j == a.into { assert c == s.cells[a.from]; } else { assert c == s.cells[j]; }
  }

  lemma {:induction false} StepHeld(p: Program, found: Found, s: State, a: Action, k: Key)
    requires Covers(p, found) && Enabled(p, s, a)
    requires OwnEscaped(found, s) && Tracked(p, k) && Held(found, s, k) && Shut(p, found, s, k) && FedHeld(found, s, k)
    ensures Held(found, Next(p, s, a), k)
  {
    forall v | v in Contents(Next(p, s, a), k) ensures Fine(found, k, v) {
      var c :| c in Next(p, s, a).cells && c.key == k && c.value == v;
      if a.Copy? { CopyCells(p, s, a, c); }
      if c in s.cells { assert v in Contents(s, k); } else { CellFine(p, found, s, a, c); }
    }
  }

  // ----- whole runs -----

  /** What holds of a slot and of the parameters stored in it. */
  ghost predicate Invariant(p: Program, found: Found, s: State, k: Key) {
    && OwnEscaped(found, s) && Held(found, s, k) && Shut(p, found, s, k)
    && forall f, position :: Feeds(found, f, position, k) ==>
      Held(found, s, Param(f, position)) && Shut(p, found, s, Param(f, position))
  }

  lemma {:induction false} InvariantNext(p: Program, found: Found, s: State, a: Action, k: Key)
    requires Covers(p, found) && Enabled(p, s, a) && Tracked(p, k) && Fed(p, found, k) && Invariant(p, found, s, k)
    ensures Invariant(p, found, Next(p, s, a), k)
  {
    StepOwn(p, found, s, a);
    StepShut(p, found, s, a, k);
    StepHeld(p, found, s, a, k);
    forall f, position | Feeds(found, f, position, k)
      ensures Held(found, Next(p, s, a), Param(f, position)) && Shut(p, found, Next(p, s, a), Param(f, position))
    {
      StepShut(p, found, s, a, Param(f, position));
      StepHeld(p, found, s, a, Param(f, position));
    }
  }

  lemma {:induction false} InvariantRun(p: Program, found: Found, s: State, actions: seq<Action>, k: Key)
    requires Covers(p, found) && Run(p, s, actions) && Tracked(p, k) && Fed(p, found, k) && Invariant(p, found, s, k)
    ensures Invariant(p, found, End(p, s, actions), k)
    decreases |actions|
  {
    if actions != [] {
      InvariantNext(p, found, s, actions[0], k);
      InvariantRun(p, found, Next(p, s, actions[0]), actions[1..], k);
    }
  }

  /** Whatever the program does, a slot that can be followed and is certain holds one of its
      candidates or nothing that leads to a function. */
  lemma {:induction false} SlotHoldsCandidates(p: Program, s: State, actions: seq<Action>, k: Key, v: Value)
    requires Initial(s) && Run(p, s, actions)
    requires Followable(p, k) && !Uncertain(Find(p), k)
    requires v in Contents(End(p, s, actions), k)
    ensures v.Inert? || (v.Fn? && CanHold(Find(p), k, v.ref))
  {
    var found := Find(p);
    FindCovers(p);
    FollowableFed(p, k);
    StartsWell(p, found, s, k);
    InvariantRun(p, found, s, actions, k);
  }

  lemma {:induction false} StartsWell(p: Program, found: Found, s: State, k: Key)
    requires Initial(s)
    ensures Invariant(p, found, s, k)
  {
    assert forall v :: v in Circulating(s) ==> v.Inert? || v.Data?;
    forall j, v | v in Contents(s, j) ensures v.Inert? { }
  }

  /** A call through such a slot runs one of its candidates. */
  lemma {:induction false} CallRunsCandidate(p: Program, s: State, actions: seq<Action>, callee: Expr, k: Key, ref: Ref)
    requires Initial(s) && Run(p, s, actions)
    requires Followable(p, k) && !Uncertain(Find(p), k)
    requires SlotOf(callee) == Some(k) && Fn(ref) in Values(p, End(p, s, actions), callee)
    ensures CanHold(Find(p), k, ref)
  {
    var found := Find(p);
    FindCovers(p);
    FollowableFed(p, k);
    StartsWell(p, found, s, k);
    InvariantRun(p, found, s, actions, k);
    SlotValues(p, found, End(p, s, actions), callee, k, Fn(ref));
  }
}
