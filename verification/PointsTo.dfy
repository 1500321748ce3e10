/** Which functions a slot of the program may hold (internal/cproject/resolve.go).  The
    linker's answer for each written name, and which slot a member or a variable is, are given
    with the syntax tree. */
module PointsTo {

  datatype Option<+T> = None | Some(value: T)

  /** A function of the repository, or one of the platform or a package. */
  datatype Ref = Own(f: string) | Foreign(name: string)

  /** What a written function name stands for. */
  datatype Target = Known(ref: Ref) | Alternatives(fs: seq<string>) | Unresolved

  /** Where a program keeps a function pointer it later calls through. */
  datatype Key = Param(f: string, position: nat) | Global(name: string) | Local(f: string, name: string)
    | Member(record: string, field: string)

  datatype Expr =
    | Named(name: string)
    | Number(zero: bool)
    | Parameter(fn: string, position: nat)
    | Variable(key: Key, isArray: bool)
    | Field(base: Expr, member: Option<Key>, isArray: bool)
    | Element(base: Expr, index: Expr)
    | Deref(inner: Expr)
    | AddressOf(inner: Expr)
    | Cast(inner: Expr)
    | AsNumber(inner: Expr)
    | FromNumber(inner: Expr)
    | Sizeof(inner: Expr)
    | Compare(left: Expr, right: Expr)
    | Assign(left: Expr, right: Expr)
    | Conditional(test: Expr, yes: Expr, no: Expr)
    | Call(callee: Expr, args: seq<Expr>)
    | Declare(key: Key, init: Expr)
    | Rows(members: seq<Option<Key>>, values: seq<Expr>)
    | Items(within: Key, values: seq<Expr>)
    | Other(parts: seq<Expr>)

  /** What code belongs to: a function's body or a table's initializer. */
  datatype Owner = Body(f: string) | Table(name: string)

  datatype Code = Code(owner: Owner, tree: Expr)

  datatype Program = Program(code: seq<Code>, resolve: map<string, Target>, constants: set<Key>)

  function TargetOf(p: Program, name: string): Target {
    if name in p.resolve then p.resolve[name] else Unresolved
  }

  // ----- looking through an expression -----

  function Unwrap(e: Expr): (r: Expr)
    ensures r == e || r < e
    ensures !r.Cast?
  {
    if e.Cast? then Unwrap(e.inner) else e
  }

  function Strip(e: Expr): (r: Expr)
    ensures r == e || r < e
    ensures !r.Cast? && !r.Deref? && !r.AddressOf?
  {
    if e.Cast? || e.Deref? || e.AddressOf? then Strip(e.inner) else e
  }

  /** The function name a value is, however cast, dereferenced or taken the address of. */
  function Designator(e: Expr): Option<string> {
    var r := Strip(e);
    if r.Named? then Some(r.name) else None
  }

  predicate IsNull(e: Expr) {
    match e
    case Cast(x) => IsNull(x)
    case AsNumber(x) => IsNull(x)
    case FromNumber(x) => IsNull(x)
    case Number(zero) => zero
    case _ => false
  }

  /** The slot an expression reads or writes through. */
  function SlotOf(e: Expr): Option<Key> {
    match e
    case Cast(x) => SlotOf(x)
    case Deref(x) => SlotOf(x)
    case Field(_, member, _) => member
    case Element(base, _) =>
      var b := Unwrap(base);
      if b.Variable? then Some(b.key) else None
    case Parameter(fn, position) => Some(Param(fn, position))
    case Variable(key, _) => Some(key)
    case _ => None
  }

  /** The array an expression is, as a whole. */
  function ArrayOf(e: Expr): Option<Key> {
    match e
    case Cast(x) => ArrayOf(x)
    case Field(_, member, true) => member
    case Variable(key, true) => Some(key)
    case _ => None
  }

  predicate IsList(e: Expr) {
    e.Rows? || e.Items?
  }

  // ----- what one construct tells -----

  datatype Stored = Function(ref: Ref) | ParameterOf(f: string, position: nat) | Unknown

  datatype Passed = NullPassed | FunctionPassed(ref: Ref) | UnknownPassed

  datatype Fact = Stores(key: Key, what: Stored) | Passes(f: string, position: nat, value: Passed)

  /** A value that keeps what the slot already holds. */
  predicate Keeps(key: Key, value: Expr) {
    var from := Unwrap(value);
    !from.Named? && !from.Parameter? && !from.Variable? && SlotOf(from) == Some(key)
  }

  function StoredOf(p: Program, owner: Owner, value: Expr): Stored {
    match Designator(value)
    case Some(name) =>
      var target := TargetOf(p, name);
      if target.Known? then Function(target.ref) else Unknown
    case None =>
      var from := Unwrap(value);
      if from.Parameter? && owner == Body(from.fn) then ParameterOf(from.fn, from.position) else Unknown
  }

  function StoreFacts(p: Program, owner: Owner, key: Key, value: Expr): seq<Fact> {
    if IsNull(value) || Keeps(key, value) then [] else [Stores(key, StoredOf(p, owner, value))]
  }

  function EscapeFacts(p: Program, value: Expr): seq<Fact> {
    var whole, slot := ArrayOf(value), SlotOf(value);
    if (whole.Some? && whole.value in p.constants) || slot.None? then [] else [Stores(slot.value, Unknown)]
  }

  /** A parameter written in its own function holds a value its callers do not say. */
  function AssignFacts(p: Program, owner: Owner, left: Expr, right: Expr): seq<Fact> {
    match SlotOf(left)
    case None => []
    case Some(key) =>
      if !key.Param? then StoreFacts(p, owner, key, right)
      else if IsNull(right) then []
      else [Stores(key, Unknown)]
  }

  function DeclareFacts(p: Program, owner: Owner, key: Key, init: Expr): seq<Fact> {
    if IsList(Unwrap(init)) then [] else StoreFacts(p, owner, key, init)
  }

  function PassedOf(p: Program, argument: Expr): Passed {
    if IsNull(argument) then NullPassed
    else
      match Designator(argument)
      case Some(name) =>
        var target := TargetOf(p, name);
        if target.Known? then FunctionPassed(target.ref) else UnknownPassed
      case None => UnknownPassed
  }

  /** The function names a callee chosen by conditions writes in its branches. */
  function ConditionalCallees(e: Expr): Option<seq<string>>
    decreases e, 0
  {
    var r := Strip(e);
    if !r.Conditional? then None
    else
      var test := Unwrap(r.test);
      if test.Number? then BranchNames(if test.zero then r.no else r.yes)
      else
        var yes, no := BranchNames(r.yes), BranchNames(r.no);
        if yes.Some? && no.Some? then Some(yes.value + no.value) else None
  }

  function BranchNames(branch: Expr): Option<seq<string>>
    decreases branch, 1
  {
    var nested := ConditionalCallees(branch);
    if nested.Some? then nested
    else
      var name := Designator(branch);
      if name.Some? then Some([name.value]) else None
  }

  /** All names resolve to functions, and those are this one. */
  predicate AllResolveTo(p: Program, names: seq<string>, ref: Ref) {
    forall k :: 0 <= k < |names| ==>
      var target := TargetOf(p, names[k]);
      target == Known(ref) || (ref.Own? && target == Alternatives([ref.f]))
  }

  /** The repository function a call names. */
  function DirectOf(p: Program, callee: Expr): Option<string> {
    match Designator(callee)
    case Some(name) =>
      var target := TargetOf(p, name);
      if target.Known? && target.ref.Own? then Some(target.ref.f) else None
    case None =>
      var names := ConditionalCallees(callee);
      if names.None? || names.value == [] then None
      else
        match TargetOf(p, names.value[0])
        case Known(Own(f)) => if AllResolveTo(p, names.value, Own(f)) then Some(f) else None
        case Alternatives(fs) =>
          if |fs| == 1 && AllResolveTo(p, names.value, Own(fs[0])) then Some(fs[0]) else None
        case _ => None
  }

  /** What handing over one argument tells. */
  function ArgumentFacts(p: Program, direct: Option<string>, argument: Expr, position: nat): seq<Fact> {
    (if ArrayOf(argument).Some? then EscapeFacts(p, argument) else [])
    + if direct.Some? then [Passes(direct.value, position, PassedOf(p, argument))] else []
  }

  // The functions below extend what was recorded before, `log`.

  /** With what a call's first `n` arguments tell. */
  function Calling(p: Program, direct: Option<string>, args: seq<Expr>, n: nat, log: seq<Fact>): seq<Fact>
    requires n <= |args|
  {
    if n == 0 then log else Calling(p, direct, args, n - 1, log) + ArgumentFacts(p, direct, args[n-1], n)
  }

  /** With what the first `n` entries of an initializer list store: a record's members, a
      table's elements. */
  function Listing(p: Program, owner: Owner, list: Expr, n: nat, log: seq<Fact>): seq<Fact>
    requires IsList(list) && n <= |list.values|
    decreases list, n
  {
    if n == 0 then log else Entry(p, owner, list, n - 1, Listing(p, owner, list, n - 1, log))
  }

  function Entry(p: Program, owner: Owner, list: Expr, k: nat, log: seq<Fact>): seq<Fact>
    requires IsList(list) && k < |list.values|
    decreases list, k
  {
    var value := list.values[k];
    var inner := Unwrap(value);
    if IsList(inner) then Listing(p, owner, inner, |inner.values|, log)
    else if Designator(value).None? then log
    else
      match list
      case Items(_, _) => if owner.Table? then log + StoreFacts(p, owner, Global(owner.name), value) else log
      case Rows(members, _) => if k < |members| && members[k].Some?
        then log + StoreFacts(p, owner, members[k].value, value) else log
  }

  /** With what one construct itself tells. */
  function Recording(p: Program, owner: Owner, e: Expr, log: seq<Fact>): seq<Fact> {
    match e
    case Call(callee, args) => Calling(p, DirectOf(p, callee), args, |args|, log)
    case Assign(left, right) => log + AssignFacts(p, owner, left, right)
    case Declare(key, init) => log + DeclareFacts(p, owner, key, init)
    case AddressOf(inner) => log + EscapeFacts(p, inner)
    case _ => log
  }

  function NodeFacts(p: Program, owner: Owner, e: Expr): seq<Fact> {
    Recording(p, owner, e, [])
  }

  // ----- the whole of a body -----

  ghost predicate Below(parts: seq<Expr>, e: Expr) {
    forall k :: 0 <= k < |parts| ==> parts[k] < e
  }

  function Children(e: Expr): seq<Expr> {
    match e
    case Field(base, _, _) => [base]
    case Element(base, index) => [base, index]
    case Deref(x) => [x]
    case AddressOf(x) => [x]
    case Cast(x) => [x]
    case AsNumber(x) => [x]
    case FromNumber(x) => [x]
    case Sizeof(x) => [x]
    case Compare(left, right) => [left, right]
    case Assign(left, right) => [left, right]
    case Conditional(test, yes, no) => [test, yes, no]
    case Call(callee, args) => [callee] + args
    case Declare(_, init) => [init]
    case Rows(_, values) => values
    case Items(_, values) => values
    case Other(parts) => parts
    case _ => []
  }

  lemma {:induction false} ChildrenBelow(e: Expr)
    ensures Below(Children(e), e)
  {
    if e.Call? { assert Below(e.args, e); }
  }

  /** The parts that do not just name a function. */
  function Unnamed(parts: seq<Expr>): seq<Expr> {
    if parts == [] then []
    else Unnamed(parts[..|parts|-1]) + if Designator(parts[|parts|-1]).None? then [parts[|parts|-1]] else []
  }

  lemma {:induction false} UnnamedParts(parts: seq<Expr>, x: Expr)
    ensures x in Unnamed(parts) <==> x in parts && Designator(x).None?
  {
    if parts != [] {
      UnnamedParts(parts[..|parts|-1], x);
      assert parts == parts[..|parts|-1] + [parts[|parts|-1]];
    }
  }

  lemma {:induction false} UnnamedBelow(parts: seq<Expr>, e: Expr)
    requires Below(parts, e)
    ensures Below(Unnamed(parts), e)
  {
    forall k | 0 <= k < |Unnamed(parts)| ensures Unnamed(parts)[k] < e { UnnamedParts(parts, Unnamed(parts)[k]); }
  }

  predicate IsVariable(e: Expr) {
    Unwrap(e).Variable?
  }

  /** The parts the walk goes on to. */
  function Walked(e: Expr): seq<Expr> {
    match e
    case Call(callee, args) => Unnamed([callee]) + args
    case Assign(left, right) => (if IsVariable(left) then [] else [left]) + Unnamed([right])
    case Declare(_, init) => Unnamed([init])
    case Rows(_, values) => Unnamed(values)
    case Items(_, values) => Unnamed(values)
    case _ => Children(e)
  }

  lemma {:induction false} WalkedBelow(e: Expr)
    ensures Below(Walked(e), e)
  {
    ChildrenBelow(e);
    match e
    case Call(callee, args) => UnnamedBelow([callee], e); assert Below(args, e);
    case Assign(_, right) => UnnamedBelow([right], e);
    case Declare(_, init) => UnnamedBelow([init], e);
    case Rows(_, values) => UnnamedBelow(values, e);
    case Items(_, values) => UnnamedBelow(values, e);
    case _ =>
  }

  /** With all that is recorded walking an expression; a list inside a list was read with it. */
  function Walking(p: Program, owner: Owner, e: Expr, inList: bool, log: seq<Fact>): seq<Fact>
    decreases e, |Walked(e)| + 1
  {
    WalkingTo(p, owner, e, inList, |Walked(e)|,
              if IsList(e) && !inList then Listing(p, owner, e, |e.values|, log) else Recording(p, owner, e, log))
  }

  function WalkingTo(p: Program, owner: Owner, e: Expr, inList: bool, n: nat, log: seq<Fact>): seq<Fact>
    requires n <= |Walked(e)|
    decreases e, n
  {
    if n == 0 then log
    else
      WalkedBelow(e);
      Walking(p, owner, Walked(e)[n-1], inList || IsList(e), WalkingTo(p, owner, e, inList, n - 1, log))
  }

  /** A table's initializer is not walked, only stored or read as a list. */
  function Reading(p: Program, code: Code, log: seq<Fact>): seq<Fact> {
    match code.owner
    case Body(_) => Walking(p, code.owner, code.tree, false, log)
    case Table(name) =>
      var list := Unwrap(code.tree);
      if IsList(list) then Listing(p, code.owner, list, |list.values|, log)
        else log + StoreFacts(p, code.owner, Global(name), code.tree)
  }

  function AllFacts(p: Program, n: nat): seq<Fact>
    requires n <= |p.code|
  {
    if n == 0 then [] else Reading(p, p.code[n-1], AllFacts(p, n - 1))
  }

  // ----- functions used as values -----

  function OwnFunctions(p: Program, name: string): set<string> {
    match TargetOf(p, name)
    case Known(Own(f)) => {f}
    case Alternatives(fs) => set f | f in fs
    case _ => {}
  }

  function Naming(p: Program, e: Expr): set<string> {
    if e.Named? then OwnFunctions(p, e.name) else {}
  }

  /** The parts looked at for values. */
  function Visited(e: Expr): seq<Expr> {
    match e
    case Call(callee, args) => Unnamed([callee]) + args
    case Compare(left, right) => Unnamed([left, right])
    case AsNumber(inner) => Unnamed([inner])
    case _ => Children(e)
  }

  lemma {:induction false} VisitedBelow(e: Expr)
    ensures Below(Visited(e), e)
  {
    ChildrenBelow(e);
    match e
    case Call(callee, args) => UnnamedBelow([callee], e); assert Below(args, e);
    case Compare(left, right) => UnnamedBelow([left, right], e);
    case AsNumber(inner) => UnnamedBelow([inner], e);
    case _ =>
  }

  /** With the repository functions an expression uses as values. */
  function Escaping(p: Program, e: Expr, escaped: set<string>): set<string>
    decreases e, |Visited(e)| + 1
  {
    EscapingTo(p, e, |Visited(e)|, escaped + Naming(p, e))
  }

  function EscapingTo(p: Program, e: Expr, n: nat, escaped: set<string>): set<string>
    requires n <= |Visited(e)|
    decreases e, n
  {
    if n == 0 then escaped else VisitedBelow(e); Escaping(p, Visited(e)[n-1], EscapingTo(p, e, n - 1, escaped))
  }

  function EscapesOf(p: Program, e: Expr): set<string> {
    Escaping(p, e, {})
  }

  function Looking(p: Program, code: Code, escaped: set<string>): set<string> {
    Escaping(p, code.tree, escaped)
  }

  function AllEscapes(p: Program, n: nat): set<string>
    requires n <= |p.code|
  {
    if n == 0 then {} else Looking(p, p.code[n-1], AllEscapes(p, n - 1))
  }

  // ----- the candidates of a slot -----

  /** What the whole program was found to store and pass, and the functions it uses as values. */
  datatype Found = Found(facts: seq<Fact>, escaped: set<string>)

  function Find(p: Program): Found {
    Found(AllFacts(p, |p.code|), AllEscapes(p, |p.code|))
  }

  /** A parameter may hold what no direct call shows. */
  predicate UncertainJoin(found: Found, f: string, position: nat) {
    f in found.escaped || Passes(f, position, UnknownPassed) in found.facts
  }

  predicate Feeds(found: Found, f: string, position: nat, key: Key) {
    Stores(key, ParameterOf(f, position)) in found.facts
  }

  /** The slot may hold a value that cannot be named. */
  ghost predicate Uncertain(found: Found, key: Key) {
    || (key.Param? && UncertainJoin(found, key.f, key.position))
    || Stores(key, Unknown) in found.facts
    || exists f, position :: Feeds(found, f, position, key) && UncertainJoin(found, f, position)
  }

  predicate IsPassed(found: Found, f: string, position: nat, ref: Ref) {
    Passes(f, position, FunctionPassed(ref)) in found.facts
  }

  /** The function is stored in the slot, or passed to a parameter it is or takes. */
  ghost predicate CanHold(found: Found, key: Key, ref: Ref) {
    || (key.Param? && IsPassed(found, key.f, key.position, ref))
    || Stores(key, Function(ref)) in found.facts
    || exists f, position :: Feeds(found, f, position, key) && IsPassed(found, f, position, ref)
  }
}
