/** One program in which each of these shapes gives a certain and wrong answer: every slot is found
    to hold `early` alone, and a run puts `late` into it. */
module PointsToExample {
  import opened PointsTo
  import opened PointsToText
  import opened PointsToRuns
  import opened PointsToLimits

  const RUN: Key := Member("ops", "run")
  const STOP: Key := Member("ops", "stop")
  const MANY: Key := Member("ops", "many")
  const TABLE: Key := Local("main", "table")
  const ALIAS: Key := Local("main", "alias")
  const HOOKS: Key := Global("hooks")
  const SHARED: Key := Global("shared")
  const HOOK: Key := Global("hook")
  const WHERE: Key := Global("where")
  const KEPT: Key := Global("kept")
  const GIVEN: Key := Param("keep", 1)
  const PICKED: Key := Param("pick1", 1)
  const EARLY: Ref := Own("early")
  const LATE: Ref := Own("late")

  function MemberOf(k: Key, isArray: bool): Expr {
    Field(Variable(Global("o"), false), Some(k), isArray)
  }

  function FirstOf(elements: Expr): Expr {
    Element(elements, Number(true))
  }

  function Late(left: Expr): Expr {
    Assign(left, Named("late"))
  }

  function Early(left: Expr): Expr {
    Assign(left, Named("early"))
  }

  function CallOf(f: string, argument: string): Expr {
    Call(Named(f), [Named(argument)])
  }

  /** void build(handler h) { struct ops o = { h }; } */
  function Building(): Expr {
    Rows([Some(RUN)], [Parameter("build", 1)])
  }

  /** handler *share() { return shared; } */
  function Sharing(): Expr {
    Other([Variable(SHARED, true)])
  }

  /** void keep(handler given) { given = late; kept = given; } */
  function Keeping(): Expr {
    Other([Late(Parameter("keep", 1)), Assign(Variable(KEPT, false), Parameter("keep", 1))])
  }

  /** handler *where = &hook; at file scope. */
  function Where(): Expr {
    AddressOf(Variable(HOOK, false))
  }

  /** A struct ops literal under a call in another list. */
  function Literal(): Expr {
    Rows([Some(STOP)], [Named("late")])
  }

  function Nested(): Expr {
    Rows([None], [Call(Named("see"), [Literal()])])
  }

  function LocalTable(): Expr {
    Items(TABLE, [Named("late")])
  }

  function Lists(): Expr {
    Other([CallOf("build", "late"), Nested(), LocalTable()])
  }

  /** alias = hooks; *alias = late; o.many[0] = late; */
  function Arrays(): Expr {
    Other([Assign(Variable(ALIAS, false), Variable(HOOKS, true)), Late(Deref(Variable(ALIAS, false))),
           Late(FirstOf(MemberOf(MANY, true)))])
  }

  /** *share() = late; *where = late; */
  function Writes(): Expr {
    Other([Late(Deref(Call(Named("share"), []))), Late(Deref(Variable(WHERE, false)))])
  }

  function Passing(): Expr {
    Other([CallOf("pick", "late"), CallOf("pick1", "early"), CallOf("keep", "early")])
  }

  function EarlyMembers(): Expr {
    Other([Early(MemberOf(RUN, false)), Early(MemberOf(STOP, false)), Early(Deref(MemberOf(MANY, true)))])
  }

  function EarlyVariables(): Expr {
    Other([Early(FirstOf(Variable(TABLE, true))), Early(FirstOf(Variable(HOOKS, true))),
           Early(FirstOf(Variable(SHARED, true))), Early(Variable(HOOK, false))])
  }

  function Main(): Expr {
    Other([Lists(), Arrays(), Writes(), Passing(), EarlyMembers(), EarlyVariables()])
  }

  function Mixed(): Program {
    Program([Code(Body("build"), Building()), Code(Body("share"), Sharing()), Code(Body("keep"), Keeping()),
             Code(Table("where"), Where()), Code(Body("main"), Main())],
            map["build" := Known(Own("build")), "share" := Known(Own("share")), "keep" := Known(Own("keep")),
                "see" := Known(Foreign("see")), "pick1" := Known(Own("pick1")), "pick" :=
                  Alternatives(["pick1", "pick2"]),
                "early" := Known(EARLY), "late" := Known(LATE)],
            {})
  }

  // ----- which functions it uses as values -----

  /** Called by name only. */
  predicate OnlyCalled(f: string) {
    f == "keep" || f == "pick1"
  }

  ghost predicate Unused(p: Program, e: Expr) {
    forall f :: OnlyCalled(f) ==> f !in EscapesOf(p, e)
  }

  /** A function the first parts use as a value, one of them does. */
  lemma {:induction false} EscapedUpTo(p: Program, e: Expr, n: nat, f: string) returns (k: nat)
    requires n <= |Visited(e)| && f in EscapingTo(p, e, n, {})
    ensures k < n && f in EscapesOf(p, Visited(e)[k])
  {
    VisitedBelow(e);
    EscapingGrows(p, Visited(e)[n-1], EscapingTo(p, e, n - 1, {}), f);
    if f in EscapingTo(p, e, n - 1, {}) { k := EscapedUpTo(p, e, n - 1, f); } else { k := n - 1; }
  }

  lemma {:induction false} UnusedNode(p: Program, e: Expr)
    requires forall f :: OnlyCalled(f) ==> f !in Naming(p, e)
    requires forall k :: 0 <= k < |Visited(e)| ==> Unused(p, Visited(e)[k])
    ensures Unused(p, e)
  {
    forall f | OnlyCalled(f) ensures f !in EscapesOf(p, e) {
      EscapingToGrows(p, e, |Visited(e)|, {} + Naming(p, e), f);
      if f in EscapingTo(p, e, |Visited(e)|, {}) { var k := EscapedUpTo(p, e, |Visited(e)|, f); }
    }
  }

  // ----- what its text tells -----

  predicate Listed(x: Fact) {
    match x
    case Stores(k, Function(ref)) => (ref == EARLY && k != KEPT && k != PICKED)
      || (ref == LATE && (k == ALIAS || k == WHERE))
    case Stores(k, Unknown) => k == ALIAS || k == WHERE || k == GIVEN
    case Stores(k, ParameterOf(f, position)) => k == KEPT && Param(f, position) == GIVEN
    case Passes(f, position, value) =>
      || (Param(f, position) == Param("build", 1) && value == FunctionPassed(LATE))
      || ((Param(f, position) == GIVEN || Param(f, position) == PICKED) && value == FunctionPassed(EARLY))
  }

  predicate AllListed(facts: seq<Fact>) {
    forall x :: x in facts ==> Listed(x)
  }

  ghost predicate QuietText(p: Program, owner: Owner, e: Expr) {
    forall n :: n in Text(e) ==> AllListed(NodeFacts(p, owner, n))
  }

  ghost predicate QuietLists(p: Program, owner: Owner, e: Expr) {
    forall m, j :: m in Read(e) && IsList(m) && 0 <= j < |m.values| ==> AllListed(EntryFacts(p, owner, m, j))
  }

  ghost predicate Quiet(p: Program, owner: Owner, e: Expr) {
    QuietText(p, owner, e) && QuietLists(p, owner, e) && Unused(p, e)
  }

  lemma {:induction false} QuietNode(p: Program, owner: Owner, e: Expr)
    requires !IsList(e) && AllListed(NodeFacts(p, owner, e)) && Visited(e) == Children(e)
    requires forall f :: OnlyCalled(f) ==> f !in Naming(p, e)
    requires forall k :: 0 <= k < |Children(e)| ==> Quiet(p, owner, Children(e)[k])
    ensures Quiet(p, owner, e)
  {
    UnusedNode(p, e);
    QuietTextNode(p, owner, e);
    forall m, j | m in Read(e) && IsList(m) && 0 <= j < |m.values| ensures AllListed(EntryFacts(p, owner, m, j)) {
      var k := ReadFrom(e, |Children(e)|, m);
      assert Quiet(p, owner, Children(e)[k]);
    }
  }

  lemma {:induction false} QuietTextNode(p: Program, owner: Owner, e: Expr)
    requires AllListed(NodeFacts(p, owner, e))
    requires forall k :: 0 <= k < |Children(e)| ==> QuietText(p, owner, Children(e)[k])
    ensures QuietText(p, owner, e)
  {
    forall n | n in Text(e) && n != e ensures AllListed(NodeFacts(p, owner, n)) {
      var k := TextFrom(e, |Children(e)|, n);
    }
  }

  lemma {:induction false} OneList(e: Expr)
    requires IsList(e) && |e.values| == 1 && !IsList(Unwrap(e.values[0]))
    ensures Read(e) == {e}
  {
    assert ListsTo(e, 0) == {} && ListsTo(e, 1) == {};
  }

  /** A list of one entry, which is no list. */
  lemma {:induction false} QuietList(p: Program, owner: Owner, e: Expr)
    requires IsList(e) && |e.values| == 1 && !IsList(Unwrap(e.values[0])) && AllListed(EntryFacts(p, owner, e, 0))
    requires QuietText(p, owner, e.values[0]) && Unused(p, e.values[0])
    ensures Quiet(p, owner, e)
  {
    UnusedNode(p, e);
    QuietTextNode(p, owner, e);
    OneList(e);
  }

  predicate IsLeaf(e: Expr) {
    e.Named? || e.Number? || e.Parameter? || e.Variable?
  }

  lemma {:induction false} QuietLeaf(p: Program, owner: Owner, e: Expr)
    requires IsLeaf(e) && forall f :: OnlyCalled(f) ==> f !in Naming(p, e)
    ensures Quiet(p, owner, e)
  {
    QuietNode(p, owner, e);
  }

  /** A name that stands for another function. */
  predicate Aside(p: Program, name: string, ref: Ref) {
    TargetOf(p, name) == Known(ref) && ref != Own("keep") && ref != Own("pick1")
  }

  lemma {:induction false} QuietName(p: Program, owner: Owner, name: string, ref: Ref)
    requires Aside(p, name, ref)
    ensures Quiet(p, owner, Named(name))
  {
    QuietLeaf(p, owner, Named(name));
  }

  lemma {:induction false} UnnamedNone(e: Expr)
    requires Designator(e).Some?
    ensures Unnamed([e]) == []
  {
    assert [e][..0] == [];
  }

  lemma {:induction false} CalledText(p: Program, owner: Owner, e: Expr)
    requires e.Call? && e.callee.Named? && AllListed(NodeFacts(p, owner, e))
    requires forall k :: 0 <= k < |e.args| ==> QuietText(p, owner, e.args[k])
    ensures QuietText(p, owner, e)
  {
    QuietTextNode(p, owner, e.callee);
    assert forall k :: 0 <= k < |Children(e)| ==> Children(e)[k] == if k == 0 then e.callee else e.args[k-1];
    QuietTextNode(p, owner, e);
  }

  lemma {:induction false} CalledLists(p: Program, owner: Owner, e: Expr)
    requires e.Call? && e.callee.Named? && forall k :: 0 <= k < |e.args| ==> QuietLists(p, owner, e.args[k])
    ensures QuietLists(p, owner, e)
  {
    forall m, j | m in Read(e) && IsList(m) && 0 <= j < |m.values| ensures AllListed(EntryFacts(p, owner, m, j)) {
      var k := ReadFrom(e, |Children(e)|, m);
      assert k > 0 && QuietLists(p, owner, e.args[k-1]);
    }
  }

  lemma {:induction false} CalledUnused(p: Program, e: Expr)
    requires e.Call? && e.callee.Named? && forall k :: 0 <= k < |e.args| ==> Unused(p, e.args[k])
    ensures Unused(p, e)
  {
    UnnamedNone(e.callee);
    assert Visited(e) == e.args;
    UnusedNode(p, e);
  }

  /** A call by a name. */
  lemma {:induction false} QuietCalled(p: Program, owner: Owner, e: Expr)
    requires e.Call? && e.callee.Named? && AllListed(NodeFacts(p, owner, e))
    requires forall k :: 0 <= k < |e.args| ==> Quiet(p, owner, e.args[k])
    ensures Quiet(p, owner, e)
  {
    CalledText(p, owner, e);
    CalledLists(p, owner, e);
    CalledUnused(p, e);
  }

  lemma {:induction false} QuietAssign(p: Program, owner: Owner, left: Expr, right: Expr)
    requires Quiet(p, owner, left) && Quiet(p, owner, right) && AllListed(AssignFacts(p, owner, left, right))
    ensures Quiet(p, owner, Assign(left, right))
  {
    assert Children(Assign(left, right)) == [left, right];
    QuietNode(p, owner, Assign(left, right));
  }

  lemma {:induction false} Targets()
    ensures var p := Mixed(); Aside(p, "late", LATE) && Aside(p, "early", EARLY)
  {
  }

  lemma {:induction false} CallFacts(p: Program, owner: Owner, f: string, argument: string, ref: Ref)
    requires TargetOf(p, argument) == Known(ref)
    ensures NodeFacts(p, owner, CallOf(f, argument)) ==
            match TargetOf(p, f) case Known(Own(g)) => [Passes(g, 1, FunctionPassed(ref))] case _ => []
  {
    var args := [Named(argument)];
    var none: seq<Fact> := [];
    var direct := DirectOf(p, Named(f));
    assert direct == match TargetOf(p, f) case Known(Own(g)) => Some(g) case _ => None;
    assert Calling(p, direct, args, 0, none) == none;
    assert Calling(p, direct, args, 1, none) == none + ArgumentFacts(p, direct, args[0], 1);
    assert ArrayOf(args[0]) == None && PassedOf(p, args[0]) == FunctionPassed(ref);
  }

  lemma {:induction false} QuietCall(p: Program, owner: Owner, f: string, argument: string, ref: Ref)
    requires Aside(p, argument, ref)
    requires match TargetOf(p, f) case Known(Own(g)) => Listed(Passes(g, 1, FunctionPassed(ref))) case _ => true
    ensures Quiet(p, owner, CallOf(f, argument))
  {
    CallFacts(p, owner, f, argument, ref);
    QuietName(p, owner, argument, ref);
    QuietCalled(p, owner, CallOf(f, argument));
  }

  /** A variable, a member of one, or what one of these points to or has as its first element. */
  predicate Plain(e: Expr) {
    match e
    case Field(base, _, _) => base.Variable?
    case Deref(x) => x.Variable? || (x.Field? && x.base.Variable?)
    case Element(base, index) => index == Number(true) && (base.Variable? || (base.Field? && base.base.Variable?))
    case _ => e.Variable?
  }

  lemma {:induction false} QuietPlain(p: Program, owner: Owner, e: Expr)
    requires Plain(e)
    ensures Quiet(p, owner, e)
  {
    if e.Element? { QuietLeaf(p, owner, Number(true)); }
    if e.Variable? { QuietLeaf(p, owner, e); }
    else {
      var x := if e.Deref? then e.inner else e.base;
      if x.Variable? { QuietLeaf(p, owner, x); }
      else {
        QuietLeaf(p, owner, x.base);
        QuietNode(p, owner, x);
      }
      QuietNode(p, owner, e);
    }
  }

  /** Storing a function in a place says so, if the place is a slot. */
  lemma {:induction false} QuietStore(p: Program, owner: Owner, left: Expr, name: string, ref: Ref)
    requires Plain(left) && Aside(p, name, ref)
    requires match SlotOf(left) case None => true case Some(k) => !k.Param? && Listed(Stores(k, Function(ref)))
    ensures Quiet(p, owner, Assign(left, Named(name)))
  {
    QuietPlain(p, owner, left);
    QuietName(p, owner, name, ref);
    QuietAssign(p, owner, left, Named(name));
  }

  lemma {:induction false} QuietOther(p: Program, owner: Owner, parts: seq<Expr>)
    requires forall k :: 0 <= k < |parts| ==> Quiet(p, owner, parts[k])
    ensures Quiet(p, owner, Other(parts))
  {
    QuietNode(p, owner, Other(parts));
  }

  lemma {:induction false} QuietPair(p: Program, owner: Owner, a: Expr, b: Expr)
    requires Quiet(p, owner, a) && Quiet(p, owner, b)
    ensures Quiet(p, owner, Other([a, b]))
  {
    QuietOther(p, owner, [a, b]);
  }

  lemma {:induction false} QuietThree(p: Program, owner: Owner, a: Expr, b: Expr, c: Expr)
    requires Quiet(p, owner, a) && Quiet(p, owner, b) && Quiet(p, owner, c)
    ensures Quiet(p, owner, Other([a, b, c]))
  {
    QuietOther(p, owner, [a, b, c]);
  }

  lemma {:induction false} QuietFour(p: Program, owner: Owner, a: Expr, b: Expr, c: Expr, d: Expr)
    requires Quiet(p, owner, a) && Quiet(p, owner, b) && Quiet(p, owner, c) && Quiet(p, owner, d)
    ensures Quiet(p, owner, Other([a, b, c, d]))
  {
    QuietOther(p, owner, [a, b, c, d]);
  }

  lemma {:induction false} QuietSix(p: Program, owner: Owner, a: Expr, b: Expr, c: Expr, d: Expr, e: Expr, f: Expr)
    requires Quiet(p, owner, a) && Quiet(p, owner, b) && Quiet(p, owner, c) && Quiet(p, owner, d) && Quiet(p, owner, e)
             && Quiet(p, owner, f)
    ensures Quiet(p, owner, Other([a, b, c, d, e, f]))
  {
    QuietOther(p, owner, [a, b, c, d, e, f]);
  }

  lemma {:induction false} NestedCallFacts(p: Program, owner: Owner)
    requires TargetOf(p, "see") == Known(Foreign("see"))
    ensures NodeFacts(p, owner, Call(Named("see"), [Literal()])) == []
  {
    var args := [Literal()];
    var none: seq<Fact> := [];
    assert Calling(p, None, args, 0, none) == none;
    assert Calling(p, None, args, 1, none) == none + ArgumentFacts(p, None, args[0], 1);
  }

  lemma {:induction false} QuietNested(p: Program, owner: Owner)
    requires TargetOf(p, "see") == Known(Foreign("see")) && Aside(p, "late", LATE)
    ensures Quiet(p, owner, Nested())
  {
    QuietName(p, owner, "late", LATE);
    QuietTextNode(p, owner, Literal());
    UnusedNode(p, Literal());
    NestedCallFacts(p, owner);
    CalledText(p, owner, Call(Named("see"), [Literal()]));
    CalledUnused(p, Call(Named("see"), [Literal()]));
    QuietList(p, owner, Nested());
  }

  lemma {:induction false} QuietListsOf(p: Program)
    requires p == Mixed()
    ensures Quiet(p, Body("main"), Lists())
  {
    Targets();
    var owner := Body("main");
    QuietCall(p, owner, "build", "late", LATE);
    QuietNested(p, owner);
    QuietName(p, owner, "late", LATE);
    QuietList(p, owner, LocalTable());
    QuietThree(p, owner, CallOf("build", "late"), Nested(), LocalTable());
  }

  lemma {:induction false} QuietArrays(p: Program)
    requires p == Mixed()
    ensures Quiet(p, Body("main"), Arrays())
  {
    Targets();
    var owner, alias := Body("main"), Variable(ALIAS, false);
    QuietLeaf(p, owner, alias);
    QuietLeaf(p, owner, Variable(HOOKS, true));
    QuietAssign(p, owner, alias, Variable(HOOKS, true));
    QuietStore(p, owner, Deref(alias), "late", LATE);
    QuietStore(p, owner, FirstOf(MemberOf(MANY, true)), "late", LATE);
    QuietThree(p, owner, Assign(alias, Variable(HOOKS, true)), Late(Deref(alias)),
      Late(FirstOf(MemberOf(MANY, true))));
  }

  lemma {:induction false} QuietShared(p: Program, owner: Owner)
    requires Aside(p, "late", LATE)
    ensures Quiet(p, owner, Late(Deref(Call(Named("share"), []))))
  {
    var call := Call(Named("share"), []);
    QuietCalled(p, owner, call);
    QuietNode(p, owner, Deref(call));
    QuietName(p, owner, "late", LATE);
    QuietAssign(p, owner, Deref(call), Named("late"));
  }

  lemma {:induction false} QuietWrites(p: Program)
    requires p == Mixed()
    ensures Quiet(p, Body("main"), Writes())
  {
    Targets();
    var owner := Body("main");
    QuietShared(p, owner);
    QuietStore(p, owner, Deref(Variable(WHERE, false)), "late", LATE);
    QuietPair(p, owner, Late(Deref(Call(Named("share"), []))), Late(Deref(Variable(WHERE, false))));
  }

  lemma {:induction false} QuietCalls(p: Program)
    requires p == Mixed()
    ensures Quiet(p, Body("main"), Passing())
  {
    Targets();
    var owner := Body("main");
    QuietCall(p, owner, "pick", "late", LATE);
    QuietCall(p, owner, "pick1", "early", EARLY);
    QuietCall(p, owner, "keep", "early", EARLY);
    QuietThree(p, owner, CallOf("pick", "late"), CallOf("pick1", "early"), CallOf("keep", "early"));
  }

  lemma {:induction false} QuietMembers(p: Program)
    requires Aside(p, "early", EARLY)
    ensures Quiet(p, Body("main"), EarlyMembers())
  {
    var owner := Body("main");
    QuietStore(p, owner, MemberOf(RUN, false), "early", EARLY);
    QuietStore(p, owner, MemberOf(STOP, false), "early", EARLY);
    QuietStore(p, owner, Deref(MemberOf(MANY, true)), "early", EARLY);
    QuietThree(p, owner, Early(MemberOf(RUN, false)), Early(MemberOf(STOP, false)), Early(Deref(MemberOf(MANY, true))));
  }

  lemma {:induction false} QuietVariables(p: Program)
    requires Aside(p, "early", EARLY)
    ensures Quiet(p, Body("main"), EarlyVariables())
  {
    var owner := Body("main");
    var table, hooks, shared := FirstOf(Variable(TABLE, true)), FirstOf(Variable(HOOKS, true)),
      FirstOf(Variable(SHARED, true));
    QuietStore(p, owner, table, "early", EARLY);
    QuietStore(p, owner, hooks, "early", EARLY);
    QuietStore(p, owner, shared, "early", EARLY);
    QuietStore(p, owner, Variable(HOOK, false), "early", EARLY);
    QuietFour(p, owner, Early(table), Early(hooks), Early(shared), Early(Variable(HOOK, false)));
  }

  lemma {:induction false} QuietMain(p: Program)
    requires p == Mixed()
    ensures Quiet(p, Body("main"), Main())
  {
    Targets();
    QuietListsOf(p);
    QuietArrays(p);
    QuietWrites(p);
    QuietCalls(p);
    QuietMembers(p);
    QuietVariables(p);
    QuietSix(p, Body("main"), Lists(), Arrays(), Writes(), Passing(), EarlyMembers(), EarlyVariables());
  }

  lemma {:induction false} QuietBuilding(p: Program)
    ensures Quiet(p, Body("build"), Building())
  {
    QuietLeaf(p, Body("build"), Parameter("build", 1));
    QuietList(p, Body("build"), Building());
  }

  lemma {:induction false} QuietSharing(p: Program)
    ensures Quiet(p, Body("share"), Sharing())
  {
    QuietLeaf(p, Body("share"), Variable(SHARED, true));
    QuietNode(p, Body("share"), Sharing());
  }

  lemma {:induction false} QuietKeeping(p: Program)
    requires Aside(p, "late", LATE)
    ensures Quiet(p, Body("keep"), Keeping())
  {
    var owner, given, kept := Body("keep"), Parameter("keep", 1), Variable(KEPT, false);
    QuietLeaf(p, owner, given);
    QuietLeaf(p, owner, kept);
    QuietName(p, owner, "late", LATE);
    QuietAssign(p, owner, given, Named("late"));
    QuietAssign(p, owner, kept, given);
    QuietPair(p, owner, Late(given), Assign(kept, given));
  }

  lemma {:induction false} QuietCode(p: Program, c: nat)
    requires p == Mixed() && c < 5 && c != 3
    ensures p.code[c].owner.Body? && Quiet(p, p.code[c].owner, p.code[c].tree)
  {
    Targets();
    match c
    case 0 => QuietBuilding(p);
    case 1 => QuietSharing(p);
    case 2 => QuietKeeping(p);
    case _ => QuietMain(p);
  }

  lemma {:induction false} QuietWhere(p: Program)
    requires p == Mixed()
    ensures AllListed(TableFacts(p, p.code[3])) && ListsRead(p.code[3]) == {} && p.code[3].owner.Table?
  {
  }

  lemma {:induction false} UnusedWhere(p: Program)
    requires p == Mixed()
    ensures Unused(p, p.code[3].tree)
  {
    UnusedNode(p, Variable(HOOK, false));
    UnusedNode(p, Where());
  }

  /** The program tells nothing that is not listed. */
  lemma {:induction false} OnlyListed(p: Program, x: Fact)
    requires p == Mixed() && Told(p, x)
    ensures Listed(x)
  {
    var c :| 0 <= c < |p.code| && Says(p, p.code[c], x);
    if c == 3 { QuietWhere(p); } else { QuietCode(p, c); }
  }

  lemma {:induction false} NotPassed(p: Program, f: string)
    requires p == Mixed() && OnlyCalled(f)
    ensures Unpassed(p, f, 1, LATE)
  {
    forall c | 0 <= c < |p.code| ensures f !in EscapesOf(p, p.code[c].tree) {
      if c == 3 { UnusedWhere(p); } else { QuietCode(p, c); }
    }
    if Told(p, Passes(f, 1, UnknownPassed)) { OnlyListed(p, Passes(f, 1, UnknownPassed)); }
    if Told(p, Passes(f, 1, FunctionPassed(LATE))) { OnlyListed(p, Passes(f, 1, FunctionPassed(LATE))); }
  }

  predicate Wrong(k: Key) {
    k in {RUN, STOP, MANY, TABLE, HOOKS, SHARED, HOOK, KEPT, PICKED}
  }

  /** Nothing tells that these slots may hold `late`. */
  lemma {:induction false} LateUnsaid(p: Program, k: Key)
    requires p == Mixed() && Wrong(k)
    ensures Unsaid(p, k, LATE)
  {
    if Told(p, Stores(k, Unknown)) { OnlyListed(p, Stores(k, Unknown)); }
    if Told(p, Stores(k, Function(LATE))) { OnlyListed(p, Stores(k, Function(LATE))); }
    if k.Param? { NotPassed(p, k.f); }
    forall f, position | Told(p, Stores(k, ParameterOf(f, position))) ensures Unpassed(p, f, position, LATE) {
      OnlyListed(p, Stores(k, ParameterOf(f, position)));
      NotPassed(p, "keep");
    }
  }

  // ----- what it does -----

  lemma {:induction false} InPart(e: Expr, k: nat, x: Expr)
    requires e.Other? && k < |e.parts| && x in Nodes(e.parts[k])
    ensures x in Nodes(e)
  {
    SubNodes(e, k);
  }

  lemma {:induction false} InMain(i: nat, k: nat)
    requires i < 6 && Main().parts[i].Other? && k < |Main().parts[i].parts|
    ensures Main().parts[i].parts[k] in Nodes(Main())
  {
    var group := Main().parts[i];
    assert group.parts[k] in Nodes(group.parts[k]);
    InPart(group, k, group.parts[k]);
    InPart(Main(), i, group.parts[k]);
  }

  lemma {:induction false} RunLost(p: Program)
    requires p == Mixed()
    ensures Reached(p, RUN, LATE)
  {
    InMain(0, 0);
    ParameterEntryLost(p, 4, CallOf("build", "late"), 0, Building(), 0, "build", 1, RUN, LATE);
  }

  lemma {:induction false} LiteralNested()
    ensures Literal() in Nodes(Nested())
  {
    var call := Call(Named("see"), [Literal()]);
    assert Literal() in Nodes(Literal()) && Children(call)[1] == Literal() && Children(Nested())[0] == call;
    SubNodes(call, 1);
    SubNodes(Nested(), 0);
  }

  lemma {:induction false} LiteralInMain()
    ensures Literal() in Nodes(Main())
  {
    LiteralNested();
    InPart(Lists(), 1, Literal());
    InPart(Main(), 0, Literal());
  }

  lemma {:induction false} LiteralFacts(p: Program, owner: Owner)
    requires Aside(p, "late", LATE)
    ensures Stores(STOP, Function(LATE)) in EntryFacts(p, owner, Literal(), 0)
  {
  }

  lemma {:induction false} LiteralUnread(p: Program)
    requires p == Mixed()
    ensures Literal() !in Read(Main())
  {
    QuietMain(p);
    Targets();
    LiteralFacts(p, Body("main"));
    assert !Listed(Stores(STOP, Function(LATE)));
  }

  lemma {:induction false} StopLost(p: Program)
    requires p == Mixed()
    ensures Reached(p, STOP, LATE)
  {
    LiteralInMain();
    LiteralUnread(p);
    EntryLost(p, 4, Literal(), 0, STOP, LATE);
  }

  lemma {:induction false} TableLost(p: Program)
    requires p == Mixed()
    ensures Reached(p, TABLE, LATE)
  {
    InMain(0, 2);
    EntryLost(p, 4, LocalTable(), 0, TABLE, LATE);
  }

  lemma {:induction false} HooksLost(p: Program)
    requires p == Mixed()
    ensures Reached(p, HOOKS, LATE)
  {
    InMain(1, 0);
    InMain(1, 1);
    AliasLost(p, 4, Arrays().parts[0], 0, 4, Arrays().parts[1], HOOKS, ALIAS, LATE);
  }

  lemma {:induction false} ManyLost(p: Program)
    requires p == Mixed()
    ensures Reached(p, MANY, LATE)
  {
    InMain(1, 2);
    ElementLost(p, 4, Arrays().parts[2], MANY, LATE);
  }

  lemma {:induction false} SharedLost(p: Program)
    requires p == Mixed()
    ensures Reached(p, SHARED, LATE)
  {
    InMain(2, 0);
    assert Sharing() in Nodes(Sharing());
    ReturnedLost(p, 1, Sharing(), 0, "share", 4, Writes().parts[0], SHARED, LATE);
  }

  lemma {:induction false} HookLost(p: Program)
    requires p == Mixed()
    ensures Reached(p, HOOK, LATE)
  {
    InMain(2, 1);
    var table := TreeOf(p.code[3]);
    assert table in Nodes(table);
    AliasLost(p, 3, table, 0, 4, Writes().parts[1], HOOK, WHERE, LATE);
  }

  lemma {:induction false} KeepingParts()
    ensures Keeping().parts[0] in Nodes(Keeping()) && Keeping().parts[1] in Nodes(Keeping())
  {
    var write, store := Keeping().parts[0], Keeping().parts[1];
    assert write in Nodes(write) && store in Nodes(store);
    InPart(Keeping(), 0, write);
    InPart(Keeping(), 1, store);
  }

  lemma {:induction false} KeptLost(p: Program)
    requires p == Mixed()
    ensures Reached(p, KEPT, LATE)
  {
    KeepingParts();
    OverwrittenLost(p, 2, Keeping().parts[0], Keeping().parts[1], 0, "keep", 1, KEPT, LATE);
  }

  lemma {:induction false} PickedLost(p: Program)
    requires p == Mixed()
    ensures Reached(p, PICKED, LATE)
  {
    InMain(3, 0);
    AlternativeLost(p, 4, CallOf("pick", "late"), "pick1", 1, LATE);
  }

  lemma {:induction false} LateReached(p: Program, k: Key)
    requires p == Mixed() && Wrong(k)
    ensures Reached(p, k, LATE)
  {
    if k == RUN { RunLost(p); }
    else if k == STOP { StopLost(p); }
    else if k == TABLE { TableLost(p); }
    else if k == HOOKS { HooksLost(p); }
    else if k == MANY { ManyLost(p); }
    else if k == SHARED { SharedLost(p); }
    else if k == HOOK { HookLost(p); }
    else if k == KEPT { KeptLost(p); }
    else { PickedLost(p); }
  }

  // ----- what is found -----

  lemma {:induction false} EarlyStored(p: Program, left: Expr, k: Key)
    requires p == Mixed() && Early(left) in Nodes(Main()) && SlotOf(left) == Some(k) && !k.Param?
    ensures CanHold(Find(p), k, EARLY)
  {
    BodyFound(p, 4, Early(left));
    Targets();
    assert Stores(k, Function(EARLY)) in NodeFacts(p, Body("main"), Early(left));
  }

  lemma {:induction false} EarlyMember(p: Program, k: Key)
    requires p == Mixed() && k in {RUN, STOP, MANY}
    ensures CanHold(Find(p), k, EARLY)
  {
    InMain(4, 0);
    InMain(4, 1);
    InMain(4, 2);
    EarlyStored(p, if k == MANY then Deref(MemberOf(k, true)) else MemberOf(k, false), k);
  }

  lemma {:induction false} EarlyVariable(p: Program, k: Key)
    requires p == Mixed() && k in {TABLE, HOOKS, SHARED, HOOK}
    ensures CanHold(Find(p), k, EARLY)
  {
    InMain(5, 0);
    InMain(5, 1);
    InMain(5, 2);
    InMain(5, 3);
    EarlyStored(p, if k == HOOK then Variable(k, false) else FirstOf(Variable(k, true)), k);
  }

  lemma {:induction false} EarlyCall(f: string)
    requires OnlyCalled(f)
    ensures CallOf(f, "early") in Nodes(Main())
  {
    InMain(3, 1);
    InMain(3, 2);
  }

  lemma {:induction false} OwnTarget(f: string)
    requires OnlyCalled(f)
    ensures TargetOf(Mixed(), f) == Known(Own(f))
  {
  }

  lemma {:induction false} PassesEarly(p: Program, owner: Owner, f: string)
    requires TargetOf(p, f) == Known(Own(f)) && TargetOf(p, "early") == Known(EARLY)
    ensures Passes(f, 1, FunctionPassed(EARLY)) in NodeFacts(p, owner, CallOf(f, "early"))
  {
    CallFacts(p, owner, f, "early", EARLY);
  }

  lemma {:induction false} EarlyPassed(p: Program, f: string)
    requires p == Mixed() && OnlyCalled(f)
    ensures IsPassed(Find(p), f, 1, EARLY)
  {
    EarlyCall(f);
    Targets();
    OwnTarget(f);
    BodyFound(p, 4, CallOf(f, "early"));
    PassesEarly(p, Body("main"), f);
  }

  lemma {:induction false} KeptFacts(p: Program)
    ensures Stores(KEPT, ParameterOf("keep", 1)) in NodeFacts(p, Body("keep"), Keeping().parts[1])
  {
  }

  lemma {:induction false} KeptFed(p: Program)
    requires p == Mixed()
    ensures Feeds(Find(p), "keep", 1, KEPT)
  {
    KeepingParts();
    KeptFacts(p);
    BodyFound(p, 2, Keeping().parts[1]);
  }

  lemma {:induction false} EarlyFound(p: Program, k: Key)
    requires p == Mixed() && Wrong(k)
    ensures CanHold(Find(p), k, EARLY)
  {
    if k in {RUN, STOP, MANY} { EarlyMember(p, k); }
    else if k in {TABLE, HOOKS, SHARED, HOOK} { EarlyVariable(p, k); }
    else if k == KEPT { KeptFed(p); EarlyPassed(p, "keep"); }
    else { EarlyPassed(p, "pick1"); }
  }

  /** Nine slots of one program: each is found to hold `early`, certainly and not `late`, and a run
      puts `late` into it. */
  lemma {:induction false} WrongAnswers(k: Key)
    requires Wrong(k)
    ensures CanHold(Find(Mixed()), k, EARLY) && Missed(Mixed(), k, LATE) && Reached(Mixed(), k, LATE)
  {
    var p := Mixed();
    EarlyFound(p, k);
    LateUnsaid(p, k);
    MissedUnsaid(p, k, LATE);
    LateReached(p, k);
  }
}
