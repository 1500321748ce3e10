/** Where the "never returns" findings are wrong: a break or continue that leaves the body of a
    do { } while (0) (internal/cproject/guards.go:103-109 looks for returns and gotos only). */
module NeverReturnsLimits {
  import opened Ast
  import opened Execution
  import opened Guards
  import opened NeverReturns
  import opened NeverReturnsText

  // ----- one statement -----

  lemma {:induction false} WithoutQuiet(n: Node)
    requires !MayLeave(n)
    ensures Quiet(n)
  {
    if n.kind.IfStmt? && TwoArms(n) {
      WithoutQuiet(n.inner[|n.inner|-2]);
      WithoutQuiet(n.inner[|n.inner|-1]);
    }
  }

  /** The text has a break or continue that leaves the statement and is not behind anything that
      ends. */
  predicate LeftByText(p: Program, scope: string, n: Node) {
    CanLeave(p, Returning(p), scope, n, Break) || CanLeave(p, Returning(p), scope, n, Continue)
  }

  lemma {:induction false} LeftByTextExactly(p: Program, scope: string, n: Node)
    requires Distinct(p)
    ensures LeftByText(p, scope, n)
       <==> (exists b :: RunsIn(p, scope, n, b) && (b.out == Break || b.out == Continue))
  {
    LeftExactly(p, scope, n, Break);
    LeftExactly(p, scope, n, Continue);
  }

  /** Where a break or continue of the body does leave a do { } while (0) found ending, the
      finding is wrong, and only there: the statement can be left normally exactly when its
      body can be left that way, which the text tells.  The condition is only asked to be one
      that can be completed, as the literal 0 can. */
  lemma {:induction false} DoOnceLeftExactly(p: Program, s: set<string>, scope: string, n: Node)
    requires Supported(p, s) && DoOnce(n) && Ends(p, s, scope, n) && Closed(n.inner[0])
    requires CanLeave(p, Returning(p), scope, n.inner[1], Normal)
    ensures (exists r :: RunsIn(p, scope, n, r) && r.out == Normal) <==> LeftByText(p, scope, n.inner[0])
    ensures (exists r :: RunsIn(p, scope, n, r) && r.out == Normal)
       <==> (exists b :: RunsIn(p, scope, n.inner[0], b) && (b.out == Break || b.out == Continue))
  {
    LeftByTextExactly(p, scope, n.inner[0]);
    LeftExactly(p, scope, n.inner[1], Normal);
    var zero :| RunsIn(p, scope, n.inner[1], zero) && zero.out == Normal;
    if r :| RunsIn(p, scope, n, r) && r.out == Normal {
      BodyLeftEarly(p, s, scope, n, r);
      assert r.steps[0].run.out != Cut;
    }
    if b :| RunsIn(p, scope, n.inner[0], b) && (b.out == Break || b.out == Continue) {
      LeftThrough(p, scope, n, b, zero);
    }
  }

  lemma {:induction false} BodyLeftEarly(p: Program, s: set<string>, scope: string, n: Node, r: Run)
    requires Supported(p, s) && DoOnce(n) && Ends(p, s, scope, n) && Closed(n.inner[0])
    requires RunsIn(p, scope, n, r) && r.out == Normal
    ensures r.steps != [] && r.steps[0].child == 0 && RunsIn(p, scope, n.inner[0], r.steps[0].run)
    ensures r.steps[0].run.out == Break || r.steps[0].run.out == Continue
  {
    if |r.steps| > 1 {
      var j := 1;
      assert Goes(n, r.steps[j-1].child, r.steps[j-1].run.out, r.steps[j].child);
    }
    WithoutQuiet(n.inner[0]);
    EndsNotLeft(p, s, scope, n.inner[0], r.steps[0].run);
  }

  lemma {:induction false} LeftThrough(p: Program, scope: string, n: Node, b: Run, zero: Run)
    requires DoOnce(n) && RunsIn(p, scope, n.inner[0], b) && (b.out == Break || b.out == Continue)
    requires RunsIn(p, scope, n.inner[1], zero) && zero.out == Normal
    ensures exists r :: RunsIn(p, scope, n, r) && r.out == Normal
  {
    var r := Run(if b.out == Break then [Step(0, b)] else [Step(0, b), Step(1, zero)], None, Normal);
    assert RunsIn(p, scope, n, r);
  }

  /** A body that is one such statement. */
  predicate OnlyDoOnce(fn: Function) {
    && |fn.node.inner| == 1 && fn.node.inner[0].kind.CompoundStmt?
    && |fn.node.inner[0].inner| == 1 && DoOnce(fn.node.inner[0].inner[0])
  }

  lemma {:induction false} OnlyStatement(p: Program, fn: Function)
    requires OnlyDoOnce(fn)
    ensures (exists r :: BodyRuns(p, fn, r) && r.out == Normal)
       <==> (exists r :: RunsIn(p, fn.scope, fn.node.inner[0].inner[0], r) && r.out == Normal)
  {
    var body, n := fn.node.inner[0], fn.node.inner[0].inner[0];
    if r :| BodyRuns(p, fn, r) && r.out == Normal {
      assert RunsIn(p, fn.scope, body, r) && Control(body, r);
      StaysInside(p, fn.scope, body, r);
      TurnSteps(body, r, |r.steps| - 1);
      assert RunsIn(p, fn.scope, n, r.steps[0].run) && r.steps[0].run.out == Normal;
    }
    if r :| RunsIn(p, fn.scope, n, r) && r.out == Normal {
      var whole := Run([Step(0, r)], None, Normal);
      assert RunsIn(p, fn.scope, body, whole);
      assert BodyRuns(p, fn, whole);
    }
  }

  // ----- a function of the set the iteration leaves -----

  function OnlyOf(fn: Function): Node
    requires OnlyDoOnce(fn)
  {
    fn.node.inner[0].inner[0]
  }

  /** The statement's own parts leave no do { } while (0) early, nor do the other functions. */
  ghost predicate OthersClosed(p: Program, s: set<string>, fn: Function)
    requires OnlyDoOnce(fn)
  {
    && Closed(OnlyOf(fn).inner[0]) && Closed(OnlyOf(fn).inner[1])
    && forall i :: 0 <= i < |p.functions| && p.functions[i].ref in s && p.functions[i] != fn ==>
         AllClosed(p.functions[i])
  }

  /** Code in which only the function's own statement can be left early. */
  predicate Near(fn: Function, scope: string, m: Node)
    requires OnlyDoOnce(fn)
  {
    Closed(m) || (scope == fn.scope && (m == OnlyOf(fn) || m == fn.node.inner[0]))
  }

  lemma {:induction false} NearChild(p: Program, s: set<string>, fn: Function, scope: string, m: Node, k: nat)
    requires OnlyDoOnce(fn) && OthersClosed(p, s, fn) && Near(fn, scope, m) && k < |m.inner|
    ensures Near(fn, scope, m.inner[k])
  {
  }

  lemma {:induction false} NearBody(p: Program, s: set<string>, fn: Function, g: Function, i: nat)
    requires OnlyDoOnce(fn) && OthersClosed(p, s, fn) && g in p.functions && g.ref in s
    requires i < |g.node.inner| && g.node.inner[i].kind.CompoundStmt?
    ensures Near(fn, g.scope, g.node.inner[i])
  {
  }

  lemma {:induction false} ClosedStays(p: Program, s: set<string>, scope: string, m: Node, r: Run)
    requires Closed(m) && RunsIn(p, scope, m, r)
    ensures !LeavesEarly(p, s, scope, m, r)
  {
    if LeavesEarly(p, s, scope, m, r) {
      StaysInside(p, scope, m.inner[0], r.steps[0].run);
      EscapeOutcome(m.inner[0], r.steps[0].run);
    }
  }

  lemma {:induction false} EarlyFound(p: Program, s: set<string>, fn: Function, scope: string, m: Node, r: Run)
    returns (b: Run)
    requires OnlyDoOnce(fn) && OthersClosed(p, s, fn) && Near(fn, scope, m)
    requires RunsIn(p, scope, m, r) && EarlyIn(p, s, scope, m, r)
    ensures RunsIn(p, fn.scope, OnlyOf(fn).inner[0], b) && (b.out == Break || b.out == Continue)
    decreases r, 0
  {
    if Closed(m) { ClosedStays(p, s, scope, m, r); }
    if LeavesEarly(p, s, scope, m, r) { b := r.steps[0].run; }
    else {
      var k := EarlyBelow(p, s, scope, m, r);
      if k < |r.steps| {
        NearChild(p, s, fn, scope, m, r.steps[k].child);
        b := EarlyFound(p, s, fn, scope, m.inner[r.steps[k].child], r.steps[k].run);
      } else {
        LookupIn(p, scope, m);
        b := EarlyCalled(p, s, fn, Callee(p, scope, m).value, r.callee.value);
      }
    }
  }

  lemma {:induction false} EarlyCalled(p: Program, s: set<string>, fn: Function, g: Function, r: Run) returns (b: Run)
    requires OnlyDoOnce(fn) && OthersClosed(p, s, fn) && g in p.functions && g.ref in s && BodyEarly(p, s, g, r)
    ensures RunsIn(p, fn.scope, OnlyOf(fn).inner[0], b) && (b.out == Break || b.out == Continue)
    decreases r, 1
  {
    var i :| 0 <= i < |g.node.inner| && g.node.inner[i].kind.CompoundStmt?
      && RunsIn(p, g.scope, g.node.inner[i], r) && EarlyIn(p, s, g.scope, g.node.inner[i], r);
    NearBody(p, s, fn, g, i);
    b := EarlyFound(p, s, fn, g.scope, g.node.inner[i], r);
  }

  /** A function the iteration leaves whose body is one such statement returns exactly if a break or
      continue leaves the statement's own body, which the text tells. */
  lemma {:induction false} FoundReturnsExactly(p: Program, ending: set<string>, fn: Function)
    requires Distinct(p) && AllBodied(p, Greatest(p)) && Left(p, ending) && fn in p.functions && fn.ref in ending
    requires OnlyDoOnce(fn) && OthersClosed(p, Greatest(p), fn)
    requires CanLeave(p, Returning(p), fn.scope, OnlyOf(fn).inner[1], Normal)
    ensures (exists r :: BodyRuns(p, fn, r) && r.out == Normal) <==> LeftByText(p, fn.scope, OnlyOf(fn).inner[0])
    ensures (exists r :: BodyRuns(p, fn, r) && r.out == Normal)
       <==> (exists b :: RunsIn(p, fn.scope, OnlyOf(fn).inner[0], b) && (b.out == Break || b.out == Continue))
  {
    LeftByTextExactly(p, fn.scope, OnlyOf(fn).inner[0]);
    LeftExactly(p, fn.scope, OnlyOf(fn).inner[1], Normal);
    var zero :| RunsIn(p, fn.scope, OnlyOf(fn).inner[1], zero) && zero.out == Normal;
    if r :| BodyRuns(p, fn, r) && r.out == Normal {
      FoundLeftEarly(p, ending, fn, r);
      LeftInsideGreatest(p, ending);
      var b := EarlyCalled(p, Greatest(p), fn, fn, r);
    }
    if b :| RunsIn(p, fn.scope, OnlyOf(fn).inner[0], b) && (b.out == Break || b.out == Continue) {
      LeftThrough(p, fn.scope, OnlyOf(fn), b, zero);
      OnlyStatement(p, fn);
    }
  }

  /** Whatever the functions look like, what the iteration leaves is right of all of them exactly if
      by the text none of them can return. */
  lemma {:induction false} FoundRightExactly(p: Program, ending: set<string>)
    requires Distinct(p) && Left(p, ending)
    ensures (forall fn :: fn in p.functions && fn.ref in ending ==> !Returns(p, fn)) <==> ending !! Returning(p)
  {
    LeftInsideGreatest(p, ending);
    WithinRefs(p, |p.functions|);
    forall fn | fn in p.functions ensures Returns(p, fn) <==> fn.ref in Returning(p) { ReturnsExactly(p, fn); }
    if forall fn :: fn in p.functions && fn.ref in ending ==> !Returns(p, fn) {
      forall ref | ref in ending ensures ref !in Returning(p) {
        var i :| 0 <= i < |p.functions| && p.functions[i].ref == ref;
        assert p.functions[i] in p.functions;
      }
    }
  }

  /** So it is where no break or continue leaves a do { } while (0) in it. */
  lemma {:induction false} ClosedRight(p: Program, ending: set<string>)
    requires Distinct(p) && AllWellFormed(p, Greatest(p)) && Left(p, ending)
    ensures ending !! Returning(p)
  {
    forall fn | fn in p.functions && fn.ref in ending ensures !Returns(p, fn) {
      if Returns(p, fn) {
        var r :| BodyRuns(p, fn, r) && r.out != Cut;
        FoundNeverReturn(p, ending, fn, r);
      }
    }
    FoundRightExactly(p, ending);
  }

  // ----- an input -----

  function Leaf(kind: Kind, value: string, ref: Option<DeclRef>, noReturn: bool): Node {
    Node(kind, "", NoOp, value, "", ref, false, false, noReturn, false, false, [])
  }

  function Over(kind: Kind, inner: seq<Node>): Node {
    Node(kind, "", NoOp, "", "", None, false, false, false, false, false, inner)
  }

  const ABORT: DeclRef := DeclRef(FunctionRef, "1", "abort")

  function Branch(): Node {
    Over(IfStmt, [Leaf(Other("c"), "", None, false), Leaf(BreakStmt, "", None, false)])
  }

  function Abort(): Node {
    Over(CallExpr, [Leaf(DeclRefExpr, "", Some(ABORT), true)])
  }

  function Block(): Node {
    Over(CompoundStmt, [Branch(), Abort()])
  }

  function Once(): Node {
    Over(DoStmt, [Block(), Leaf(IntegerLiteral, "0", None, false)])
  }

  function Body(): Node {
    Over(CompoundStmt, [Once()])
  }

  /** void f(void) { do { if (c) break; abort(); } while (0); } */
  function Breaking(): Function {
    Function("f", "", Over(FunctionDecl, [Body()]))
  }

  function OnlyBreaking(): Program {
    Program([Breaking()], map[("", ABORT) := External])
  }

  lemma {:induction false} AbortEnds(p: Program, ending: set<string>)
    requires Resolve(p, "", Some(ABORT)) == External
    ensures Ends(p, ending, "", Abort())
  {
    var callee := Abort().inner[0];
    assert Designator(callee) == Some(callee);
  }

  lemma {:induction false} NoneLeave()
    ensures !MayLeave(Branch()) && !MayLeave(Abort()) && !MayLeave(Block()) && !MayLeave(Once())
  {
    assert !MayLeave(Branch().inner[0]) && !MayLeave(Branch().inner[1]) && !MayLeave(Abort().inner[0]);
    assert !MayLeave(Branch()) && !MayLeave(Abort());
    assert !MayLeave(Block()) && !MayLeave(Once().inner[1]);
  }

  lemma {:induction false} OnceEnds(p: Program, ending: set<string>)
    requires Resolve(p, "", Some(ABORT)) == External
    ensures Ends(p, ending, "", Once())
  {
    AbortEnds(p, ending);
    NoneLeave();
    assert BlockEnds(p, ending, "", Block(), 1);
    assert BlockEnds(p, ending, "", Block(), 0);
  }

  lemma {:induction false} BreakingEnds(p: Program, ending: set<string>)
    requires p == OnlyBreaking()
    ensures BodyEnds(p, ending, Breaking())
  {
    OnceEnds(p, ending);
    NoneLeave();
    assert BlockEnds(p, ending, "", Body(), 0);
    assert Breaking().node.inner[0] == Body();
  }

  lemma {:induction false} BreakingLeft(p: Program)
    requires p == OnlyBreaking()
    ensures Left(p, {"f"})
  {
    BreakingEnds(p, {});
    BreakingEnds(p, {"f"});
    assert Declared(p) == {};
    assert Sweep(p, {}, 0) == {} && Sweep(p, {}, 1) == {"f"};
    assert Rounds(p, 0) == {} && Rounds(p, 1) == {"f"};
    assert Sweep(p, {"f"}, 0) == {"f"} && Sweep(p, {"f"}, 1) == {"f"};
    assert LeftAfter(p, {"f"}, 1);
  }

  lemma {:induction false} LeafRuns(p: Program, kind: Kind, value: string)
    requires kind == Other("c") || kind.BreakStmt? || kind.IntegerLiteral?
    ensures RunsIn(p, "", Leaf(kind, value, None, false), Run([], None, if kind.BreakStmt? then Break else Normal))
  {
  }

  lemma {:induction false} ArmBreaks(p: Program, n: Node, c: Run, b: Run) returns (r: Run)
    requires n.kind.IfStmt? && !n.hasElse && |n.inner| == 2
    requires RunsIn(p, "", n.inner[0], c) && c.out == Normal && RunsIn(p, "", n.inner[1], b) && b.out == Break
    ensures RunsIn(p, "", n, r) && r.out == Break
  {
    r := Run([Step(0, c), Step(1, b)], None, Break);
  }

  lemma {:induction false} BranchRuns(p: Program) returns (r: Run)
    ensures RunsIn(p, "", Branch(), r) && r.out == Break
  {
    LeafRuns(p, Other("c"), "");
    LeafRuns(p, BreakStmt, "");
    r := ArmBreaks(p, Branch(), Run([], None, Normal), Run([], None, Break));
  }

  lemma {:induction false} BlockRuns(p: Program) returns (b: Run)
    ensures RunsIn(p, "", Block(), b) && b.out == Break
  {
    var r := BranchRuns(p);
    b := Run([Step(0, r)], None, Break);
  }

  /** That function: the rounds leave it, and it returns. */
  lemma {:induction false} BreakingReturns()
    ensures Left(OnlyBreaking(), {Breaking().ref})
    ensures exists r :: BodyRuns(OnlyBreaking(), Breaking(), r) && r.out == Normal
  {
    var p := OnlyBreaking();
    BreakingLeft(p);
    var b := BlockRuns(p);
    LeafRuns(p, IntegerLiteral, "0");
    LeftThrough(p, "", Once(), b, Run([], None, Normal));
    OnlyStatement(p, Breaking());
  }
}
