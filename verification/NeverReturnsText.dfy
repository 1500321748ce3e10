/** How a statement can be left, and which functions can return, by the text alone: a test on
    the syntax tree that holds exactly where some run, calls followed, leaves that way. */
module NeverReturnsText {
  import opened Ast
  import opened Execution
  import opened Guards
  import opened NeverReturns

  // ----- the test -----

  predicate Away(o: Outcome) {
    o == Return || o == Jump
  }

  /** A call can be over if the functions of `s` can return. */
  predicate CallCan(p: Program, s: set<string>, scope: string, call: Node) {
    |call.inner| > 0 && Designator(call.inner[0]).Some? ==>
      var named := Designator(call.inner[0]).value;
      match Resolve(p, scope, named.ref)
      case Unresolved => true
      case External => !(call.inner[0].noReturn || named.noReturn)
      case Corpus(ref) => Lookup(p, ref, |p.functions|).Some? ==> ref in s
  }

  /** The statement can be left by `o`, if the functions of `s` can return. */
  predicate CanLeave(p: Program, s: set<string>, scope: string, n: Node, o: Outcome)
    decreases n, 2, 0
  {
    if n.kind.SwitchStmt? then SwitchControl(n, Run([], None, o))
    else if Inert(n) then o == Normal
    else if InTurn(n) then TurnCan(p, s, scope, n, 0, o)
    else if IsLoop(n) then LoopCan(p, s, scope, n, o)
    else if Ordered(n) then BranchCan(p, s, scope, n, o)
    else OperandCan(p, s, scope, n, o)
  }

  predicate Part(p: Program, s: set<string>, scope: string, n: Node, i: nat, o: Outcome)
    decreases n, 0, 0
  {
    i < |n.inner| && CanLeave(p, s, scope, n.inner[i], o)
  }

  /** From the `k`-th child on: a child can be left that way and those before it completed. */
  predicate TurnCan(p: Program, s: set<string>, scope: string, n: Node, k: nat, o: Outcome)
    requires k <= |n.inner|
    decreases n, 1, |n.inner| - k
  {
    if k == |n.inner| then o == Normal
    else
      || (o != Normal && Part(p, s, scope, n, k, o))
      || (Part(p, s, scope, n, k, Normal) && TurnCan(p, s, scope, n, k + 1, o))
  }

  predicate Again(p: Program, s: set<string>, scope: string, n: Node, i: nat)
    decreases n, 0, 1
  {
    Part(p, s, scope, n, i, Normal) || Part(p, s, scope, n, i, Continue)
  }

  predicate LoopCan(p: Program, s: set<string>, scope: string, n: Node, o: Outcome)
    decreases n, 1, 0
  {
    var c := |n.inner|;
    if n.kind.WhileStmt? then
      c >= 2 && if o == Normal then Part(p, s, scope, n, c - 2, Normal)
                else Away(o) && (Part(p, s, scope, n, c - 2, o)
                                 || (Part(p, s, scope, n, c - 2, Normal) && Part(p, s, scope, n, c - 1, o)))
    else if n.kind.DoStmt? then
      c == 2 && ((o == Normal && Part(p, s, scope, n, 0, Break)) || (Away(o) && Part(p, s, scope, n, 0, o))
                 || ((o == Normal || Away(o)) && Again(p, s, scope, n, 0) && Part(p, s, scope, n, 1, o)))
    else
      c == 5 && ((Away(o) && Part(p, s, scope, n, 0, o))
                 || (Part(p, s, scope, n, 0, Normal) && ((o == Normal || Away(o)) && Part(p, s, scope, n, 2, o)))
                 || (Part(p, s, scope, n, 0, Normal) && Part(p, s, scope, n, 2, Normal) && Away(o)
                     && (Part(p, s, scope, n, 4, o) || (Again(p, s, scope, n, 4) && Part(p, s, scope, n, 3, o)))))
  }

  predicate BranchCan(p: Program, s: set<string>, scope: string, n: Node, o: Outcome)
    decreases n, 1, 0
  {
    || (Away(o) && Part(p, s, scope, n, 0, o))
    || (Part(p, s, scope, n, 0, Normal) &&
        if ShortCircuit(n) then o == Normal || (Away(o) && Part(p, s, scope, n, 1, o))
        else if n.kind.IfStmt? then
          if TwoArms(n) then Part(p, s, scope, n, |n.inner| - 2, o) || Part(p, s, scope, n, |n.inner| - 1, o)
          else o == Normal || Part(p, s, scope, n, 1, o)
        else
          || (o == Normal && n.kind.BinaryConditionalOperator?)
          || ((o == Normal || Away(o)) && exists j :: 0 < j < |n.inner| && Part(p, s, scope, n, j, o)))
  }

  predicate OperandCan(p: Program, s: set<string>, scope: string, n: Node, o: Outcome)
    decreases n, 1, 0
  {
    || (o != Normal && exists j :: 0 <= j < |n.inner| && Operand(n, j) && Part(p, s, scope, n, j, o))
    || (&& o == Completion(n) && (n.kind.CallExpr? ==> CallCan(p, s, scope, n))
        && forall j :: 0 <= j < |n.inner| && Evaluates(n, j) ==> Part(p, s, scope, n, j, Normal))
  }

  /** The function's body can be left. */
  predicate BodyCan(p: Program, s: set<string>, fn: Function) {
    exists i :: 0 <= i < |fn.node.inner| && fn.node.inner[i].kind.CompoundStmt?
      && CanEnd(p, s, fn.scope, fn.node.inner[i])
  }

  predicate CanEnd(p: Program, s: set<string>, scope: string, n: Node) {
    || CanLeave(p, s, scope, n, Normal) || CanLeave(p, s, scope, n, Break) || CanLeave(p, s, scope, n, Continue)
    || CanLeave(p, s, scope, n, Return) || CanLeave(p, s, scope, n, Jump)
  }

  /** The functions that can return: those whose bodies can be left if no call returns, then those
      whose bodies can be left if calls of the former return, and so on. */
  function Returning(p: Program): set<string> {
    ReturningBy(p, |p.functions|)
  }

  function ReturningBy(p: Program, k: nat): set<string> {
    if k == 0 then {} else ReturningBy(p, k - 1) + Next(p, ReturningBy(p, k - 1))
  }

  function Next(p: Program, s: set<string>): set<string> {
    set i | 0 <= i < |p.functions| && BodyCan(p, s, p.functions[i]) :: p.functions[i].ref
  }

  // ----- as many steps as there are functions reach them all -----

  lemma {:induction false} WithinFunctions(p: Program, k: nat)
    ensures ReturningBy(p, k) <= Refs(p)
  {
    if k > 0 { WithinFunctions(p, k - 1); }
  }

  /** Joining a set with another leaves it as it is or makes it larger. */
  lemma {:induction false} Grown(a: set<string>, b: set<string>)
    ensures b <= a ==> a + b == a
    ensures b <= a || |a + b| > |a|
  {
    if !(b <= a) { SmallerSubset(a, a + b); }
  }

  lemma {:induction false} Growing(p: Program, k: nat)
    ensures ReturningBy(p, k + 1) == ReturningBy(p, k) || |ReturningBy(p, k + 1)| > k
  {
    var now := ReturningBy(p, k);
    Grown(now, Next(p, now));
    if k > 0 { Growing(p, k - 1); }
  }

  lemma {:induction false} SubsetSize(a: set<string>, b: set<string>)
    requires a <= b
    ensures |a| <= |b|
  {
    if a != b { SmallerSubset(a, b); }
  }

  lemma {:induction false} ReturningClosed(p: Program)
    ensures Next(p, Returning(p)) <= Returning(p)
  {
    var n := |p.functions|;
    Growing(p, n);
    FewRefs(p, n);
    WithinFunctions(p, n + 1);
    SubsetSize(ReturningBy(p, n + 1), Refs(p));
    Grown(Returning(p), Next(p, Returning(p)));
  }

  // ----- a run leaves as the text says -----

  /** What the parts of a run did, the text of its parts says. */
  ghost predicate StepsCan(p: Program, s: set<string>, scope: string, n: Node, r: Run) {
    forall k :: 0 <= k < |r.steps| && r.steps[k].run.out != Cut ==>
      Part(p, s, scope, n, r.steps[k].child, r.steps[k].run.out)
  }

  lemma {:induction false} RunSays(p: Program, s: set<string>, scope: string, n: Node, r: Run)
    requires Next(p, s) <= s && RunsIn(p, scope, n, r) && r.out != Cut
    ensures CanLeave(p, s, scope, n, r.out)
    decreases r, 1
  {
    StaysInside(p, scope, n, r);
    forall k | 0 <= k < |r.steps| && r.steps[k].run.out != Cut
      ensures Part(p, s, scope, n, r.steps[k].child, r.steps[k].run.out)
    {
      RunSays(p, s, scope, n.inner[r.steps[k].child], r.steps[k].run);
    }
    if n.kind.SwitchStmt? || Inert(n) {
    } else if InTurn(n) {
      if r.steps != [] { TurnSteps(n, r, |r.steps| - 1); }
      TurnSays(p, s, scope, n, r, 0);
    } else if IsLoop(n) {
      LoopSays(p, s, scope, n, r);
    } else if Ordered(n) {
      BranchSays(p, s, scope, n, r);
    } else {
      if n.kind.CallExpr? && r.out == Normal { CallSays(p, s, scope, n, r); }
      OperandSays(p, s, scope, n, r);
    }
  }

  lemma {:induction false} TurnSays(p: Program, s: set<string>, scope: string, n: Node, r: Run, k: nat)
    requires InTurn(n) && Runs(n, r) && StepsCan(p, s, scope, n, r) && r.out != Cut
    requires k <= |r.steps| <= |n.inner| && (k == |r.steps| ==> r.out == Normal && k == |n.inner|)
    ensures TurnCan(p, s, scope, n, k, r.out)
    decreases |r.steps| - k
  {
    if k < |r.steps| {
      TurnSteps(n, r, k);
      TurnSteps(n, r, |r.steps| - 1);
      if k + 1 < |r.steps| || r.out == Normal { TurnSays(p, s, scope, n, r, k + 1); }
    }
  }

  lemma {:induction false} LoopSays(p: Program, s: set<string>, scope: string, n: Node, r: Run)
    requires IsLoop(n) && Control(n, r) && StepsCan(p, s, scope, n, r) && r.out != Cut
    ensures LoopCan(p, s, scope, n, r.out)
  {
    var j := |r.steps| - 1;
    if j > 0 { assert Goes(n, r.steps[j-1].child, r.steps[j-1].run.out, r.steps[j].child); }
    if n.kind.ForStmt? { ForSays(p, s, scope, n, r); }
  }

  lemma {:induction false} ForSays(p: Program, s: set<string>, scope: string, n: Node, r: Run)
    requires n.kind.ForStmt? && Control(n, r) && StepsCan(p, s, scope, n, r) && r.out != Cut
    ensures LoopCan(p, s, scope, n, r.out)
  {
    var j := |r.steps| - 1;
    if j > 0 { assert Goes(n, r.steps[j-1].child, r.steps[j-1].run.out, r.steps[j].child); }
    if j > 0 { assert Goes(n, r.steps[0].child, r.steps[0].run.out, r.steps[1].child); }
    if j > 1 { assert Goes(n, r.steps[j-2].child, r.steps[j-2].run.out, r.steps[j-1].child); }
  }

  lemma {:induction false} BranchSays(p: Program, s: set<string>, scope: string, n: Node, r: Run)
    requires Ordered(n) && !InTurn(n) && !IsLoop(n) && Control(n, r) && StepsCan(p, s, scope, n, r) && r.out != Cut
    ensures BranchCan(p, s, scope, n, r.out)
  {
    var j := |r.steps| - 1;
    if j > 0 { assert Goes(n, r.steps[j-1].child, r.steps[j-1].run.out, r.steps[j].child); }
  }

  lemma {:induction false} OperandSays(p: Program, s: set<string>, scope: string, n: Node, r: Run)
    requires !Ordered(n) && !n.kind.SwitchStmt? && !Inert(n)
    requires Control(n, r) && StepsCan(p, s, scope, n, r) && r.out != Cut
    requires n.kind.CallExpr? && r.out == Normal ==> CallCan(p, s, scope, n)
    ensures OperandCan(p, s, scope, n, r.out)
  {
    if r.steps != [] && r.steps[|r.steps|-1].run.out != Normal {
      var last := r.steps[|r.steps|-1];
      assert Operand(n, last.child) && Part(p, s, scope, n, last.child, last.run.out);
    } else {
      forall j | 0 <= j < |n.inner| && Evaluates(n, j) ensures Part(p, s, scope, n, j, Normal) {
        var k :| 0 <= k < |r.steps| && r.steps[k].child == j;
        assert r.steps[k].run.out == Normal;
      }
    }
  }

  lemma {:induction false} CallSays(p: Program, s: set<string>, scope: string, call: Node, r: Run)
    requires Next(p, s) <= s && CallOver(p, scope, call, r)
    ensures CallCan(p, s, scope, call)
    decreases r, 0
  {
    if |call.inner| > 0 && Designator(call.inner[0]).Some? {
      match Resolve(p, scope, Designator(call.inner[0]).value.ref)
      case Unresolved =>
      case External =>
      case Corpus(ref) =>
        LookupFinds(p, ref, |p.functions|);
        var fn := Lookup(p, ref, |p.functions|);
        if fn.Some? { BodySays(p, s, fn.value, r.callee.value); }
    }
  }

  lemma {:induction false} BodySays(p: Program, s: set<string>, fn: Function, r: Run)
    requires Next(p, s) <= s && BodyRuns(p, fn, r) && r.out != Cut
    ensures BodyCan(p, s, fn)
    ensures fn in p.functions ==> fn.ref in s
    decreases r, 2
  {
    var i :| 0 <= i < |fn.node.inner| && fn.node.inner[i].kind.CompoundStmt?
      && RunsIn(p, fn.scope, fn.node.inner[i], r);
    RunSays(p, s, fn.scope, fn.node.inner[i], r);
    if fn in p.functions {
      var j :| 0 <= j < |p.functions| && p.functions[j] == fn;
      assert fn.ref in Next(p, s);
    }
  }

  // ----- and the text has the run it says -----

  /** Each of the functions has a run that returns. */
  ghost predicate Backed(p: Program, s: set<string>) {
    forall i :: 0 <= i < |p.functions| && p.functions[i].ref in s ==> Returns(p, p.functions[i])
  }

  ghost predicate Returns(p: Program, fn: Function) {
    exists r :: BodyRuns(p, fn, r) && r.out != Cut
  }

  /** A child run that was left by `o`. */
  ghost predicate PartRun(p: Program, scope: string, n: Node, i: nat, r: Run, o: Outcome) {
    i < |n.inner| && RunsIn(p, scope, n.inner[i], r) && r.out == o
  }

  lemma {:induction false} HasRun(p: Program, s: set<string>, scope: string, n: Node, o: Outcome) returns (r: Run)
    requires Backed(p, s) && CanLeave(p, s, scope, n, o) && o != Cut
    ensures RunsIn(p, scope, n, r) && r.out == o
    decreases n, 2, 0
  {
    if n.kind.SwitchStmt? || Inert(n) {
      r := Run([], None, o);
    } else if InTurn(n) {
      var steps := TurnRun(p, s, scope, n, 0, o);
      r := Run(steps, None, o);
      TurnControl(n, steps, o);
    } else if IsLoop(n) {
      r := LoopRun(p, s, scope, n, o);
    } else if Ordered(n) {
      r := BranchRun(p, s, scope, n, o);
    } else {
      r := OperandRun(p, s, scope, n, o);
    }
  }

  lemma {:induction false} PartHas(p: Program, s: set<string>, scope: string, n: Node, i: nat, o: Outcome)
    returns (r: Run)
    requires Backed(p, s) && Part(p, s, scope, n, i, o) && o != Cut
    ensures PartRun(p, scope, n, i, r, o)
    decreases n, 0, 0
  {
    r := HasRun(p, s, scope, n.inner[i], o);
  }

  /** Steps from the `k`-th child on, the last of which is left by `o`. */
  ghost predicate TurnsFrom(p: Program, scope: string, n: Node, k: nat, steps: seq<Step>, o: Outcome) {
    && k + |steps| <= |n.inner| && (o == Normal ==> k + |steps| == |n.inner|) && (o != Normal ==> steps != [])
    && forall j :: 0 <= j < |steps| ==>
      steps[j].child == k + j && PartRun(p, scope, n, k + j, steps[j].run, if j == |steps| - 1 then o else Normal)
  }

  lemma {:induction false} TurnRun(p: Program, s: set<string>, scope: string, n: Node, k: nat, o: Outcome)
    returns (steps: seq<Step>)
    requires Backed(p, s) && k <= |n.inner| && TurnCan(p, s, scope, n, k, o) && o != Cut
    ensures TurnsFrom(p, scope, n, k, steps, o)
    decreases n, 1, |n.inner| - k
  {
    if k == |n.inner| {
      steps := [];
    } else if o != Normal && Part(p, s, scope, n, k, o) {
      var r := PartHas(p, s, scope, n, k, o);
      steps := [Step(k, r)];
    } else {
      var r := PartHas(p, s, scope, n, k, Normal);
      var rest := TurnRun(p, s, scope, n, k + 1, o);
      steps := [Step(k, r)] + rest;
    }
  }

  lemma {:induction false} TurnControl(n: Node, steps: seq<Step>, o: Outcome)
    requires InTurn(n) && |steps| <= |n.inner| && o != Cut
    requires (o == Normal ==> |steps| == |n.inner|) && (o != Normal ==> steps != [])
    requires forall j :: 0 <= j < |steps| ==>
             steps[j].child == j && steps[j].run.out == if j == |steps| - 1 then o else Normal
    ensures Control(n, Run(steps, None, o))
  {
  }

  /** A run of an ordered node made of runs of its children. */
  lemma {:induction false} Joined(p: Program, scope: string, n: Node, r: Run)
    requires Control(n, r) && !n.kind.CallExpr?
    requires forall k :: 0 <= k < |r.steps| ==>
             RunsIn(p, scope, n.inner[r.steps[k].child], r.steps[k].run)
    ensures RunsIn(p, scope, n, r)
  {
  }

  lemma {:induction false} OneStep(p: Program, scope: string, n: Node, a: Step, o: Outcome) returns (r: Run)
    requires Ordered(n) && !n.kind.SwitchStmt? && !Inert(n) && Starts(n, a.child)
    requires PartRun(p, scope, n, a.child, a.run, a.run.out) && Leaves(n, a.child, a.run.out, o)
    ensures RunsIn(p, scope, n, r) && r.out == o
  {
    r := Run([a], None, o);
    assert r.steps[0] == a;
    Joined(p, scope, n, r);
  }

  lemma {:induction false} TwoSteps(p: Program, scope: string, n: Node, a: Step, b: Step, o: Outcome) returns (r: Run)
    requires Ordered(n) && !n.kind.SwitchStmt? && !Inert(n) && Starts(n, a.child)
    requires PartRun(p, scope, n, a.child, a.run, a.run.out) && PartRun(p, scope, n, b.child, b.run, b.run.out)
    requires Goes(n, a.child, a.run.out, b.child) && Leaves(n, b.child, b.run.out, o)
    ensures RunsIn(p, scope, n, r) && r.out == o
  {
    r := Run([a, b], None, o);
    assert r.steps[0] == a && r.steps[1] == b;
    Joined(p, scope, n, r);
  }

  lemma {:induction false} LoopRun(p: Program, s: set<string>, scope: string, n: Node, o: Outcome) returns (r: Run)
    requires Backed(p, s) && IsLoop(n) && LoopCan(p, s, scope, n, o) && o != Cut
    ensures RunsIn(p, scope, n, r) && r.out == o
    decreases n, 1, 0
  {
    if n.kind.WhileStmt? { r := WhileRun(p, s, scope, n, o); }
    else if n.kind.DoStmt? { r := DoRun(p, s, scope, n, o); }
    else { r := ForRun(p, s, scope, n, o); }
  }

  lemma {:induction false} WhileRun(p: Program, s: set<string>, scope: string, n: Node, o: Outcome) returns (r: Run)
    requires Backed(p, s) && n.kind.WhileStmt? && LoopCan(p, s, scope, n, o) && o != Cut
    ensures RunsIn(p, scope, n, r) && r.out == o
    decreases n, 0, 1
  {
    var c := |n.inner| - 2;
    if Part(p, s, scope, n, c, o) {
      var a := PartHas(p, s, scope, n, c, o);
      r := OneStep(p, scope, n, Step(c, a), o);
    } else {
      var a := PartHas(p, s, scope, n, c, Normal);
      var b := PartHas(p, s, scope, n, c + 1, o);
      r := TwoSteps(p, scope, n, Step(c, a), Step(c + 1, b), o);
    }
  }

  lemma {:induction false} AgainHas(p: Program, s: set<string>, scope: string, n: Node, i: nat) returns (r: Run)
    requires Backed(p, s) && Again(p, s, scope, n, i)
    ensures PartRun(p, scope, n, i, r, r.out) && (r.out == Normal || r.out == Continue)
    decreases n, 0, 1
  {
    if Part(p, s, scope, n, i, Normal) { r := PartHas(p, s, scope, n, i, Normal); }
    else { r := PartHas(p, s, scope, n, i, Continue); }
  }

  lemma {:induction false} DoRun(p: Program, s: set<string>, scope: string, n: Node, o: Outcome) returns (r: Run)
    requires Backed(p, s) && n.kind.DoStmt? && LoopCan(p, s, scope, n, o) && o != Cut
    ensures RunsIn(p, scope, n, r) && r.out == o
    decreases n, 0, 2
  {
    if Part(p, s, scope, n, 0, if o == Normal then Break else o) {
      var a := PartHas(p, s, scope, n, 0, if o == Normal then Break else o);
      r := OneStep(p, scope, n, Step(0, a), o);
    } else {
      var a := AgainHas(p, s, scope, n, 0);
      var b := PartHas(p, s, scope, n, 1, o);
      r := TwoSteps(p, scope, n, Step(0, a), Step(1, b), o);
    }
  }

  lemma {:induction false} ForRun(p: Program, s: set<string>, scope: string, n: Node, o: Outcome) returns (r: Run)
    requires Backed(p, s) && n.kind.ForStmt? && LoopCan(p, s, scope, n, o) && o != Cut
    ensures RunsIn(p, scope, n, r) && r.out == o
    decreases n, 0, 2
  {
    if Away(o) && Part(p, s, scope, n, 0, o) {
      var a := PartHas(p, s, scope, n, 0, o);
      r := OneStep(p, scope, n, Step(0, a), o);
    } else if Part(p, s, scope, n, 2, o) {
      var a := PartHas(p, s, scope, n, 0, Normal);
      var b := PartHas(p, s, scope, n, 2, o);
      r := TwoSteps(p, scope, n, Step(0, a), Step(2, b), o);
    } else {
      var a := PartHas(p, s, scope, n, 0, Normal);
      var b := PartHas(p, s, scope, n, 2, Normal);
      if Part(p, s, scope, n, 4, o) {
        var c := PartHas(p, s, scope, n, 4, o);
        r := Run([Step(0, a), Step(2, b), Step(4, c)], None, o);
      } else {
        var c := AgainHas(p, s, scope, n, 4);
        var d := PartHas(p, s, scope, n, 3, o);
        r := Run([Step(0, a), Step(2, b), Step(4, c), Step(3, d)], None, o);
      }
      ForControl(n, r);
      Joined(p, scope, n, r);
    }
  }

  lemma {:induction false} ForControl(n: Node, r: Run)
    requires n.kind.ForStmt? && |n.inner| == 5 && 3 <= |r.steps| <= 4 && Away(r.out)
    requires r.steps[0].child == 0 && r.steps[1].child == 2 && r.steps[2].child == 4
    requires r.steps[0].run.out == Normal && r.steps[1].run.out == Normal
    requires |r.steps| == 3 ==> r.steps[2].run.out == r.out
    requires |r.steps| == 4 ==> r.steps[3].child == 3 && r.steps[3].run.out == r.out
    requires |r.steps| == 4 ==> r.steps[2].run.out == Normal || r.steps[2].run.out == Continue
    ensures Control(n, r)
  {
  }

  lemma {:induction false} BranchRun(p: Program, s: set<string>, scope: string, n: Node, o: Outcome) returns (r: Run)
    requires Backed(p, s) && Ordered(n) && !InTurn(n) && !IsLoop(n) && BranchCan(p, s, scope, n, o) && o != Cut
    ensures RunsIn(p, scope, n, r) && r.out == o
    decreases n, 1, 0
  {
    if Away(o) && Part(p, s, scope, n, 0, o) {
      var a := PartHas(p, s, scope, n, 0, o);
      r := OneStep(p, scope, n, Step(0, a), o);
    } else {
      var a := PartHas(p, s, scope, n, 0, Normal);
      if o == Normal && (ShortCircuit(n) || (n.kind.IfStmt? && !TwoArms(n)) || n.kind.BinaryConditionalOperator?) {
        r := OneStep(p, scope, n, Step(0, a), o);
      } else {
        var j := Arm(p, s, scope, n, o);
        var b := PartHas(p, s, scope, n, j, o);
        r := TwoSteps(p, scope, n, Step(0, a), Step(j, b), o);
      }
    }
  }

  /** The branch it is left by. */
  lemma {:induction false} Arm(p: Program, s: set<string>, scope: string, n: Node, o: Outcome) returns (j: nat)
    requires Ordered(n) && !InTurn(n) && !IsLoop(n) && BranchCan(p, s, scope, n, o) && o != Cut
    requires !(Away(o) && Part(p, s, scope, n, 0, o))
    requires !(o == Normal && (ShortCircuit(n) || (n.kind.IfStmt? && !TwoArms(n)) || n.kind.BinaryConditionalOperator?))
    ensures Part(p, s, scope, n, j, o) && Goes(n, 0, Normal, j) && Leaves(n, j, o, o)
  {
    if ShortCircuit(n) { j := 1; }
    else if n.kind.IfStmt? {
      if !TwoArms(n) { j := 1; }
      else if Part(p, s, scope, n, |n.inner| - 2, o) { j := |n.inner| - 2; }
      else { j := |n.inner| - 1; }
    } else {
      j :| 0 < j < |n.inner| && Part(p, s, scope, n, j, o);
    }
  }

  /** Runs of the operands below `k` that are always evaluated, in their order. */
  ghost predicate OperandsTo(p: Program, scope: string, n: Node, k: nat, steps: seq<Step>) {
    && (forall j :: 0 <= j < |steps| ==> steps[j].child < k && Evaluates(n, steps[j].child))
    && (forall j :: 0 <= j < |steps| ==> PartRun(p, scope, n, steps[j].child, steps[j].run, Normal))
    && (forall i, j :: 0 <= i < j < |steps| ==> steps[i].child < steps[j].child)
    && (forall j :: 0 <= j < k && Evaluates(n, j) ==> Ran(steps, j))
  }

  lemma {:induction false} OperandsNext(p: Program, scope: string, n: Node, k: nat, steps: seq<Step>, r: Run)
    requires OperandsTo(p, scope, n, k, steps) && k < |n.inner|
    requires Evaluates(n, k) ==> PartRun(p, scope, n, k, r, Normal)
    ensures OperandsTo(p, scope, n, k + 1, if Evaluates(n, k) then steps + [Step(k, r)] else steps)
  {
    if Evaluates(n, k) {
      var all := steps + [Step(k, r)];
      forall j | 0 <= j < k + 1 && Evaluates(n, j) ensures Ran(all, j) {
        if j == k { assert all[|steps|].child == k; }
        else { var i :| 0 <= i < |steps| && steps[i].child == j; assert all[i].child == j; }
      }
    }
  }

  lemma {:induction false} OperandRuns(p: Program, s: set<string>, scope: string, n: Node, k: nat)
    returns (steps: seq<Step>)
    requires Backed(p, s) && k <= |n.inner|
    requires forall j :: 0 <= j < |n.inner| && Evaluates(n, j) ==> Part(p, s, scope, n, j, Normal)
    ensures OperandsTo(p, scope, n, k, steps)
    decreases n, 0, k + 1
  {
    if k == 0 {
      steps := [];
    } else {
      steps := OperandRuns(p, s, scope, n, k - 1);
      var r := Run([], None, Normal);
      if Evaluates(n, k - 1) { r := PartHas(p, s, scope, n, k - 1, Normal); }
      OperandsNext(p, scope, n, k - 1, steps, r);
      if Evaluates(n, k - 1) { steps := steps + [Step(k - 1, r)]; }
    }
  }

  lemma {:induction false} CalleeRun(p: Program, s: set<string>, scope: string, call: Node, steps: seq<Step>,
                                     o: Outcome) returns (callee: Option<Run>)
    requires Backed(p, s) && CallCan(p, s, scope, call)
    ensures CallOver(p, scope, call, Run(steps, callee, o))
  {
    callee := None;
    if |call.inner| > 0 && Designator(call.inner[0]).Some? {
      match Resolve(p, scope, Designator(call.inner[0]).value.ref)
      case Unresolved =>
      case External =>
      case Corpus(ref) =>
        LookupFinds(p, ref, |p.functions|);
        var fn := Lookup(p, ref, |p.functions|);
        if fn.Some? {
          assert Returns(p, fn.value);
          var r :| BodyRuns(p, fn.value, r) && r.out != Cut;
          callee := Some(r);
        }
    }
  }

  lemma {:induction false} OperandRun(p: Program, s: set<string>, scope: string, n: Node, o: Outcome) returns (r: Run)
    requires Backed(p, s) && !Ordered(n) && !n.kind.SwitchStmt? && !Inert(n)
    requires OperandCan(p, s, scope, n, o) && o != Cut
    ensures RunsIn(p, scope, n, r) && r.out == o
    decreases n, 1, 0
  {
    if j :| o != Normal && 0 <= j < |n.inner| && Operand(n, j) && Part(p, s, scope, n, j, o) {
      var a := PartHas(p, s, scope, n, j, o);
      r := Run([Step(j, a)], None, o);
      LeftByOne(p, scope, n, r);
    } else {
      var steps := OperandRuns(p, s, scope, n, |n.inner|);
      var callee := None;
      if n.kind.CallExpr? { callee := CalleeRun(p, s, scope, n, steps, o); }
      r := Run(steps, callee, o);
      AllDone(p, scope, n, r);
    }
  }

  lemma {:induction false} LeftByOne(p: Program, scope: string, n: Node, r: Run)
    requires !Ordered(n) && !n.kind.SwitchStmt? && !Inert(n) && |r.steps| == 1 && Operand(n, r.steps[0].child)
    requires r.out != Normal && PartRun(p, scope, n, r.steps[0].child, r.steps[0].run, r.out)
    ensures RunsIn(p, scope, n, r)
  {
  }

  lemma {:induction false} AllDone(p: Program, scope: string, n: Node, r: Run)
    requires !Ordered(n) && !n.kind.SwitchStmt? && !Inert(n) && OperandsTo(p, scope, n, |n.inner|, r.steps)
    requires r.out == Completion(n) && (n.kind.CallExpr? ==> CallOver(p, scope, n, r))
    ensures RunsIn(p, scope, n, r)
  {
  }

  // ----- both -----

  lemma {:induction false} ReturningBacked(p: Program, k: nat)
    requires Distinct(p)
    ensures Backed(p, ReturningBy(p, k))
  {
    if k > 0 {
      var before := ReturningBy(p, k - 1);
      ReturningBacked(p, k - 1);
      forall i | 0 <= i < |p.functions| && p.functions[i].ref in Next(p, before) ensures Returns(p, p.functions[i]) {
        var j :| 0 <= j < |p.functions| && BodyCan(p, before, p.functions[j])
          && p.functions[j].ref == p.functions[i].ref;
        assert i == j;
        BodyHas(p, before, p.functions[i]);
      }
    }
  }

  lemma {:induction false} BodyHas(p: Program, s: set<string>, fn: Function)
    requires Backed(p, s) && BodyCan(p, s, fn)
    ensures Returns(p, fn)
  {
    var i :| 0 <= i < |fn.node.inner| && fn.node.inner[i].kind.CompoundStmt?
      && CanEnd(p, s, fn.scope, fn.node.inner[i]);
    var o := if CanLeave(p, s, fn.scope, fn.node.inner[i], Normal) then Normal
             else if CanLeave(p, s, fn.scope, fn.node.inner[i], Break) then Break
             else if CanLeave(p, s, fn.scope, fn.node.inner[i], Continue) then Continue
             else if CanLeave(p, s, fn.scope, fn.node.inner[i], Return) then Return
             else Jump;
    var r := HasRun(p, s, fn.scope, fn.node.inner[i], o);
    assert BodyRuns(p, fn, r);
  }

  /** A statement can be left by a run in just the ways the text says. */
  lemma {:induction false} LeftExactly(p: Program, scope: string, n: Node, o: Outcome)
    requires Distinct(p) && o != Cut
    ensures (exists r :: RunsIn(p, scope, n, r) && r.out == o) <==> CanLeave(p, Returning(p), scope, n, o)
  {
    ReturningClosed(p);
    ReturningBacked(p, |p.functions|);
    if r :| RunsIn(p, scope, n, r) && r.out == o { RunSays(p, Returning(p), scope, n, r); }
    if CanLeave(p, Returning(p), scope, n, o) { var r := HasRun(p, Returning(p), scope, n, o); }
  }

  /** A function has a run that returns exactly if the text says so, for all mutually recursive
      programs. */
  lemma {:induction false} ReturnsExactly(p: Program, fn: Function)
    requires Distinct(p) && fn in p.functions
    ensures Returns(p, fn) <==> fn.ref in Returning(p)
  {
    ReturningClosed(p);
    ReturningBacked(p, |p.functions|);
    if r :| BodyRuns(p, fn, r) && r.out != Cut { BodySays(p, Returning(p), fn, r); }
  }
}
