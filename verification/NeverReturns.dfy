/** What the "never returns" findings mean: under a semantics that follows calls, a function left in
    the set returns, and a statement found ending is completed, only by way of a break or continue
    that leaves the body of a do { } while (0); without one, never. */
module NeverReturns {
  import opened Ast
  import opened Execution
  import opened Guards

  /** The body of the function a reference resolves to, if the corpus defines it. */
  function Lookup(p: Program, ref: string, i: nat): Option<Function>
    requires i <= |p.functions|
  {
    if i == 0 then None
    else if p.functions[i-1].ref == ref then Some(p.functions[i-1])
    else Lookup(p, ref, i - 1)
  }

  /** A call is over: an external noreturn function never is, a corpus function is when a run
      of its body has been left, anything else may be. */
  predicate CallOver(p: Program, scope: string, call: Node, r: Run)
    decreases r, 0
  {
    |call.inner| > 0 && Designator(call.inner[0]).Some? ==>
      var named := Designator(call.inner[0]).value;
      match Resolve(p, scope, named.ref)
      case Unresolved => true
      case External => !(call.inner[0].noReturn || named.noReturn)
      case Corpus(ref) =>
        var fn := Lookup(p, ref, |p.functions|);
        fn.Some? ==> r.callee.Some? && BodyRuns(p, fn.value, r.callee.value) && r.callee.value.out != Cut
  }

  predicate BodyRuns(p: Program, fn: Function, r: Run)
    decreases r, 2
  {
    exists i :: 0 <= i < |fn.node.inner| && fn.node.inner[i].kind.CompoundStmt?
      && RunsIn(p, fn.scope, fn.node.inner[i], r)
  }

  /** A run of `n`, entered at its start, that follows the calls it makes. */
  predicate RunsIn(p: Program, scope: string, n: Node, r: Run)
    decreases r, 1
  {
    && Control(n, r)
    && (n.kind.CallExpr? && r.out == Normal ==> CallOver(p, scope, n, r))
    && forall k :: 0 <= k < |r.steps| ==> RunsIn(p, scope, n.inner[r.steps[k].child], r.steps[k].run)
  }

  /** No break or continue of the body leaves a do { } while (0). */
  predicate Closed(n: Node) {
    && (DoOnce(n) ==> !Escapes(n.inner[0]))
    && forall i :: 0 <= i < |n.inner| ==> Closed(n.inner[i])
  }

  lemma {:induction false} StaysInside(p: Program, scope: string, n: Node, r: Run)
    requires RunsIn(p, scope, n, r)
    ensures Runs(n, r)
    decreases r
  {
    forall k | 0 <= k < |r.steps| ensures Runs(n.inner[r.steps[k].child], r.steps[k].run) {
      StaysInside(p, scope, n.inner[r.steps[k].child], r.steps[k].run);
    }
  }

  lemma {:induction false} MentionLeaves(n: Node, kind: Kind)
    requires Mentions(n, kind) && (kind.ReturnStmt? || kind.GotoStmt? || kind.IndirectGotoStmt?)
    ensures MayLeave(n)
  {
    if n.kind != kind {
      var i :| 0 <= i < |n.inner| && Mentions(n.inner[i], kind);
      MentionLeaves(n.inner[i], kind);
    }
  }

  /** Code without a return or a goto is not left by one. */
  lemma {:induction false} LeaveOutcome(n: Node, r: Run)
    requires Runs(n, r) && (r.out == Return || r.out == Jump)
    ensures MayLeave(n)
    decreases r
  {
    if n.kind.SwitchStmt? {
      if r.out == Return { MentionLeaves(n, ReturnStmt); }
      else if Mentions(n, GotoStmt) { MentionLeaves(n, GotoStmt); }
      else { MentionLeaves(n, IndirectGotoStmt); }
    } else if !n.kind.ReturnStmt? && !n.kind.GotoStmt? && !n.kind.IndirectGotoStmt? {
      var last := r.steps[|r.steps|-1];
      LeaveOutcome(n.inner[last.child], last.run);
    }
  }

  lemma {:induction false} OperandRan(n: Node, r: Run) returns (k: nat)
    requires Control(n, r) && r.out == Normal && (IsCast(n) || IsParen(n)) && |n.inner| > 0
    ensures k < |r.steps| && r.steps[k].child == 0 && r.steps[k].run.out == Normal
  {
    assert Evaluates(n, 0) && OperandControl(n, r) && Ran(r.steps, 0);
    k :| 0 <= k < |r.steps| && r.steps[k].child == 0;
  }

  /** A cast or parenthesis left normally has run its operand, which was left normally. */
  lemma {:induction false} OperandOver(p: Program, scope: string, n: Node, r: Run) returns (k: nat)
    requires RunsIn(p, scope, n, r) && r.out == Normal && (IsCast(n) || IsParen(n)) && |n.inner| > 0
    ensures k < |r.steps| && r.steps[k].child == 0 && r.steps[k].run.out == Normal
    ensures RunsIn(p, scope, n.inner[0], r.steps[k].run)
  {
    k := OperandRan(n, r);
  }

  /** A function has one body, and no break or continue leaves it (C allows no other). */
  predicate Bodied(fn: Function) {
    && (forall i, j :: 0 <= i < j < |fn.node.inner| ==>
          !(fn.node.inner[i].kind.CompoundStmt? && fn.node.inner[j].kind.CompoundStmt?))
    && (forall i :: 0 <= i < |fn.node.inner| && fn.node.inner[i].kind.CompoundStmt? ==> !Escapes(fn.node.inner[i]))
  }

  /** None leaves a do { } while (0) in it either. */
  predicate AllClosed(fn: Function) {
    forall i :: 0 <= i < |fn.node.inner| && fn.node.inner[i].kind.CompoundStmt? ==> Closed(fn.node.inner[i])
  }

  predicate WellFormed(fn: Function) {
    Bodied(fn) && AllClosed(fn)
  }

  ghost predicate AllBodied(p: Program, s: set<string>) {
    forall i :: 0 <= i < |p.functions| && p.functions[i].ref in s ==> Bodied(p.functions[i])
  }

  ghost predicate AllWellFormed(p: Program, s: set<string>) {
    forall i :: 0 <= i < |p.functions| && p.functions[i].ref in s ==> WellFormed(p.functions[i])
  }

  /** The functions of `s` support each other: each body ends if the others never return. */
  ghost predicate Supporting(p: Program, s: set<string>) {
    && Distinct(p) && AllBodied(p, s) && s <= Refs(p)
    && forall i :: 0 <= i < |p.functions| && p.functions[i].ref in s ==> BodyEnds(p, s, p.functions[i])
  }

  ghost predicate Supported(p: Program, s: set<string>) {
    Supporting(p, s) && AllWellFormed(p, s)
  }

  lemma {:induction false} LookupFinds(p: Program, ref: string, i: nat)
    requires i <= |p.functions|
    ensures var fn := Lookup(p, ref, i);
            (fn.Some? ==> fn.value.ref == ref && exists j :: 0 <= j < i && p.functions[j] == fn.value)
            && (fn.None? ==> forall j :: 0 <= j < i ==> p.functions[j].ref != ref)
  {
    if i > 0 { LookupFinds(p, ref, i - 1); }
  }

  // ----- how a statement found ending can be left -----

  /** A run of a do { } while (0) found ending whose body a break or continue leaves. */
  predicate LeavesEarly(p: Program, s: set<string>, scope: string, n: Node, r: Run) {
    && DoOnce(n) && Ends(p, s, scope, n)
    && r.steps != [] && r.steps[0].child == 0 && (r.steps[0].run.out == Break || r.steps[0].run.out == Continue)
  }

  /** The corpus function a call names. */
  function Callee(p: Program, scope: string, call: Node): Option<Function> {
    if call.kind.CallExpr? && |call.inner| > 0 && Designator(call.inner[0]).Some? then
      match Resolve(p, scope, Designator(call.inner[0]).value.ref)
      case Corpus(ref) => Lookup(p, ref, |p.functions|)
      case _ => None
    else None
  }

  /** Some part of the run does, in the code itself or in a function of the set it calls. */
  predicate EarlyIn(p: Program, s: set<string>, scope: string, n: Node, r: Run)
    decreases r, 0
  {
    || LeavesEarly(p, s, scope, n, r)
    || (exists k :: 0 <= k < |r.steps| && r.steps[k].child < |n.inner|
          && EarlyIn(p, s, scope, n.inner[r.steps[k].child], r.steps[k].run))
    || (r.callee.Some? && Callee(p, scope, n).Some? && Callee(p, scope, n).value.ref in s
        && BodyEarly(p, s, Callee(p, scope, n).value, r.callee.value))
  }

  predicate BodyEarly(p: Program, s: set<string>, fn: Function, r: Run)
    decreases r, 1
  {
    exists i :: 0 <= i < |fn.node.inner| && fn.node.inner[i].kind.CompoundStmt?
      && RunsIn(p, fn.scope, fn.node.inner[i], r) && EarlyIn(p, s, fn.scope, fn.node.inner[i], r)
  }

  lemma {:induction false} EarlyStep(p: Program, s: set<string>, scope: string, n: Node, r: Run, k: nat)
    requires k < |r.steps| && r.steps[k].child < |n.inner|
    requires EarlyIn(p, s, scope, n.inner[r.steps[k].child], r.steps[k].run)
    ensures EarlyIn(p, s, scope, n, r)
  {
  }

  predicate EarlyAt(p: Program, s: set<string>, scope: string, n: Node, r: Run, k: nat)
    requires k < |r.steps|
  {
    r.steps[k].child < |n.inner| && EarlyIn(p, s, scope, n.inner[r.steps[k].child], r.steps[k].run)
  }

  /** Where an early leaving below a node stands: in the k-th step, or in the function called. */
  lemma {:induction false} EarlyBelow(p: Program, s: set<string>, scope: string, n: Node, r: Run) returns (k: nat)
    requires EarlyIn(p, s, scope, n, r) && !LeavesEarly(p, s, scope, n, r)
    ensures k < |r.steps| ==> EarlyAt(p, s, scope, n, r, k)
    ensures k >= |r.steps| ==>
              && r.callee.Some? && Callee(p, scope, n).Some? && Callee(p, scope, n).value.ref in s
              && BodyEarly(p, s, Callee(p, scope, n).value, r.callee.value)
  {
    var t := r.steps;
    k := |t|;
    if j :| 0 <= j < |t| && t[j].child < |n.inner| && EarlyIn(p, s, scope, n.inner[t[j].child], t[j].run) {
      k := j;
    }
  }

  /** Found ending, the statement has no return or goto before its end: a block found ending has none,
      an if must have none before its arms.  Only a return or goto inside an expression, as GNU
      allows, makes a statement found ending not quiet. */
  predicate Quiet(n: Node) {
    if n.kind.CompoundStmt? then true
    else if n.kind.IfStmt? && TwoArms(n) then
      && (forall i :: 0 <= i < |n.inner| - 2 ==> !MayLeave(n.inner[i]))
      && Quiet(n.inner[|n.inner|-2]) && Quiet(n.inner[|n.inner|-1])
    else !MayLeave(n)
  }

  /** The run has left the statement: for what follows it, or the function. */
  predicate Gone(n: Node, r: Run) {
    r.out == Normal || (Quiet(n) && (r.out == Return || r.out == Jump))
  }

  /** A call of a function of the set that is over left that function's body early. */
  lemma {:induction false} CallLeft(p: Program, s: set<string>, scope: string, call: Node, r: Run)
    requires Supporting(p, s) && call.kind.CallExpr? && CallEnds(p, s, scope, call)
    requires RunsIn(p, scope, call, r) && r.out == Normal
    ensures EarlyIn(p, s, scope, call, r)
    decreases r, 3
  {
    match Resolve(p, scope, Designator(call.inner[0]).value.ref)
    case External =>
    case Unresolved =>
    case Corpus(ref) =>
      LookupFinds(p, ref, |p.functions|);
      BodyLeft(p, s, Lookup(p, ref, |p.functions|).value, r.callee.value);
  }

  /** Casts and parentheses around a call are left normally only with the call. */
  lemma {:induction false} WrappedLeft(p: Program, s: set<string>, scope: string, n: Node, r: Run)
    requires Supporting(p, s) && Unwrap(n).kind.CallExpr? && CallEnds(p, s, scope, Unwrap(n))
    requires RunsIn(p, scope, n, r) && r.out == Normal
    ensures EarlyIn(p, s, scope, n, r)
    decreases r, 4
  {
    if ((IsCast(n) && !n.addressCast) || IsParen(n)) && |n.inner| > 0 {
      var k := OperandOver(p, scope, n, r);
      WrappedLeft(p, s, scope, n.inner[0], r.steps[k].run);
      EarlyStep(p, s, scope, n, r, k);
    } else {
      CallLeft(p, s, scope, n, r);
    }
  }

  lemma {:induction false} BodyLeft(p: Program, s: set<string>, fn: Function, r: Run)
    requires Supporting(p, s) && fn.ref in s && fn in p.functions && BodyRuns(p, fn, r) && r.out != Cut
    ensures BodyEarly(p, s, fn, r)
    decreases r, 7
  {
    var i :| 0 <= i < |fn.node.inner| && fn.node.inner[i].kind.CompoundStmt?
      && RunsIn(p, fn.scope, fn.node.inner[i], r);
    assert Ends(p, s, fn.scope, fn.node.inner[i]);
    StaysInside(p, fn.scope, fn.node.inner[i], r);
    if r.out == Break || r.out == Continue { EscapeOutcome(fn.node.inner[i], r); }
    EndsLeft(p, s, fn.scope, fn.node.inner[i], r);
  }

  /** A run that has left a statement found ending left some do { } while (0) early on the way. */
  lemma {:induction false} EndsLeft(p: Program, s: set<string>, scope: string, n: Node, r: Run)
    requires Supporting(p, s) && Ends(p, s, scope, n) && RunsIn(p, scope, n, r) && Gone(n, r)
    ensures EarlyIn(p, s, scope, n, r)
    decreases r, 6
  {
    StaysInside(p, scope, n, r);
    if n.kind.CompoundStmt? {
      BlockLeft(p, s, scope, n, r, 0);
    } else if n.kind.IfStmt? {
      IfLeft(p, s, scope, n, r);
    } else if n.kind.DoStmt? {
      DoLeft(p, s, scope, n, r);
    } else {
      if r.out != Normal { LeaveOutcome(n, r); }
      WrappedLeft(p, s, scope, n, r);
    }
  }

  lemma {:induction false} IfLeft(p: Program, s: set<string>, scope: string, n: Node, r: Run)
    requires Supporting(p, s) && Ends(p, s, scope, n) && n.kind.IfStmt? && RunsIn(p, scope, n, r) && Gone(n, r)
    ensures EarlyIn(p, s, scope, n, r)
    decreases r, 5
  {
    var j := |r.steps| - 1;
    var last := r.steps[j];
    if j > 0 { assert Goes(n, r.steps[j-1].child, r.steps[j-1].run.out, r.steps[j].child); }
    if last.child == 0 {
      StaysInside(p, scope, n.inner[0], last.run);
      if r.out != Normal { LeaveOutcome(n.inner[0], last.run); }
    } else {
      EndsLeft(p, s, scope, n.inner[last.child], last.run);
      EarlyStep(p, s, scope, n, r, j);
    }
  }

  lemma {:induction false} DoLeft(p: Program, s: set<string>, scope: string, n: Node, r: Run)
    requires Supporting(p, s) && Ends(p, s, scope, n) && n.kind.DoStmt? && RunsIn(p, scope, n, r)
    requires r.out != Cut && r.out != Break && r.out != Continue
    ensures EarlyIn(p, s, scope, n, r)
    decreases r, 5
  {
    var first := r.steps[0];
    if |r.steps| > 1 {
      var j := 1;
      assert Goes(n, r.steps[j-1].child, r.steps[j-1].run.out, r.steps[j].child);
    }
    StaysInside(p, scope, n.inner[0], first.run);
    if first.run.out == Return || first.run.out == Jump { LeaveOutcome(n.inner[0], first.run); }
    if first.run.out == Normal {
      EndsLeft(p, s, scope, n.inner[0], first.run);
      EarlyStep(p, s, scope, n, r, 0);
    }
  }

  lemma {:induction false} BlockLeft(p: Program, s: set<string>, scope: string, n: Node, r: Run, i: nat)
    requires Supporting(p, s) && n.kind.CompoundStmt? && i <= |n.inner| && BlockEnds(p, s, scope, n, i)
    requires RunsIn(p, scope, n, r)
    requires (r.out == Normal || r.out == Return || r.out == Jump) && (i < |r.steps| || i == 0)
    ensures EarlyIn(p, s, scope, n, r)
    decreases r, 5, |r.steps| - i
  {
    StaysInside(p, scope, n, r);
    TurnSteps(n, r, i);
    var step := r.steps[i];
    StaysInside(p, scope, n.inner[i], step.run);
    if step.run.out == Return || step.run.out == Jump { LeaveOutcome(n.inner[i], step.run); }
    if Ends(p, s, scope, n.inner[i]) {
      EndsLeft(p, s, scope, n.inner[i], step.run);
      EarlyStep(p, s, scope, n, r, i);
    } else {
      BlockLeft(p, s, scope, n, r, i + 1);
    }
  }

  // ----- where no do { } while (0) can be left early -----

  lemma {:induction false} LookupIn(p: Program, scope: string, call: Node)
    requires Callee(p, scope, call).Some?
    ensures Callee(p, scope, call).value in p.functions
  {
    match Resolve(p, scope, Designator(call.inner[0]).value.ref)
    case Corpus(ref) => LookupFinds(p, ref, |p.functions|);
  }

  lemma {:induction false} ClosedNotEarly(p: Program, s: set<string>, scope: string, n: Node, r: Run)
    requires AllWellFormed(p, s) && Closed(n) && RunsIn(p, scope, n, r)
    ensures !EarlyIn(p, s, scope, n, r)
    decreases r
  {
    if LeavesEarly(p, s, scope, n, r) {
      StaysInside(p, scope, n.inner[0], r.steps[0].run);
      EscapeOutcome(n.inner[0], r.steps[0].run);
    }
    forall k | 0 <= k < |r.steps| && r.steps[k].child < |n.inner|
      ensures !EarlyIn(p, s, scope, n.inner[r.steps[k].child], r.steps[k].run)
    {
      ClosedNotEarly(p, s, scope, n.inner[r.steps[k].child], r.steps[k].run);
    }
    if r.callee.Some? && Callee(p, scope, n).Some? && Callee(p, scope, n).value.ref in s {
      LookupIn(p, scope, n);
      var fn := Callee(p, scope, n).value;
      forall i | 0 <= i < |fn.node.inner| && fn.node.inner[i].kind.CompoundStmt?
        && RunsIn(p, fn.scope, fn.node.inner[i], r.callee.value)
        ensures !EarlyIn(p, s, fn.scope, fn.node.inner[i], r.callee.value)
      {
        ClosedNotEarly(p, s, fn.scope, fn.node.inner[i], r.callee.value);
      }
    }
  }

  /** A statement found ending is never completed, under any supported set: a run of it is still in
      it, or left it for an enclosing loop or switch, or, where an expression in it holds a return or
      goto, by that. */
  lemma {:induction false} EndsNotLeft(p: Program, s: set<string>, scope: string, n: Node, r: Run)
    requires Supported(p, s) && Closed(n) && Ends(p, s, scope, n) && RunsIn(p, scope, n, r)
    ensures r.out != Normal
    ensures Quiet(n) ==> r.out == Cut || r.out == Break || r.out == Continue
  {
    ClosedNotEarly(p, s, scope, n, r);
    if Gone(n, r) { EndsLeft(p, s, scope, n, r); }
  }

  lemma {:induction false} BodyNeverLeft(p: Program, s: set<string>, fn: Function, r: Run)
    requires Supported(p, s) && fn.ref in s && fn in p.functions
    requires BodyRuns(p, fn, r)
    ensures r.out == Cut
  {
    if r.out != Cut {
      BodyLeft(p, s, fn, r);
      var i :| 0 <= i < |fn.node.inner| && fn.node.inner[i].kind.CompoundStmt?
        && RunsIn(p, fn.scope, fn.node.inner[i], r) && EarlyIn(p, s, fn.scope, fn.node.inner[i], r);
      ClosedNotEarly(p, s, fn.scope, fn.node.inner[i], r);
    }
  }

  // ----- what the iteration leaves -----

  lemma {:induction false} GreatestSupporting(p: Program)
    requires Distinct(p) && AllBodied(p, Greatest(p))
    ensures Supporting(p, Greatest(p))
  {
    GreatestIsGreatest(p);
    WithinRefs(p, |p.functions|);
    forall i | 0 <= i < |p.functions| && p.functions[i].ref in Greatest(p)
      ensures BodyEnds(p, Greatest(p), p.functions[i])
    {
      var j :| 0 <= j < |p.functions| && BodyEnds(p, Greatest(p), p.functions[j])
        && p.functions[j].ref == p.functions[i].ref;
      assert i == j;
    }
  }

  /** A function the iteration leaves that returns all the same, whatever order it took the functions
      in and however it stopped: the run leaves a do { } while (0) found ending by a break or
      continue of its body, in the function or in one it calls. */
  lemma {:induction false} FoundLeftEarly(p: Program, ending: set<string>, fn: Function, r: Run)
    requires Distinct(p) && AllBodied(p, Greatest(p))
    requires Left(p, ending)
    requires fn in p.functions && fn.ref in ending && BodyRuns(p, fn, r) && r.out != Cut
    ensures BodyEarly(p, Greatest(p), fn, r)
  {
    LeftInsideGreatest(p, ending);
    GreatestSupporting(p);
    BodyLeft(p, Greatest(p), fn, r);
  }

  /** Where the rounds stop because nothing changes, found ending means under the set itself. */
  lemma {:induction false} StableLeftEarly(p: Program, ending: set<string>, fn: Function, r: Run)
    requires Distinct(p) && AllBodied(p, ending) && ending <= Refs(p)
    requires forall j :: 0 <= j <= |p.functions| ==> Sweep(p, ending, j) == ending
    requires fn in p.functions && fn.ref in ending && BodyRuns(p, fn, r) && r.out != Cut
    ensures BodyEarly(p, ending, fn, r)
  {
    StableSupported(p, ending, |p.functions|);
    BodyLeft(p, ending, fn, r);
  }

  /** The same of a statement found ending under the set. */
  lemma {:induction false} StatementLeftEarly(p: Program, ending: set<string>, scope: string, n: Node, r: Run)
    requires Distinct(p) && AllBodied(p, Greatest(p))
    requires Left(p, ending)
    requires Ends(p, ending, scope, n) && RunsIn(p, scope, n, r) && Gone(n, r)
    ensures EarlyIn(p, Greatest(p), scope, n, r)
  {
    LeftInsideGreatest(p, ending);
    GreatestSupporting(p);
    EndsMonotone(p, ending, Greatest(p), scope, n);
    EndsLeft(p, Greatest(p), scope, n, r);
  }

  /** Where no break or continue leaves a do { } while (0) the functions the iteration leaves never
      return: a run of the body of one of them is never left. */
  lemma {:induction false} FoundNeverReturn(p: Program, ending: set<string>, fn: Function, r: Run)
    requires Distinct(p) && AllWellFormed(p, Greatest(p))
    requires Left(p, ending)
    requires fn in p.functions && fn.ref in ending && BodyRuns(p, fn, r)
    ensures r.out == Cut
  {
    LeftInsideGreatest(p, ending);
    GreatestSupporting(p);
    BodyNeverLeft(p, Greatest(p), fn, r);
  }

  /** So a statement found ending under the set the iteration leaves is never completed. */
  lemma {:induction false} FoundNotLeft(p: Program, ending: set<string>, scope: string, n: Node, r: Run)
    requires Distinct(p) && AllWellFormed(p, Greatest(p))
    requires Left(p, ending)
    requires Ends(p, ending, scope, n) && Closed(n) && RunsIn(p, scope, n, r)
    ensures r.out != Normal
    ensures Quiet(n) ==> r.out == Cut || ((r.out == Break || r.out == Continue) && Escapes(n))
  {
    LeftInsideGreatest(p, ending);
    GreatestSupporting(p);
    EndsMonotone(p, ending, Greatest(p), scope, n);
    EndsNotLeft(p, Greatest(p), scope, n, r);
    StaysInside(p, scope, n, r);
    if r.out == Break || r.out == Continue { EscapeOutcome(n, r); }
  }
}
