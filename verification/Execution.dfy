/** What running a C function body can do, as far as control goes (sections 6.5 and 6.8 of
    ISO/IEC 9899:2011).  A run of a node is the sequence of runs of its children it
    performed and how it was left.  Conditions are not evaluated: every branch a condition
    could choose is a run, so a claim about all runs here covers the real ones.  A run may be
    `Cut`: watched only up to some moment, or never left (a call that does not return). */
module Execution {
  import opened Ast

  datatype Outcome = Normal | Break | Continue | Return | Jump | Cut

  /** `callee` is the run of the body a call entered, where a semantics follows calls. */
  datatype Run = Run(steps: seq<Step>, callee: Option<Run>, out: Outcome)
  datatype Step = Step(child: nat, run: Run)

  /** Children run one after the other: statements of a block, declarators, a comma. */
  predicate InTurn(n: Node) {
    (n.kind.CompoundStmt? || n.kind.DeclStmt? || n.kind.LabelStmt? || n.kind.CaseStmt? || n.kind.DefaultStmt?)
      || (n.kind.BinaryOperator? && n.opcode.Comma?)
  }

  predicate ShortCircuit(n: Node) {
    n.kind.BinaryOperator? && (n.opcode.AndAnd? || n.opcode.OrOr?)
  }

  predicate IsLoop(n: Node) {
    (n.kind.WhileStmt? || n.kind.DoStmt? || n.kind.ForStmt?)
  }

  /** The nodes whose children run in an order the language fixes. */
  predicate Ordered(n: Node) {
    InTurn(n) || ShortCircuit(n) || IsLoop(n)
      || (n.kind.IfStmt? || n.kind.ConditionalOperator? || n.kind.BinaryConditionalOperator?)
  }

  /** Declarations inside a body that run nothing. */
  predicate Inert(n: Node) {
    (n.kind.FunctionDecl? || n.kind.RecordDecl? || n.kind.TypedefDecl? || n.kind.EnumDecl?)
  }

  predicate TwoArms(n: Node) {
    n.hasElse && |n.inner| >= 3
  }

  /** The child an ordered node runs first. */
  predicate Starts(n: Node, j: nat) {
    if n.kind.WhileStmt? then |n.inner| >= 2 && j == |n.inner| - 2
    else if n.kind.DoStmt? then |n.inner| == 2 && j == 0
    else if n.kind.ForStmt? then |n.inner| == 5 && j == 0
    else j == 0
  }

  /** Having left child `i` by `o`, an ordered node may run child `j` next. */
  predicate Goes(n: Node, i: nat, o: Outcome, j: nat) {
    var c := |n.inner|;
    if InTurn(n) then o == Normal && j == i + 1
    else if ShortCircuit(n) then o == Normal && i == 0 && j == 1
    else if n.kind.IfStmt? then o == Normal && i == 0 && 0 < j
      && (if TwoArms(n) then j == c - 2 || j == c - 1 else j == 1)
    else if n.kind.WhileStmt? then
      (i == c - 2 && o == Normal && j == c - 1) || (i == c - 1 && (o.Normal? || o.Continue?) && j == c - 2)
    else if n.kind.DoStmt? then
      (i == 0 && (o.Normal? || o.Continue?) && j == 1) || (i == 1 && o == Normal && j == 0)
    else if n.kind.ForStmt? then
      || (i == 0 && o == Normal && j == 2) || (i == 2 && o == Normal && j == 4)
      || (i == 4 && (o.Normal? || o.Continue?) && j == 3) || (i == 3 && o == Normal && j == 2)
    else o == Normal && i == 0 && j > 0
  }

  /** Having left child `i` by `o`, an ordered node may itself be left by `out`. */
  predicate Leaves(n: Node, i: nat, o: Outcome, out: Outcome) {
    var c := |n.inner|;
    if (o.Return? || o.Jump? || o.Cut?) then out == o
    else if InTurn(n) then (if o == Normal then i == c - 1 && out == Normal else out == o)
    else if ShortCircuit(n) then o == Normal && out == Normal
    else if n.kind.IfStmt? then (if i == 0 then o == Normal && !TwoArms(n) && out == Normal else out == o)
    else if n.kind.WhileStmt? then out == Normal && (if i == c - 2 then o == Normal else o == Break)
    else if n.kind.DoStmt? then out == Normal && (if i == 1 then o == Normal else o == Break)
    else if n.kind.ForStmt? then out == Normal && (if i == 2 then o == Normal else i == 4 && o == Break)
    else o == Normal && out == Normal && (i > 0 || n.kind.BinaryConditionalOperator?)
  }

  predicate OrderedControl(n: Node, r: Run)
    requires forall k :: 0 <= k < |r.steps| ==> r.steps[k].child < |n.inner|
  {
    var s := r.steps;
    && (s != [] ==> Starts(n, s[0].child))
    && (forall k :: 0 < k < |s| ==> Goes(n, s[k-1].child, s[k-1].run.out, s[k].child))
    && (r.out == Cut
        || (s == [] && InTurn(n) && n.inner == [] && r.out == Normal)
        || (s != [] && Leaves(n, s[|s|-1].child, s[|s|-1].run.out, r.out)))
  }

  /** An assignment to a variable named itself: its left side only says where to write. */
  predicate AssignsLocal(n: Node) {
    n.kind.BinaryOperator? && n.opcode.Assign? && |n.inner| == 2 && LocalRef(n.inner[0]).Some?
  }

  predicate Operand(n: Node, i: nat) {
    i < |n.inner| && !(AssignsLocal(n) && i == 0)
  }

  /** An operand the node evaluates whenever it is evaluated. */
  predicate Evaluates(n: Node, j: nat) {
    && (n.kind.ReturnStmt? || n.kind.ParenExpr? || n.kind.ImplicitCastExpr? || n.kind.CStyleCastExpr?
          || n.kind.ConstantExpr? || n.kind.ExprWithCleanups? || n.kind.UnaryOperator? || n.kind.BinaryOperator?
          || n.kind.CompoundAssignOperator? || n.kind.MemberExpr? || n.kind.ArraySubscriptExpr? || n.kind.CallExpr?
          || n.kind.VarDecl?)
    && !(AssignsLocal(n) && j == 0)
  }

  /** How a node that is neither ordered nor a switch is left once its operands are done. */
  function Completion(n: Node): Outcome {
    match n.kind
    case ReturnStmt => Return
    case BreakStmt => Break
    case ContinueStmt => Continue
    case GotoStmt => Jump
    case IndirectGotoStmt => Jump
    case _ => Normal
  }

  predicate Ran(s: seq<Step>, j: nat) {
    exists k :: 0 <= k < |s| && s[k].child == j
  }

  /** Operands in any order, each at most once; a kind the analyses do not know may leave
      some of its operands out (sizeof). */
  predicate OperandControl(n: Node, r: Run)
    requires forall k :: 0 <= k < |r.steps| ==> r.steps[k].child < |n.inner|
  {
    var s := r.steps;
    && (forall i, k :: 0 <= i < k < |s| ==> s[i].child != s[k].child)
    && (forall k :: 0 <= k < |s| - 1 ==> s[k].run.out == Normal)
    && (forall k :: 0 <= k < |s| && AssignsLocal(n) ==> s[k].child != 0)
    && (r.out == Cut
        || (s != [] && s[|s|-1].run.out != Normal && r.out == s[|s|-1].run.out)
        || ((s != [] ==> s[|s|-1].run.out == Normal)
            && (forall j :: 0 <= j < |n.inner| && Evaluates(n, j) ==> Ran(s, j))
            && r.out == Completion(n)))
  }

  predicate Mentions(n: Node, kind: Kind) {
    n.kind == kind || exists i :: 0 <= i < |n.inner| && Mentions(n.inner[i], kind)
  }

  /** A switch is not followed inside: it is left in any way its text has a statement for. */
  predicate SwitchControl(n: Node, r: Run) {
    && r.steps == []
    && r.out != Break
    && (r.out == Return ==> Mentions(n, ReturnStmt))
    && (r.out == Jump ==> Mentions(n, GotoStmt) || Mentions(n, IndirectGotoStmt))
    && (r.out == Continue ==> Mentions(n, ContinueStmt))
  }

  predicate Control(n: Node, r: Run) {
    && (forall k :: 0 <= k < |r.steps| ==> r.steps[k].child < |n.inner|)
    && if n.kind.SwitchStmt? then SwitchControl(n, r)
       else if Inert(n) then r.steps == [] && (r.out.Normal? || r.out.Cut?)
       else if Ordered(n) then OrderedControl(n, r)
       else OperandControl(n, r)
  }

  /** A run of `n`, entered at its start, in which calls may return or not. */
  predicate Runs(n: Node, r: Run)
    decreases r
  {
    Control(n, r) && forall k :: 0 <= k < |r.steps| ==> Runs(n.inner[r.steps[k].child], r.steps[k].run)
  }

  /** A break or continue that leaves `n` to an enclosing statement. */
  predicate Escapes(n: Node) {
    if (n.kind.BreakStmt? || n.kind.ContinueStmt?) then true
    else if IsLoop(n) || Inert(n) then false
    else if n.kind.SwitchStmt? then Mentions(n, ContinueStmt)
    else exists i :: 0 <= i < |n.inner| && Escapes(n.inner[i])
  }

  lemma {:induction false} EscapeOutcome(n: Node, r: Run)
    requires Runs(n, r) && (r.out.Break? || r.out.Continue?)
    ensures Escapes(n)
    decreases r
  {
    if !(n.kind.BreakStmt? || n.kind.ContinueStmt? || n.kind.SwitchStmt?) {
      var s := r.steps;
      assert s != [];
      var last := s[|s|-1];
      assert last.run.out == r.out;
      EscapeOutcome(n.inner[last.child], last.run);
    }
  }

  /** In an ordered node whose children run in turn, the k-th step runs child k. */
  lemma {:induction false} TurnSteps(n: Node, r: Run, k: nat)
    requires Runs(n, r) && InTurn(n) && k < |r.steps|
    ensures r.steps[k].child == k
    ensures k + 1 < |r.steps| ==> r.steps[k].run.out == Normal
  {
    if k > 0 { TurnSteps(n, r, k - 1); }
    if k + 1 < |r.steps| {
      var j := k + 1;
      assert Goes(n, r.steps[j-1].child, r.steps[j-1].run.out, r.steps[j].child);
    }
  }
}
