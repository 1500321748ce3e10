/** What is found ending (internal/cproject/guards.go:86-113): of statements built of blocks, ifs,
    do { } while (0) and calls, exactly those that cannot be completed by their text and hold no
    return or goto on the way. */
module NeverReturnsFound {
  import opened Ast
  import opened Execution
  import opened Guards
  import opened NeverReturns
  import opened NeverReturnsText

  /** The functions that can return, if those of `s` never do. */
  function Others(p: Program, s: set<string>): set<string> {
    Refs(p) - s
  }

  /** The statements before the `i`-th of a block can be completed. */
  predicate Reached(p: Program, s: set<string>, scope: string, n: Node, i: nat) {
    forall j :: 0 <= j < i ==> Part(p, Others(p, s), scope, n, j, Normal)
  }

  /** A call in casts and parentheses whose operands can be completed. */
  predicate Called(p: Program, s: set<string>, scope: string, n: Node)
    decreases n
  {
    && (forall j :: 0 < j < |n.inner| ==> Part(p, Others(p, s), scope, n, j, Normal))
    && if ((IsCast(n) && !n.addressCast) || IsParen(n)) && |n.inner| > 0 then Called(p, s, scope, n.inner[0])
       else n.kind.CallExpr? && (|n.inner| > 0 ==> Part(p, Others(p, s), scope, n, 0, Normal))
  }

  /** Built of blocks, ifs, do { } while (0) and calls, so far as it can be reached; what else it
      holds can be completed. */
  predicate Built(p: Program, s: set<string>, scope: string, n: Node)
    decreases n
  {
    if n.kind.CompoundStmt? then
      forall i :: 0 <= i < |n.inner| && Reached(p, s, scope, n, i) ==> Built(p, s, scope, n.inner[i])
    else if n.kind.IfStmt? then
      && Part(p, Others(p, s), scope, n, 0, Normal)
      && (TwoArms(n) ==> Built(p, s, scope, n.inner[|n.inner|-2]) && Built(p, s, scope, n.inner[|n.inner|-1]))
    else if n.kind.DoStmt? then
      DoOnce(n) && Part(p, Others(p, s), scope, n, 1, Normal) && Built(p, s, scope, n.inner[0])
    else Called(p, s, scope, n) || CanLeave(p, Others(p, s), scope, n, Normal)
  }

  /** No return or goto in what can be reached of its blocks, and none in a do { } while (0). */
  predicate Kept(p: Program, s: set<string>, scope: string, n: Node)
    decreases n
  {
    if n.kind.CompoundStmt? then
      forall i :: 0 <= i < |n.inner| && Reached(p, s, scope, n, i) ==> !MayLeave(n.inner[i])
    else if n.kind.IfStmt? && TwoArms(n) then
      Kept(p, s, scope, n.inner[|n.inner|-2]) && Kept(p, s, scope, n.inner[|n.inner|-1])
    else n.kind.DoStmt? && n.inner != [] ==> !MayLeave(n.inner[0])
  }

  lemma {:induction false} QuietKept(p: Program, s: set<string>, scope: string, n: Node)
    requires !MayLeave(n)
    ensures Kept(p, s, scope, n)
    decreases n
  {
    if n.kind.IfStmt? && TwoArms(n) {
      QuietKept(p, s, scope, n.inner[|n.inner|-2]);
      QuietKept(p, s, scope, n.inner[|n.inner|-1]);
    }
  }

  // ----- calls -----

  lemma {:induction false} CallEndsIs(p: Program, s: set<string>, scope: string, call: Node)
    requires s <= Refs(p)
    ensures CallEnds(p, s, scope, call) <==> !CallCan(p, Others(p, s), scope, call)
  {
    if |call.inner| > 0 && Designator(call.inner[0]).Some? {
      match Resolve(p, scope, Designator(call.inner[0]).value.ref)
      case Unresolved =>
      case External =>
      case Corpus(ref) => LookupFinds(p, ref, |p.functions|);
    }
  }

  /** A call is over where its wrapping is. */
  lemma {:induction false} WrappedCan(p: Program, s: set<string>, scope: string, n: Node)
    requires CanLeave(p, Others(p, s), scope, n, Normal) && Unwrap(n).kind.CallExpr?
    ensures CallCan(p, Others(p, s), scope, Unwrap(n))
    decreases n
  {
    if ((IsCast(n) && !n.addressCast) || IsParen(n)) && |n.inner| > 0 {
      assert Evaluates(n, 0) && Part(p, Others(p, s), scope, n, 0, Normal);
      WrappedCan(p, s, scope, n.inner[0]);
    }
  }

  lemma {:induction false} CalledCan(p: Program, s: set<string>, scope: string, n: Node)
    requires Called(p, s, scope, n)
    ensures Unwrap(n).kind.CallExpr?
    ensures CallCan(p, Others(p, s), scope, Unwrap(n)) ==> CanLeave(p, Others(p, s), scope, n, Normal)
    decreases n
  {
    if ((IsCast(n) && !n.addressCast) || IsParen(n)) && |n.inner| > 0 {
      CalledCan(p, s, scope, n.inner[0]);
      if CallCan(p, Others(p, s), scope, Unwrap(n)) {
        forall j | 0 <= j < |n.inner| ensures Part(p, Others(p, s), scope, n, j, Normal) {}
        assert OperandCan(p, Others(p, s), scope, n, Normal);
      }
    } else if CallCan(p, Others(p, s), scope, n) {
      forall j | 0 <= j < |n.inner| ensures Part(p, Others(p, s), scope, n, j, Normal) {}
      assert OperandCan(p, Others(p, s), scope, n, Normal);
    }
  }

  // ----- how the test reads on the statements found -----

  lemma {:induction false} OnceCan(p: Program, r: set<string>, scope: string, n: Node)
    requires DoOnce(n) && Part(p, r, scope, n, 1, Normal)
    ensures CanLeave(p, r, scope, n, Normal) <==>
            CanLeave(p, r, scope, n.inner[0], Normal) || CanLeave(p, r, scope, n.inner[0], Break)
            || CanLeave(p, r, scope, n.inner[0], Continue)
  {
    assert CanLeave(p, r, scope, n, Normal) == LoopCan(p, r, scope, n, Normal);
    assert Part(p, r, scope, n, 0, Normal) == CanLeave(p, r, scope, n.inner[0], Normal);
    assert Part(p, r, scope, n, 0, Break) == CanLeave(p, r, scope, n.inner[0], Break);
    assert Part(p, r, scope, n, 0, Continue) == CanLeave(p, r, scope, n.inner[0], Continue);
    assert Again(p, r, scope, n, 0) == (Part(p, r, scope, n, 0, Normal) || Part(p, r, scope, n, 0, Continue));
  }

  lemma {:induction false} ArmsCan(p: Program, r: set<string>, scope: string, n: Node)
    requires n.kind.IfStmt? && Part(p, r, scope, n, 0, Normal)
    ensures !TwoArms(n) ==> CanLeave(p, r, scope, n, Normal)
    ensures TwoArms(n) ==> (CanLeave(p, r, scope, n, Normal) <==>
              CanLeave(p, r, scope, n.inner[|n.inner|-2], Normal)
                || CanLeave(p, r, scope, n.inner[|n.inner|-1], Normal))
  {
    assert CanLeave(p, r, scope, n, Normal) == BranchCan(p, r, scope, n, Normal);
  }

  // ----- what cannot be completed is found -----

  lemma {:induction false} TurnStuck(p: Program, s: set<string>, scope: string, n: Node, i: nat) returns (k: nat)
    requires i <= |n.inner| && Reached(p, s, scope, n, i) && !TurnCan(p, Others(p, s), scope, n, i, Normal)
    ensures i <= k < |n.inner| && Reached(p, s, scope, n, k) && !Part(p, Others(p, s), scope, n, k, Normal)
    decreases |n.inner| - i
  {
    k := i;
    if Part(p, Others(p, s), scope, n, i, Normal) { k := TurnStuck(p, s, scope, n, i + 1); }
  }

  lemma {:induction false} BlockUpTo(p: Program, s: set<string>, scope: string, n: Node, i: nat, k: nat)
    requires i <= k < |n.inner| && Ends(p, s, scope, n.inner[k])
    requires forall j :: i <= j <= k ==> !MayLeave(n.inner[j])
    ensures BlockEnds(p, s, scope, n, i)
    decreases k - i
  {
    if i < k { BlockUpTo(p, s, scope, n, i + 1, k); }
  }

  lemma {:induction false} StuckFound(p: Program, s: set<string>, scope: string, n: Node)
    requires s <= Refs(p) && Built(p, s, scope, n) && Kept(p, s, scope, n)
    requires !CanLeave(p, Others(p, s), scope, n, Normal)
    ensures Ends(p, s, scope, n)
    decreases n
  {
    if n.kind.CompoundStmt? {
      var k := TurnStuck(p, s, scope, n, 0);
      QuietKept(p, s, scope, n.inner[k]);
      StuckFound(p, s, scope, n.inner[k]);
      forall j | 0 <= j <= k ensures !MayLeave(n.inner[j]) { assert Reached(p, s, scope, n, j); }
      BlockUpTo(p, s, scope, n, 0, k);
    } else if n.kind.IfStmt? {
      StuckArms(p, s, scope, n);
    } else if n.kind.DoStmt? {
      QuietKept(p, s, scope, n.inner[0]);
      OnceCan(p, Others(p, s), scope, n);
      StuckFound(p, s, scope, n.inner[0]);
    } else {
      CalledCan(p, s, scope, n);
      CallEndsIs(p, s, scope, Unwrap(n));
    }
  }

  lemma {:induction false} StuckArms(p: Program, s: set<string>, scope: string, n: Node)
    requires s <= Refs(p) && n.kind.IfStmt? && Built(p, s, scope, n) && Kept(p, s, scope, n)
    requires !CanLeave(p, Others(p, s), scope, n, Normal)
    ensures Ends(p, s, scope, n)
    decreases n, 0
  {
    ArmsCan(p, Others(p, s), scope, n);
    StuckFound(p, s, scope, n.inner[|n.inner|-2]);
    StuckFound(p, s, scope, n.inner[|n.inner|-1]);
  }

  // ----- what is found cannot be completed -----

  lemma {:induction false} CanEscape(p: Program, r: set<string>, scope: string, n: Node, o: Outcome)
    requires CanLeave(p, r, scope, n, o) && (o == Break || o == Continue)
    ensures Escapes(n)
    decreases n, |n.inner| + 1
  {
    if n.kind.BreakStmt? || n.kind.ContinueStmt? || n.kind.SwitchStmt? || Inert(n) || IsLoop(n) {
    } else if InTurn(n) {
      TurnEscape(p, r, scope, n, 0, o);
    } else if Ordered(n) {
      var i := BranchEscape(p, r, scope, n, o);
      CanEscape(p, r, scope, n.inner[i], o);
    } else {
      assert Completion(n) != o;
      var j :| 0 <= j < |n.inner| && Operand(n, j) && Part(p, r, scope, n, j, o);
      CanEscape(p, r, scope, n.inner[j], o);
    }
  }

  lemma {:induction false} TurnEscape(p: Program, r: set<string>, scope: string, n: Node, k: nat, o: Outcome)
    requires InTurn(n) && k <= |n.inner| && TurnCan(p, r, scope, n, k, o) && (o == Break || o == Continue)
    ensures Escapes(n)
    decreases n, |n.inner| - k
  {
    if Part(p, r, scope, n, k, o) {
      CanEscape(p, r, scope, n.inner[k], o);
    } else {
      TurnEscape(p, r, scope, n, k + 1, o);
    }
  }

  lemma {:induction false} BranchEscape(p: Program, r: set<string>, scope: string, n: Node, o: Outcome) returns (i: nat)
    requires Ordered(n) && !InTurn(n) && !IsLoop(n) && BranchCan(p, r, scope, n, o) && (o == Break || o == Continue)
    ensures Part(p, r, scope, n, i, o)
  {
    if !TwoArms(n) { i := 1; }
    else if Part(p, r, scope, n, |n.inner| - 2, o) { i := |n.inner| - 2; }
    else { i := |n.inner| - 1; }
  }

  lemma {:induction false} FoundStuck(p: Program, s: set<string>, scope: string, n: Node)
    requires s <= Refs(p) && Built(p, s, scope, n) && Closed(n) && Ends(p, s, scope, n)
    ensures Kept(p, s, scope, n) && !CanLeave(p, Others(p, s), scope, n, Normal)
    decreases n, |n.inner| + 1
  {
    if n.kind.CompoundStmt? {
      BlockStuck(p, s, scope, n, 0);
    } else if n.kind.IfStmt? {
      FoundStuck(p, s, scope, n.inner[|n.inner|-2]);
      FoundStuck(p, s, scope, n.inner[|n.inner|-1]);
      ArmsCan(p, Others(p, s), scope, n);
    } else if n.kind.DoStmt? {
      FoundStuck(p, s, scope, n.inner[0]);
      OnceStuck(p, s, scope, n);
    } else if CanLeave(p, Others(p, s), scope, n, Normal) {
      WrappedCan(p, s, scope, n);
      CallEndsIs(p, s, scope, Unwrap(n));
    }
  }

  lemma {:induction false} OnceStuck(p: Program, s: set<string>, scope: string, n: Node)
    requires DoOnce(n) && Closed(n) && Part(p, Others(p, s), scope, n, 1, Normal)
    requires !CanLeave(p, Others(p, s), scope, n.inner[0], Normal)
    ensures !CanLeave(p, Others(p, s), scope, n, Normal)
  {
    OnceCan(p, Others(p, s), scope, n);
    if CanLeave(p, Others(p, s), scope, n.inner[0], Break) { CanEscape(p, Others(p, s), scope, n.inner[0], Break); }
    if CanLeave(p, Others(p, s), scope, n.inner[0], Continue) {
      CanEscape(p, Others(p, s), scope, n.inner[0], Continue);
    }
  }

  lemma {:induction false} BlockStuck(p: Program, s: set<string>, scope: string, n: Node, i: nat)
    requires s <= Refs(p) && n.kind.CompoundStmt? && Built(p, s, scope, n) && Closed(n) && i <= |n.inner|
    requires BlockEnds(p, s, scope, n, i) && Reached(p, s, scope, n, i)
    requires forall j :: 0 <= j < i ==> !MayLeave(n.inner[j])
    ensures !TurnCan(p, Others(p, s), scope, n, i, Normal)
    ensures forall k :: 0 <= k < |n.inner| && Reached(p, s, scope, n, k) ==> !MayLeave(n.inner[k])
    decreases n, |n.inner| - i
  {
    if Part(p, Others(p, s), scope, n, i, Normal) {
      if Ends(p, s, scope, n.inner[i]) { FoundStuck(p, s, scope, n.inner[i]); }
      BlockStuck(p, s, scope, n, i + 1);
    }
  }

  /** A statement so built is found ending exactly if it cannot be completed, by the text, where the
      functions of the set never return, and no return or goto stands where it can be reached. */
  lemma {:induction false} EndsExactly(p: Program, s: set<string>, scope: string, n: Node)
    requires s <= Refs(p) && Built(p, s, scope, n) && Closed(n)
    ensures Ends(p, s, scope, n) <==> !CanLeave(p, Others(p, s), scope, n, Normal) && Kept(p, s, scope, n)
  {
    if Ends(p, s, scope, n) { FoundStuck(p, s, scope, n); }
    else if !CanLeave(p, Others(p, s), scope, n, Normal) && Kept(p, s, scope, n) { StuckFound(p, s, scope, n); }
  }

  // ----- what the rounds leave -----

  /** The function's body is so built. */
  predicate BodyBuilt(p: Program, s: set<string>, fn: Function) {
    forall i :: 0 <= i < |fn.node.inner| && fn.node.inner[i].kind.CompoundStmt? ==>
      Built(p, s, fn.scope, fn.node.inner[i]) && Closed(fn.node.inner[i])
  }

  /** It cannot be left to its end, nor by a return or goto. */
  predicate BodyStuck(p: Program, s: set<string>, fn: Function) {
    exists i :: 0 <= i < |fn.node.inner| && fn.node.inner[i].kind.CompoundStmt?
      && !CanLeave(p, Others(p, s), fn.scope, fn.node.inner[i], Normal) && Kept(p, s, fn.scope, fn.node.inner[i])
  }

  lemma {:induction false} BodyEndsExactly(p: Program, s: set<string>, fn: Function)
    requires s <= Refs(p) && BodyBuilt(p, s, fn)
    ensures BodyEnds(p, s, fn) <==> BodyStuck(p, s, fn)
  {
    forall i | 0 <= i < |fn.node.inner| && fn.node.inner[i].kind.CompoundStmt?
      ensures Ends(p, s, fn.scope, fn.node.inner[i]) <==>
              !CanLeave(p, Others(p, s), fn.scope, fn.node.inner[i], Normal) && Kept(p, s, fn.scope, fn.node.inner[i])
    {
      EndsExactly(p, s, fn.scope, fn.node.inner[i]);
    }
  }

  /** A set no step of a round changes holds exactly the functions that cannot be left, where its
      members never return; a function its author declares noreturn may be missing. */
  lemma {:induction false} StableExactly(p: Program, ending: set<string>, i: nat)
    requires Distinct(p) && ending <= Refs(p) && i < |p.functions|
    requires forall j :: 0 <= j <= |p.functions| ==> Sweep(p, ending, j) == ending
    requires BodyBuilt(p, ending, p.functions[i])
    ensures p.functions[i].ref in ending ==> BodyStuck(p, ending, p.functions[i])
    ensures BodyStuck(p, ending, p.functions[i]) ==>
            p.functions[i].ref in ending || DeclaredNoReturn(p.functions[i].node)
  {
    var fn := p.functions[i];
    assert Sweep(p, ending, i + 1) == Revise(p, Sweep(p, ending, i), fn);
    BodyEndsExactly(p, ending, fn);
    if fn.ref in Declared(p) {
      var j :| 0 <= j < |p.functions| && DeclaredNoReturn(p.functions[j].node) && p.functions[j].ref == fn.ref;
      assert i == j;
    }
  }

  // ----- statements behind the end do not matter -----

  lemma {:induction false} BlockLonger(p: Program, s: set<string>, scope: string, n: Node, more: seq<Node>, i: nat)
    requires i <= |n.inner| && BlockEnds(p, s, scope, n, i)
    ensures BlockEnds(p, s, scope, n.(inner := n.inner + more), i)
    decreases |n.inner| - i
  {
    var longer := n.(inner := n.inner + more);
    assert longer.inner[i] == n.inner[i];
    if !Ends(p, s, scope, n.inner[i]) { BlockLonger(p, s, scope, n, more, i + 1); }
  }

  /** A block found ending is found ending with any statements behind it. */
  lemma {:induction false} EndsLonger(p: Program, s: set<string>, scope: string, n: Node, more: seq<Node>)
    requires n.kind.CompoundStmt? && Ends(p, s, scope, n)
    ensures Ends(p, s, scope, n.(inner := n.inner + more))
  {
    BlockLonger(p, s, scope, n, more, 0);
  }

  // ----- and nothing else is found -----

  /** A return or goto somewhere in it, and nothing else, makes a statement one that may leave. */
  lemma {:induction false} MayLeaveExactly(n: Node)
    ensures MayLeave(n) <==> Mentions(n, ReturnStmt) || Mentions(n, GotoStmt) || Mentions(n, IndirectGotoStmt)
  {
    forall i | 0 <= i < |n.inner|
      ensures MayLeave(n.inner[i]) <==>
              Mentions(n.inner[i], ReturnStmt) || Mentions(n.inner[i], GotoStmt)
                || Mentions(n.inner[i], IndirectGotoStmt)
    {
      MayLeaveExactly(n.inner[i]);
    }
  }

  /** No loop is found ending but one around a literal 0, no if without an else. */
  lemma {:induction false} OnlyFound(p: Program, s: set<string>, scope: string, n: Node)
    requires Ends(p, s, scope, n)
    ensures !n.kind.WhileStmt? && !n.kind.ForStmt? && !n.kind.SwitchStmt?
    ensures n.kind.DoStmt? ==>
              |n.inner| == 2 && Unwrap(n.inner[1]).kind.IntegerLiteral? && Unwrap(n.inner[1]).value == "0"
    ensures n.kind.IfStmt? ==> n.hasElse && |n.inner| >= 3
    ensures n.kind.CompoundStmt? ==> exists i :: 0 <= i < |n.inner| && Ends(p, s, scope, n.inner[i])
  {
    if n.kind.CompoundStmt? { SomeEnds(p, s, scope, n, 0); }
  }

  lemma {:induction false} SomeEnds(p: Program, s: set<string>, scope: string, n: Node, i: nat)
    requires i <= |n.inner| && BlockEnds(p, s, scope, n, i)
    ensures exists j :: 0 <= j < |n.inner| && Ends(p, s, scope, n.inner[j])
    decreases |n.inner| - i
  {
    if !Ends(p, s, scope, n.inner[i]) { SomeEnds(p, s, scope, n, i + 1); }
  }
}
