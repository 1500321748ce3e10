/** Which functions and statements never return (internal/cproject/guards.go): an in-place
    iteration that adds and retracts functions, cut off by a round bound. */
module Guards {
  import opened Ast
  import opened Execution

  /** What a named callee resolves to in its unit. */
  datatype Target = Unresolved | External | Corpus(ref: string)

  /** A corpus function: its identity, the unit it is written in and its declaration. */
  datatype Function = Function(ref: string, scope: string, node: Node)

  datatype Program = Program(functions: seq<Function>, targets: map<(string, DeclRef), Target>)

  function Resolve(p: Program, scope: string, ref: Option<DeclRef>): Target {
    if ref.Some? && (scope, ref.value) in p.targets then p.targets[(scope, ref.value)] else Unresolved
  }

  predicate DeclaredNoReturn(n: Node) {
    n.noReturn || exists i :: 0 <= i < |n.inner| && n.inner[i].kind == Attr("C11NoReturnAttr")
  }

  /** A way out of the function other than ending. */
  predicate MayLeave(n: Node) {
    n.kind.ReturnStmt? || n.kind.GotoStmt? || n.kind.IndirectGotoStmt? || exists i ::
      0 <= i < |n.inner|
      && MayLeave(n.inner[i])
  }

  predicate CallEnds(p: Program, ending: set<string>, scope: string, call: Node) {
    |call.inner| > 0 &&
    match Designator(call.inner[0])
    case None => false
    case Some(named) =>
      match Resolve(p, scope, named.ref)
      case Unresolved => false
      case External => call.inner[0].noReturn || named.noReturn
      case Corpus(ref) => ref in ending
  }

  predicate IsZero(n: Node) {
    var literal := Unwrap(n);
    literal.kind.IntegerLiteral? && literal.value == "0"
  }

  predicate DoOnce(n: Node) {
    n.kind.DoStmt? && |n.inner| == 2 && IsZero(n.inner[1])
  }

  predicate Ends(p: Program, ending: set<string>, scope: string, n: Node)
    decreases n, |n.inner| + 1
  {
    if n.kind.CompoundStmt? then BlockEnds(p, ending, scope, n, 0)
    else if n.kind.IfStmt? then
      TwoArms(n) && Ends(p, ending, scope, n.inner[|n.inner|-2]) && Ends(p, ending, scope, n.inner[|n.inner|-1])
    else if n.kind.DoStmt? then DoOnce(n) && !MayLeave(n.inner[0]) && Ends(p, ending, scope, n.inner[0])
    else var call := Unwrap(n); call.kind.CallExpr? && CallEnds(p, ending, scope, call)
  }

  predicate BlockEnds(p: Program, ending: set<string>, scope: string, n: Node, i: nat)
    requires i <= |n.inner|
    decreases n, |n.inner| - i
  {
    i < |n.inner| && !MayLeave(n.inner[i]) &&
    (Ends(p, ending, scope, n.inner[i]) || BlockEnds(p, ending, scope, n, i + 1))
  }

  predicate BodyEnds(p: Program, ending: set<string>, fn: Function) {
    exists i :: 0 <= i < |fn.node.inner| && fn.node.inner[i].kind.CompoundStmt?
      && Ends(p, ending, fn.scope, fn.node.inner[i])
  }

  // ----- the iteration -----

  function Refs(p: Program): set<string> {
    set i | 0 <= i < |p.functions| :: p.functions[i].ref
  }

  function Declared(p: Program): set<string> {
    set i | 0 <= i < |p.functions| && DeclaredNoReturn(p.functions[i].node) :: p.functions[i].ref
  }

  predicate Distinct(p: Program) {
    forall i, j :: 0 <= i < j < |p.functions| ==> p.functions[i].ref != p.functions[j].ref
  }

  /** One function reconsidered against the current set. */
  function Revise(p: Program, ending: set<string>, fn: Function): set<string> {
    if fn.ref in ending && !BodyEnds(p, ending, fn) then ending - {fn.ref}
    else if fn.ref !in ending && BodyEnds(p, ending, fn) && fn.ref !in Declared(p) then ending + {fn.ref}
    else ending
  }

  /** The first `i` functions reconsidered in turn, each against the set as it then is. */
  function Sweep(p: Program, ending: set<string>, i: nat): set<string>
    requires i <= |p.functions|
  {
    if i == 0 then ending else Revise(p, Sweep(p, ending, i - 1), p.functions[i-1])
  }

  function Rounds(p: Program, k: nat): set<string> {
    if k == 0 then Declared(p) else Sweep(p, Rounds(p, k - 1), |p.functions|)
  }

  // ----- the greatest set whose members' bodies all end under it -----

  /** The functions whose bodies end if those of `ending` never return. */
  function Under(p: Program, ending: set<string>): set<string> {
    set i | 0 <= i < |p.functions| && BodyEnds(p, ending, p.functions[i]) :: p.functions[i].ref
  }

  function Approximation(p: Program, k: nat): set<string> {
    if k == 0 then Refs(p) else Under(p, Approximation(p, k - 1))
  }

  function Greatest(p: Program): set<string> {
    Approximation(p, |p.functions|)
  }

  lemma {:induction false} EndsMonotone(p: Program, small: set<string>, large: set<string>, scope: string, n: Node)
    requires small <= large && Ends(p, small, scope, n)
    ensures Ends(p, large, scope, n)
    decreases n, |n.inner| + 1
  {
    if n.kind.CompoundStmt? {
      BlockMonotone(p, small, large, scope, n, 0);
    } else if n.kind.IfStmt? {
      EndsMonotone(p, small, large, scope, n.inner[|n.inner|-2]);
      EndsMonotone(p, small, large, scope, n.inner[|n.inner|-1]);
    } else if n.kind.DoStmt? {
      EndsMonotone(p, small, large, scope, n.inner[0]);
    }
  }

  lemma {:induction false} BlockMonotone(p: Program, small: set<string>, large: set<string>, scope: string, n: Node,
                                         i: nat)
    requires small <= large && i <= |n.inner| && BlockEnds(p, small, scope, n, i)
    ensures BlockEnds(p, large, scope, n, i)
    decreases n, |n.inner| - i
  {
    if Ends(p, small, scope, n.inner[i]) {
      EndsMonotone(p, small, large, scope, n.inner[i]);
    } else {
      BlockMonotone(p, small, large, scope, n, i + 1);
    }
  }

  lemma {:induction false} UnderMonotone(p: Program, small: set<string>, large: set<string>)
    requires small <= large
    ensures Under(p, small) <= Under(p, large)
    ensures forall fn :: BodyEnds(p, small, fn) ==> BodyEnds(p, large, fn)
  {
    forall fn | BodyEnds(p, small, fn) ensures BodyEnds(p, large, fn) {
      var i :| 0 <= i < |fn.node.inner| && fn.node.inner[i].kind.CompoundStmt?
        && Ends(p, small, fn.scope, fn.node.inner[i]);
      EndsMonotone(p, small, large, fn.scope, fn.node.inner[i]);
    }
  }

  lemma {:induction false} Descending(p: Program, k: nat)
    ensures Approximation(p, k + 1) <= Approximation(p, k)
  {
    if k > 0 {
      Descending(p, k - 1);
      UnderMonotone(p, Approximation(p, k), Approximation(p, k - 1));
    }
  }

  lemma {:induction false} Settled(p: Program, k: nat)
    requires Approximation(p, k + 1) == Approximation(p, k)
    ensures forall m :: m >= k ==> Approximation(p, m) == Approximation(p, k)
  {
    forall m | m >= k ensures Approximation(p, m) == Approximation(p, k) { SettledAt(p, k, m); }
  }

  lemma {:induction false} SettledAt(p: Program, k: nat, m: nat)
    requires Approximation(p, k + 1) == Approximation(p, k) && m >= k
    ensures Approximation(p, m) == Approximation(p, k)
    decreases m
  {
    if m > k { SettledAt(p, k, m - 1); }
  }

  /** Until it settles, every step of the approximation loses a function. */
  lemma {:induction false} Shrinking(p: Program, k: nat)
    ensures Approximation(p, k + 1) == Approximation(p, k) || |Approximation(p, k + 1)| + k + 1 <= |Refs(p)|
  {
    Descending(p, k);
    if k > 0 {
      Shrinking(p, k - 1);
      if Approximation(p, k) == Approximation(p, k - 1) { SettledAt(p, k - 1, k + 1); }
    }
    if Approximation(p, k + 1) != Approximation(p, k) {
      SmallerSubset(Approximation(p, k + 1), Approximation(p, k));
    }
  }

  lemma {:induction false} SmallerSubset(a: set<string>, b: set<string>)
    requires a < b
    ensures |a| < |b|
  {
    assert |b - a| > 0 by { var x :| x in b - a; }
    assert |b| == |a| + |b - a| by { assert b == a + (b - a); }
  }

  lemma {:induction false} FewRefs(p: Program, i: nat)
    requires i <= |p.functions|
    ensures |set j | 0 <= j < i :: p.functions[j].ref| <= i
  {
    if i > 0 {
      FewRefs(p, i - 1);
      assert (set j | 0 <= j < i :: p.functions[j].ref) == (set j | 0 <= j < i - 1 :: p.functions[j].ref)
        + {p.functions[i-1].ref};
    }
  }

  /** As many steps as there are functions reach the greatest set: it is its own image, and
      holds every set whose members' bodies end under it. */
  lemma {:induction false} GreatestIsGreatest(p: Program)
    ensures Under(p, Greatest(p)) == Greatest(p)
    ensures forall s :: s <= Under(p, s) ==> s <= Greatest(p)
  {
    var n := |p.functions|;
    FewRefs(p, n);
    Shrinking(p, n);
    assert Approximation(p, n + 1) == Approximation(p, n);
    forall s | s <= Under(p, s) ensures s <= Greatest(p) { HoldsPostfixed(p, s, n); }
  }

  lemma {:induction false} HoldsPostfixed(p: Program, s: set<string>, k: nat)
    requires s <= Under(p, s)
    ensures s <= Approximation(p, k)
  {
    if k > 0 {
      HoldsPostfixed(p, s, k - 1);
      UnderMonotone(p, s, Approximation(p, k - 1));
    }
  }

  // ----- the set the iteration leaves lies inside it -----

  lemma {:induction false} SweepInside(p: Program, ending: set<string>, k: nat, i: nat)
    requires Distinct(p) && i <= |p.functions| && ending <= Approximation(p, k)
    ensures Sweep(p, ending, i) <= Approximation(p, k)
    ensures forall j :: 0 <= j < i && p.functions[j].ref in Sweep(p, ending, i) ==>
            p.functions[j].ref in Approximation(p, k + 1)
  {
    if i > 0 {
      SweepInside(p, ending, k, i - 1);
      var before, fn := Sweep(p, ending, i - 1), p.functions[i-1];
      UnderMonotone(p, before, Approximation(p, k));
      Descending(p, k);
      if BodyEnds(p, before, fn) { assert fn.ref in Approximation(p, k + 1); }
      forall j | 0 <= j < i && p.functions[j].ref in Sweep(p, ending, i)
        ensures p.functions[j].ref in Approximation(p, k + 1)
      {
        if j < i - 1 { assert p.functions[j].ref in before; }
      }
    }
  }

  lemma {:induction false} RoundsInside(p: Program, k: nat)
    requires Distinct(p)
    ensures Rounds(p, k) <= Approximation(p, k)
  {
    if k > 0 {
      RoundsInside(p, k - 1);
      SweepInside(p, Rounds(p, k - 1), k - 1, |p.functions|);
    }
  }

  /** A round that changes nothing found every member's body ending under the set. */
  lemma {:induction false} StableSupported(p: Program, ending: set<string>, i: nat)
    requires i <= |p.functions| && ending <= Refs(p)
    requires forall j :: 0 <= j <= i ==> Sweep(p, ending, j) == ending
    ensures forall j :: 0 <= j < i && p.functions[j].ref in ending ==> BodyEnds(p, ending, p.functions[j])
  {
    if i > 0 {
      StableSupported(p, ending, i - 1);
      assert Sweep(p, ending, i) == Revise(p, Sweep(p, ending, i - 1), p.functions[i-1]);
    }
  }

  /** What the rounds can leave: a set no step of a round changes, or one reached past the bound. */
  ghost predicate Left(p: Program, ending: set<string>) {
    exists k :: LeftAfter(p, ending, k)
  }

  ghost predicate LeftAfter(p: Program, ending: set<string>, k: nat) {
    ending == Rounds(p, k) && (k > |p.functions| || forall j :: 0 <= j <= |p.functions| ==>
      Sweep(p, ending, j) == ending)
  }

  /** Whether the rounds stop because nothing changed or because the bound cut them off, and
      for every order of the functions, what they leave lies inside the greatest set. */
  lemma {:induction false} LeftInsideGreatest(p: Program, ending: set<string>)
    requires Distinct(p) && Left(p, ending)
    ensures ending <= Greatest(p)
  {
    var k: nat :| LeftAfter(p, ending, k);
    var n := |p.functions|;
    RoundsInside(p, k);
    GreatestIsGreatest(p);
    if k > n {
      SettledAt(p, n, k);
    } else {
      WithinRefs(p, k);
      StableSupported(p, ending, n);
      assert ending <= Under(p, ending);
    }
  }

  lemma {:induction false} WithinRefs(p: Program, k: nat)
    ensures Approximation(p, k) <= Refs(p)
  {
  }
}
