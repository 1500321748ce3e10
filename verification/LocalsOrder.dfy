/** What the source's tests of evaluation order say (internal/cproject/locals.go:181-320), measured by the
    ways control can take through a node, whatever its children do: which child is always run, which runs
    ahead of which, which can run again. */
module LocalsOrder {
  import opened Ast
  import opened Execution
  import opened LocalsRules
  import LocalsFollow

  /** As many children as clang prints. */
  predicate Sized(n: Node) {
    && (n.kind.BinaryOperator? || n.kind.WhileStmt? || n.kind.DoStmt? ==> |n.inner| == 2)
    && (n.kind.ConditionalOperator? ==> |n.inner| == 3)
    && (n.kind.ForStmt? ==> |n.inner| == 5)
  }

  predicate AllSized(n: Node) {
    Sized(n) && forall i :: 0 <= i < |n.inner| ==> AllSized(n.inner[i])
  }

  /** A way through the node to its end. */
  predicate Completed(n: Node, r: Run) {
    && Control(n, r)
    && if Ordered(n) then r.out == Normal
       else r.out == Completion(n) && forall k :: 0 <= k < |r.steps| ==> r.steps[k].run.out == Normal
  }

  const DONE := Run([], None, Normal)

  /** The child has run whenever the node was run to its end. */
  ghost predicate AlwaysRuns(n: Node, i: nat) {
    forall r :: Completed(n, r) ==> Ran(r.steps, i)
  }

  predicate RanBefore(s: seq<Step>, k: nat, w: nat) {
    exists j :: 0 <= j < k && j < |s| && s[j].child == w
  }

  /** Whenever the child `r` begins, the child `w` has run. */
  ghost predicate Ahead(n: Node, w: nat, r: nat) {
    forall run, k: nat :: Control(n, run) && k < |run.steps| && run.steps[k].child == r ==> RanBefore(run.steps, k, w)
  }

  /** Some way through the node runs the child. */
  ghost predicate Entered(n: Node, i: nat) {
    exists run, k: nat :: Control(n, run) && k < |run.steps| && run.steps[k].child == i
  }

  predicate RanTwice(s: seq<Step>, i: nat) {
    exists j, k :: 0 <= j < k < |s| && s[j].child == i && s[k].child == i
  }

  /** Some way through the node runs the child again. */
  ghost predicate Twice(n: Node, i: nat) {
    exists run :: Control(n, run) && RanTwice(run.steps, i)
  }

  // ----- children that always run -----

  /** A way to the end that leaves out a child. */
  function Around(n: Node, i: nat): Run {
    var c := |n.inner|;
    if !Ordered(n) then Run([], None, Completion(n))
    else if n.kind.DoStmt? then Run([Step(0, Run([], None, Break))], None, Normal)
    else if n.kind.WhileStmt? then Run([Step(0, DONE)], None, Normal)
    else if n.kind.ForStmt? then Run([Step(0, DONE), Step(2, DONE)], None, Normal)
    else if n.kind.ConditionalOperator? then Run([Step(0, DONE), Step(if i == 1 then 2 else 1, DONE)], None, Normal)
    else if n.kind.IfStmt? && TwoArms(n) then
      Run([Step(0, DONE), Step(if i == c - 2 then c - 1 else c - 2, DONE)], None, Normal)
    else Run([Step(0, DONE)], None, Normal)
  }

  lemma {:induction false} AroundLeavesOut(n: Node, i: nat)
    requires Sized(n) && i < |n.inner| && !n.kind.SwitchStmt? && !AlwaysEvaluates(n, i)
    ensures Completed(n, Around(n, i)) && !Ran(Around(n, i).steps, i)
  {
  }

  lemma {:induction false} TurnChild(n: Node, r: Run, k: nat)
    requires Control(n, r) && InTurn(n) && k < |r.steps|
    ensures r.steps[k].child == k
  {
    if k > 0 {
      TurnChild(n, r, k - 1);
      assert Goes(n, r.steps[k-1].child, r.steps[k-1].run.out, r.steps[k].child);
    }
  }

  lemma {:induction false} AlwaysRan(n: Node, i: nat, r: Run)
    requires Sized(n) && Operand(n, i) && !n.kind.SwitchStmt? && AlwaysEvaluates(n, i) && Completed(n, r)
    ensures Ran(r.steps, i)
  {
    if InTurn(n) {
      TurnChild(n, r, |r.steps| - 1);
      TurnChild(n, r, i);
    } else if Ordered(n) {
      assert Starts(n, r.steps[0].child);
      if n.kind.ForStmt? {
        assert |r.steps| > 1 && Goes(n, r.steps[0].child, r.steps[0].run.out, r.steps[1].child);
      }
    }
  }

  /** A child is found always evaluated exactly when it runs whenever its node is run to its end. */
  lemma {:induction false} AlwaysExactly(n: Node, i: nat)
    requires Sized(n) && Operand(n, i) && !n.kind.SwitchStmt?
    ensures AlwaysEvaluates(n, i) <==> AlwaysRuns(n, i)
  {
    if AlwaysEvaluates(n, i) {
      forall r | Completed(n, r) ensures Ran(r.steps, i) { AlwaysRan(n, i, r); }
    } else {
      AroundLeavesOut(n, i);
    }
  }

  // ----- children that run ahead of others -----

  /** What the source leaves out: declarators and labels, and that a for statement's body runs ahead of its
      increment. */
  predicate Overlooked(n: Node, w: nat, r: nat) {
    || n.kind.DeclStmt? || n.kind.LabelStmt? || n.kind.CaseStmt? || n.kind.DefaultStmt?
    || (n.kind.ForStmt? && w == 4 && r == 3)
  }

  function Walk(children: seq<nat>): Run {
    Run(seq(|children|, k requires 0 <= k < |children| => Step(children[k], DONE)), None, Cut)
  }

  /** A way to the child `r` that has not run `w`. */
  function Towards(n: Node, r: nat): Run {
    if InTurn(n) then Walk(seq(r + 1, k => k))
    else if n.kind.ForStmt? then Walk(if r == 0 then [0] else if r == 2 then [0, 2] else if r == 4 then [0, 2, 4]
      else [0, 2, 4, 3])
    else if Ordered(n) && r != 0 then Walk([0, r])
    else Walk([r])
  }

  ghost predicate Leads(n: Node, w: nat, r: nat) {
    var run := Towards(n, r);
    Control(n, run) && run.steps != [] && run.steps[|run.steps|-1].child == r
    && !RanBefore(run.steps, |run.steps| - 1, w)
  }

  lemma {:induction false} TowardsInFor(n: Node, w: nat, r: nat)
    requires n.kind.ForStmt? && |n.inner| == 5 && w != r && r in {0, 2, 3, 4}
    requires !EvaluatedBefore(n, w, r) && !Overlooked(n, w, r)
    ensures Leads(n, w, r)
  {
  }

  lemma {:induction false} TowardsThere(n: Node, w: nat, r: nat)
    requires Sized(n) && w != r && w < |n.inner| && r < |n.inner| && !n.kind.SwitchStmt? && Entered(n, r)
    requires !EvaluatedBefore(n, w, r) && !Overlooked(n, w, r)
    ensures Leads(n, w, r)
  {
    var run, k: nat :| Control(n, run) && k < |run.steps| && run.steps[k].child == r;
    if Ordered(n) {
      assert k == 0 ==> Starts(n, r);
      assert k > 0 ==> Goes(n, run.steps[k-1].child, run.steps[k-1].run.out, r);
      if n.kind.ForStmt? { TowardsInFor(n, w, r); }
    }
  }

  lemma {:induction false} RunsAhead(n: Node, w: nat, r: nat, run: Run, k: nat)
    requires Sized(n) && EvaluatedBefore(n, w, r) && !n.kind.SwitchStmt?
    requires Control(n, run) && k < |run.steps| && run.steps[k].child == r
    ensures RanBefore(run.steps, k, w)
  {
    var s := run.steps;
    if InTurn(n) {
      TurnChild(n, run, k);
      TurnChild(n, run, w);
    } else {
      assert Starts(n, s[0].child) && k > 0 && Goes(n, s[k-1].child, s[k-1].run.out, r);
      if n.kind.ForStmt? && k > 1 {
        assert Goes(n, s[k-2].child, s[k-2].run.out, s[k-1].child);
      }
    }
  }

  /** Of two children one is found evaluated before the other exactly when it has run whenever the other
      begins, but for what the source leaves out. */
  lemma {:induction false} BeforeExactly(n: Node, w: nat, r: nat)
    requires Sized(n) && w != r && w < |n.inner| && r < |n.inner| && !n.kind.SwitchStmt? && Entered(n, r)
    ensures EvaluatedBefore(n, w, r) <==> Ahead(n, w, r) && !Overlooked(n, w, r)
  {
    if EvaluatedBefore(n, w, r) {
      forall run, k: nat | Control(n, run) && k < |run.steps| && run.steps[k].child == r
        ensures RanBefore(run.steps, k, w)
      {
        RunsAhead(n, w, r, run, k);
      }
    } else if !Overlooked(n, w, r) {
      TowardsThere(n, w, r);
    }
  }

  // ----- children that can run again -----

  /** Two rounds of a loop. */
  function Rounds(n: Node): Run {
    Walk(if n.kind.ForStmt? then [0, 2, 4, 3, 2, 4, 3] else [0, 1, 0, 1])
  }

  lemma {:induction false} RoundsAgain(n: Node, i: nat)
    requires Sized(n) && Repeated(n, i)
    ensures Control(n, Rounds(n)) && RanTwice(Rounds(n).steps, i)
  {
    var s := Rounds(n).steps;
    if n.kind.ForStmt? {
      assert s[1].child == 2 && s[4].child == 2 && s[2].child == 4 && s[5].child == 4 && s[3].child == 3
             && s[6].child == 3;
    } else {
      assert s[0].child == 0 && s[2].child == 0 && s[1].child == 1 && s[3].child == 1;
    }
  }

  lemma {:induction false} OnlyOnce(n: Node, i: nat, run: Run, j: nat, k: nat)
    requires Sized(n) && i < |n.inner| && Control(n, run)
    requires j < k < |run.steps| && run.steps[j].child == i && run.steps[k].child == i
    ensures Repeated(n, i)
  {
    var s := run.steps;
    if InTurn(n) {
      TurnChild(n, run, j);
      TurnChild(n, run, k);
    } else if Ordered(n) {
      assert Goes(n, s[k-1].child, s[k-1].run.out, i);
      if k > 1 { assert Goes(n, s[k-2].child, s[k-2].run.out, s[k-1].child); }
      assert j == 0 ==> Starts(n, i);
      if j > 0 { assert Goes(n, s[j-1].child, s[j-1].run.out, i); }
    }
  }

  /** A child is found to be in the part a loop repeats exactly when it can run again. */
  lemma {:induction false} RepeatedExactly(n: Node, i: nat)
    requires Sized(n) && i < |n.inner|
    ensures Repeated(n, i) <==> Twice(n, i)
  {
    if Repeated(n, i) {
      RoundsAgain(n, i);
    } else if Twice(n, i) {
      var run :| Control(n, run) && RanTwice(run.steps, i);
      var j, k :| 0 <= j < k < |run.steps| && run.steps[j].child == i && run.steps[k].child == i;
      OnlyOnce(n, i, run, j, k);
    }
  }

  // ----- on the tree -----

  lemma {:induction false} SizedAt(f: Node, p: Path)
    requires AllSized(f) && HasNode(f, p)
    ensures AllSized(At(f, p))
    decreases |p|
  {
    if p != [] { SizedAt(f.inner[p[0]], p[1..]); }
  }

  /** Control comes to the child with the node; of a switch only its condition is followed. */
  ghost predicate Sure(n: Node, i: nat) {
    if n.kind.SwitchStmt? then i == 0 else (AssignsLocal(n) && i == 0) || AlwaysRuns(n, i)
  }

  ghost predicate SureAhead(n: Node, w: nat, r: nat) {
    if n.kind.SwitchStmt? then w == 0 else Ahead(n, w, r) && !Overlooked(n, w, r)
  }

  /** Where the ways part the write's side runs ahead, and control comes down to the write. */
  ghost predicate Certain(f: Node, w: Path, r: Path, k: nat)
    requires HasNode(f, w) && Fork(w, r) < k <= |w| && Fork(w, r) < |r|
  {
    var m := Fork(w, r);
    && SureAhead(HasPrefix2(f, w, m), w[m], r[m])
    && forall j :: m < j < k ==> Sure(HasPrefix2(f, w, j), w[j])
  }

  /** The read's side can run. */
  ghost predicate Reads(f: Node, w: Path, r: Path)
    requires HasNode(f, w) && Fork(w, r) < |r|
  {
    var n := HasPrefix2(f, w, Fork(w, r));
    n.kind.SwitchStmt? || Entered(n, r[Fork(w, r)])
  }

  lemma {:induction false} PrefixChild(f: Node, w: Path, k: nat)
    requires HasNode(f, w) && k < |w|
    ensures w[k] < |HasPrefix2(f, w, k).inner|
  {
    HasPrefix(f, w, k);
    HasPrefix(f, w, k + 1);
    assert w[..k+1] == w[..k] + [w[k]];
    AtExtend(f, w[..k], w[k]);
  }

  lemma {:induction false} SureExactly(n: Node, i: nat)
    requires Sized(n) && i < |n.inner|
    ensures AlwaysEvaluates(n, i) <==> Sure(n, i)
  {
    if !n.kind.SwitchStmt? && Operand(n, i) { AlwaysExactly(n, i); }
  }

  lemma {:induction false} ClimbExactly(f: Node, w: Path, r: Path, k: nat)
    requires AllSized(f) && HasNode(f, w) && HasNode(f, r) && Fork(w, r) < |r| && Fork(w, r) < k <= |w|
    requires Reads(f, w, r) && HasNode(f, w[..k])
    ensures DominatesUp(f, w[..k], r) <==> Certain(f, w, r, k)
  {
    var m, child := Fork(w, r), w[..k];
    var parent := child[..k-1];
    assert parent == w[..k-1] && child[k-1] == w[k-1];
    HasPrefix(f, w, k - 1);
    SizedAt(f, parent);
    PrefixChild(f, w, k - 1);
    if k - 1 == m {
      assert parent == r[..m] && parent <= r;
      PrefixChild(f, r, m);
      if !At(f, parent).kind.SwitchStmt? { BeforeExactly(At(f, parent), w[m], r[m]); }
    } else {
      assert parent[m] == w[m] != r[m] && !(parent <= r);
      SureExactly(At(f, parent), w[k-1]);
      ClimbExactly(f, w, r, k - 1);
    }
  }

  predicate JumpsTo(n: Node) {
    n.kind in {LabelStmt, CaseStmt, DefaultStmt}
  }

  /** The write declares the variable, or nothing a jump could enter by stands between the two and control
      comes to the write whenever it comes to the read. */
  ghost predicate Settles(f: Node, w: Path, r: Path)
    requires HasNode(f, w) && Fork(w, r) < |r| && Fork(w, r) < |w|
  {
    || At(f, w).kind == VarDecl
    || (Certain(f, w, r, |w|) && forall l :: Indexed(f, l) && Before(w, l) && Before(l, r) ==> !JumpsTo(At(f, l)))
  }

  lemma {:induction false} DominatesExactly(f: Node, w: Path, r: Path)
    requires AllSized(f) && HasNode(f, w) && HasNode(f, r) && Fork(w, r) < |r| && Fork(w, r) < |w| && Reads(f, w, r)
    ensures Dominates(f, w, r) <==> Settles(f, w, r)
  {
    assert w[..|w|] == w;
    ClimbExactly(f, w, r, |w|);
  }

  /** A write that stands before the read and not around it. */
  ghost predicate Earlier(f: Node, x: string, w: Path, r: Path) {
    IsWrite(f, x, w) && Before(w, r) && !(w <= r)
  }

  lemma {:induction false} ForkBetween(w: Path, r: Path)
    requires Before(w, r) && !(w <= r)
    ensures Fork(w, r) < |w| && Fork(w, r) < |r|
    decreases |w|
  {
    if w[0] == r[0] {
      assert w == [w[0]] + w[1..] && r == [r[0]] + r[1..];
      ForkBetween(w[1..], r[1..]);
    }
  }

  /** The chosen write is the last of those before the read that settle what it finds; none is chosen only
      if there is none. */
  lemma {:induction false} ChosenExactly(f: Node, x: string, r: Path, d: Option<Path>, w: Path)
    requires AllSized(f) && HasNode(f, r) && LocalsFollow.Chosen(f, x, r, d) && Earlier(f, x, w, r)
    requires Fork(w, r) < |r| ==> Reads(f, w, r)
    ensures Fork(w, r) < |w| && Fork(w, r) < |r|
    ensures Settles(f, w, r) ==> d.Some? && (w == d.value || Before(w, d.value))
    ensures d == Some(w) ==> Settles(f, w, r)
  {
    ForkBetween(w, r);
    DominatesExactly(f, w, r);
    if Settles(f, w, r) { assert Candidate(f, x, r, w); }
  }

  /** The node at `l` holds what `q` names in a part that can run again. */
  ghost predicate Again(f: Node, l: Path, q: Path)
    requires HasNode(f, l)
  {
    |l| < |q| && l <= q && Twice(At(f, l), q[|l|])
  }

  /** Some node around both can run the write and the read again, and not the dominating write. */
  ghost predicate ComesBack(f: Node, w: Path, r: Path, d: Option<Path>) {
    exists l :: HasNode(f, l) && Again(f, l, r) && Again(f, l, w) && (d.None? || !Again(f, l, d.value))
  }

  lemma {:induction false} AgainExactly(f: Node, l: Path, q: Path)
    requires AllSized(f) && HasNode(f, l) && HasNode(f, q)
    ensures Inside(f, l, q) <==> Again(f, l, q)
  {
    if |l| < |q| && l <= q {
      assert q[..|l|] == l;
      SizedAt(f, l);
      PrefixChild(f, q, |l|);
      RepeatedExactly(At(f, l), q[|l|]);
    }
  }

  lemma {:induction false} BackEdgeExactly(f: Node, w: Path, r: Path, d: Option<Path>)
    requires AllSized(f) && HasNode(f, w) && HasNode(f, r) && (d.Some? ==> HasNode(f, d.value))
    ensures BackEdge(f, w, r, d) <==> ComesBack(f, w, r, d)
  {
    forall l | HasNode(f, l)
      ensures Inside(f, l, r) <==> Again(f, l, r)
      ensures Inside(f, l, w) <==> Again(f, l, w)
      ensures d.Some? ==> (Inside(f, l, d.value) <==> Again(f, l, d.value))
    {
      AgainExactly(f, l, r);
      AgainExactly(f, l, w);
      if d.Some? { AgainExactly(f, l, d.value); }
    }
    if BackEdge(f, w, r, d) {
      var k :| 0 <= k < |r| && BackEdgeAt(f, w, r, d, k);
      HasPrefix(f, r, k);
      assert Again(f, r[..k], r);
    } else if ComesBack(f, w, r, d) {
      var l :| HasNode(f, l) && Again(f, l, r) && Again(f, l, w) && (d.None? || !Again(f, l, d.value));
      assert r[..|l|] == l && BackEdgeAt(f, w, r, d, |l|);
    }
  }

  /** An answer lists the dominating write, those written between it and the read, and those written
      behind the read that control can bring back to it without the dominating one; no others. */
  lemma {:induction false} ListedExactly(f: Node, x: string, r: Path, d: Option<Path>, a: LocalsFollow.Reaching,
                                       w: Path)
    requires AllSized(f) && HasNode(f, r) && LocalsFollow.Answers(f, x, r, d, a) && (d.Some? ==> IsWrite(f, x, d.value))
    ensures LocalsFollow.Listed(a.writes, w) <==>
            && IsWrite(f, x, w) && !(w <= r)
            && (|| d == Some(w)
                || (Before(w, r) && !(d.Some? && (Before(w, d.value) || w == d.value)))
                || (Before(r, w) && ComesBack(f, w, r, d)))
  {
    if IsWrite(f, x, w) {
      BackEdgeExactly(f, w, r, d);
      if d.Some? {
        BeforeTotal(w, d.value);
        if Before(w, d.value) && Before(d.value, w) {
          BeforeTransitive(w, d.value, w);
          BeforeIrreflexive(w);
        }
        BeforeIrreflexive(w);
      }
    }
  }
}
