/** Reaching writes: what a run can leave in a local at a read is among the writes the rules
    collect there. */
module LocalsSound {
  import opened Ast
  import opened Execution
  import opened LocalsRules

  /** Every operand is evaluated along the way down to `u`. */
  predicate AlwaysChain(n: Node, u: Path)
    requires HasNode(n, u)
    decreases |u|
  {
    u == [] || (AlwaysEvaluates(n, u[0]) && AlwaysChain(n.inner[u[0]], u[1..]))
  }

  /** `v` is a write at or below the node `n` at `p`. */
  ghost predicate Wrote(n: Node, x: string, p: Path, v: Option<Path>) {
    v.Some? && p <= v.value && IsWriteBelow(n, x, v.value[|p|..])
  }

  ghost predicate IsWriteBelow(n: Node, x: string, u: Path)
    decreases |u|
  {
    if u == [] then WritesLocal(n, x)
    else u[0] < |n.inner| && !Inert(n) && IsWriteBelow(n.inner[u[0]], x, u[1..])
  }

  lemma {:induction false} WroteUp(n: Node, x: string, p: Path, c: nat, v: Option<Path>)
    requires c < |n.inner| && !Inert(n) && Wrote(n.inner[c], x, p + [c], v)
    ensures Wrote(n, x, p, v)
  {
    var w := v.value;
    assert w[|p|..][1..] == w[|p + [c]|..];
    assert w[|p|] == (p + [c])[|p|];
  }

  /** Running a node leaves the variable alone or writes it at a place below the node. */
  lemma {:induction false} AfterWithin(n: Node, x: string, p: Path, r: Run, last: Option<Path>)
    requires Runs(n, r)
    ensures After(n, x, p, r, last) == last || Wrote(n, x, p, After(n, x, p, r, last))
    decreases r, |r.steps| + 1
  {
    if !(r.out == Normal && WritesLocal(n, x)) {
      AfterStepsWithin(n, x, p, r, |r.steps|, last);
    } else {
      assert p[|p|..] == [];
    }
  }

  lemma {:induction false} AfterStepsWithin(n: Node, x: string, p: Path, r: Run, k: nat, last: Option<Path>)
    requires Runs(n, r) && k <= |r.steps|
    ensures AfterSteps(n, x, p, r, k, last) == last || Wrote(n, x, p, AfterSteps(n, x, p, r, k, last))
    decreases r, k
  {
    if k > 0 {
      AfterStepsWithin(n, x, p, r, k - 1, last);
      var c := r.steps[k-1].child;
      var before := AfterSteps(n, x, p, r, k - 1, last);
      AfterWithin(n.inner[c], x, p + [c], r.steps[k-1].run, before);
      if After(n.inner[c], x, p + [c], r.steps[k-1].run, before) != before {
        WroteUp(n, x, p, c, After(n.inner[c], x, p + [c], r.steps[k-1].run, before));
      }
    }
  }

  /** What the steps from `k` to `t` leave satisfies `good` if what they started from did and
      every write one of them could have made does. */
  lemma {:induction false} StepsHold(n: Node, x: string, p: Path, r: Run, k: nat, t: nat, last: Option<Path>,
                                     good: Option<Path> -> bool)
    requires Runs(n, r) && k <= t <= |r.steps|
    requires good(AfterSteps(n, x, p, r, k, last))
    requires forall j, w :: k <= j < t && Wrote(n.inner[r.steps[j].child], x, p + [r.steps[j].child], Some(w)) ==>
             good(Some(w))
    ensures good(AfterSteps(n, x, p, r, t, last))
    decreases t
  {
    if t > k {
      StepsHold(n, x, p, r, k, t - 1, last, good);
      var c := r.steps[t-1].child;
      var before := AfterSteps(n, x, p, r, t - 1, last);
      AfterWithin(n.inner[c], x, p + [c], r.steps[t-1].run, before);
      var v := After(n.inner[c], x, p + [c], r.steps[t-1].run, before);
      assert v == before || v == Some(v.value);
    }
  }

  lemma {:induction false} WroteHolds(n: Node, x: string, u: Path)
    requires IsWriteBelow(n, x, u)
    ensures HoldsWrite(n, x)
    decreases |u|
  {
    if u != [] { WroteHolds(n.inner[u[0]], x, u[1..]); }
  }

  lemma {:induction false} HoldsMentions(n: Node, x: string)
    requires HoldsWrite(n, x)
    ensures MentionsLocal(n, x)
  {
    if !WritesLocal(n, x) {
      var i :| 0 <= i < |n.inner| && HoldsWrite(n.inner[i], x);
      HoldsMentions(n.inner[i], x);
    }
  }

  /** Paths that part at `p`, by the children they take. */
  lemma {:induction false} PartBefore(p: Path, a: nat, b: nat, v: Path, w: Path)
    requires p + [a] <= v && p + [b] <= w && a < b
    ensures Before(v, w)
  {
    assert v == p + v[|p|..] && w == p + w[|p|..];
    BeforeBelow(p, v[|p|..], w[|p|..]);
  }

  /** A left side that names a variable writes nothing. */
  lemma {:induction false} NamesOnly(n: Node, x: string)
    requires Shaped(n) && LocalRef(n).Some?
    ensures !HoldsWrite(n, x)
  {
    if (n.kind.ImplicitCastExpr? || n.kind.CStyleCastExpr? || n.kind.ParenExpr? || n.kind.ConstantExpr?)
      && |n.inner| > 0 {
      NamesOnly(n.inner[0], x);
    }
  }

  /** A node left normally, or left early by nothing that stands before `u`, ran the child
      on the way to `u`. */
  lemma {:induction false} ChainRan(n: Node, r: Run, u: Path)
    requires Runs(n, r) && HasNode(n, u) && u != [] && !n.kind.SwitchStmt?
    requires AlwaysEvaluates(n, u[0]) && !(AssignsLocal(n) && u[0] == 0)
    requires r.out == Normal || ((r.out.Break? || r.out.Continue?) && NoEscapeBefore(n, u))
    ensures Ran(r.steps, u[0])
  {
    if InTurn(n) {
      TurnRan(n, r, u);
    } else if Ordered(n) {
      BranchRan(n, r, u[0]);
    } else {
      OperandRan(n, r, u);
    }
  }

  lemma {:induction false} OperandRan(n: Node, r: Run, u: Path)
    requires Runs(n, r) && HasNode(n, u) && u != [] && !n.kind.SwitchStmt? && !Ordered(n)
    requires AlwaysEvaluates(n, u[0]) && !(AssignsLocal(n) && u[0] == 0)
    requires r.out == Normal || ((r.out.Break? || r.out.Continue?) && NoEscapeBefore(n, u))
    ensures Ran(r.steps, u[0])
  {
    if r.out != Normal {
      var last := r.steps[|r.steps|-1];
      if last.child != u[0] { EscapeOutcome(n.inner[last.child], last.run); }
    } else {
      assert Evaluates(n, u[0]);
    }
  }

  lemma {:induction false} TurnRan(n: Node, r: Run, u: Path)
    requires Runs(n, r) && HasNode(n, u) && u != [] && InTurn(n)
    requires r.out == Normal || ((r.out.Break? || r.out.Continue?) && NoEscapeBefore(n, u))
    ensures Ran(r.steps, u[0])
  {
    LastTurn(n, r);
    var m := |r.steps| - 1;
    if r.out != Normal && m < u[0] { EscapeOutcome(n.inner[m], r.steps[m].run); }
    TurnSteps(n, r, u[0]);
    assert r.steps[u[0]].child == u[0];
  }

  lemma {:induction false} LastTurn(n: Node, r: Run)
    requires Runs(n, r) && InTurn(n) && n.inner != []
    requires r.out == Normal || r.out.Break? || r.out.Continue?
    ensures r.steps != [] && r.steps[|r.steps|-1].child == |r.steps| - 1
    ensures r.out == Normal ==> |r.steps| == |n.inner|
    ensures r.out != Normal ==> r.steps[|r.steps|-1].run.out == r.out
  {
    TurnSteps(n, r, |r.steps| - 1);
  }

  lemma {:induction false} BranchRan(n: Node, r: Run, a: nat)
    requires Control(n, r) && Ordered(n) && !InTurn(n) && AlwaysEvaluates(n, a)
    requires r.out == Normal || r.out.Break? || r.out.Continue?
    ensures Ran(r.steps, a)
  {
    var s := r.steps;
    if n.kind.ForStmt? && a == 2 {
      assert Goes(n, s[0].child, s[0].run.out, s[1].child);
      assert s[1].child == a;
    } else {
      assert s[0].child == a;
    }
  }

  /** Its last run of that child was left the same way. */
  lemma {:induction false} ChainOutcome(n: Node, r: Run, u: Path, k: nat)
    requires Runs(n, r) && HasNode(n, u) && u != [] && DoClosed(n, u)
    requires AlwaysEvaluates(n, u[0])
    requires k < |r.steps| && r.steps[k].child == u[0]
    requires r.out == Normal || ((r.out.Break? || r.out.Continue?) && NoEscapeBefore(n, u))
    ensures r.steps[k].run.out == Normal
            || ((r.steps[k].run.out.Break? || r.steps[k].run.out.Continue?) && NoEscapeBefore(n.inner[u[0]], u[1..]))
  {
    if k + 1 < |r.steps| && Ordered(n) {
      var j := k + 1;
      assert Goes(n, r.steps[j-1].child, r.steps[j-1].run.out, r.steps[j].child);
    }
  }

  /** What runs after the last run of that child and writes the variable stands after it. */
  lemma {:induction false} LaterChild(n: Node, x: string, r: Run, a: nat, k: nat, t: nat)
    requires Runs(n, r) && AlwaysEvaluates(n, a) && Sequenced(n, x) && Shaped(n)
    requires k < t < |r.steps| && r.steps[k].child == a
    requires forall j :: k < j < |r.steps| ==> r.steps[j].child != a
    requires HoldsWrite(n.inner[a], x) && HoldsWrite(n.inner[r.steps[t].child], x)
    ensures a < r.steps[t].child
  {
    var c := r.steps[t].child;
    if !Ordered(n) {
      HoldsMentions(n.inner[c], x);
      assert Operand(n, a) && Operand(n, c);
    } else if InTurn(n) {
      TurnSteps(n, r, k);
      TurnSteps(n, r, t);
    } else {
      assert Goes(n, r.steps[t-1].child, r.steps[t-1].run.out, c);
    }
  }

  /** Either the write at `u` itself or one that stands after it below `n`. */
  ghost predicate Kept(n: Node, x: string, p: Path, u: Path, v: Option<Path>) {
    v.Some? && (v.value == p + u || (Before(p + u, v.value) && Wrote(n, x, p, v)))
  }

  /** No node strictly above `u` writes the variable. */
  predicate Bare(n: Node, x: string, u: Path)
    requires HasNode(n, u)
    decreases |u|
  {
    u == [] || (!WritesLocal(n, x) && Bare(n.inner[u[0]], x, u[1..]))
  }

  /** Whatever the variable held, a run that takes the chain to the write at `u` leaves it,
      or a write that stands after it. */
  lemma {:induction false} AfterChain(n: Node, x: string, p: Path, u: Path, r: Run, last: Option<Path>)
    requires Runs(n, r) && HasNode(n, u) && IsWriteBelow(n, x, u)
    requires AlwaysChain(n, u) && DoClosed(n, u) && Bare(n, x, u)
    requires Sequenced(n, x) && Shaped(n) && !Mentions(n, SwitchStmt)
    requires r.out == Normal || ((r.out.Break? || r.out.Continue?) && NoEscapeBefore(n, u))
    ensures Kept(n, x, p, u, After(n, x, p, r, last))
    decreases r, |r.steps| + 1
  {
    if u == [] {
      assert p + u == p;
      if r.out != Normal { EscapeOutcome(n, r); }
    } else {
      var a := u[0];
      if AssignsLocal(n) && a == 0 { WroteHolds(n.inner[a], x, u[1..]); NamesOnly(n.inner[0], x); }
      ChainRan(n, r, u);
      var k := LastStep(r.steps, a, |r.steps|);
      ChainOutcome(n, r, u, k);
      var before := AfterSteps(n, x, p, r, k, last);
      AfterChain(n.inner[a], x, p + [a], u[1..], r.steps[k].run, before);
      KeptUp(n, x, p, u, After(n.inner[a], x, p + [a], r.steps[k].run, before));
      KeptOn(n, x, p, u, r, k, last);
    }
  }

  lemma {:induction false} KeptUp(n: Node, x: string, p: Path, u: Path, v: Option<Path>)
    requires u != [] && u[0] < |n.inner| && !Inert(n)
    requires Kept(n.inner[u[0]], x, p + [u[0]], u[1..], v)
    ensures Kept(n, x, p, u, v)
  {
    assert p + [u[0]] + u[1..] == p + u;
    if v.value != p + u { WroteUp(n, x, p, u[0], v); }
  }

  /** The last step below `m` that runs child `a`. */
  lemma {:induction false} LastStep(s: seq<Step>, a: nat, m: nat) returns (k: nat)
    requires m <= |s| && exists k :: 0 <= k < m && s[k].child == a
    ensures k < m && s[k].child == a
    ensures forall j :: k < j < m ==> s[j].child != a
  {
    if s[m-1].child == a { k := m - 1; } else { k := LastStep(s, a, m - 1); }
  }

  lemma {:induction false} KeptOn(n: Node, x: string, p: Path, u: Path, r: Run, k: nat, last: Option<Path>)
    requires Runs(n, r) && HasNode(n, u) && u != [] && IsWriteBelow(n, x, u)
    requires AlwaysEvaluates(n, u[0]) && Sequenced(n, x) && Shaped(n)
    requires k < |r.steps| && r.steps[k].child == u[0]
    requires forall j :: k < j < |r.steps| ==> r.steps[j].child != u[0]
    requires Kept(n, x, p, u, AfterSteps(n, x, p, r, k + 1, last))
    ensures Kept(n, x, p, u, AfterSteps(n, x, p, r, |r.steps|, last))
  {
    WroteHolds(n.inner[u[0]], x, u[1..]);
    forall j, w | k + 1 <= j < |r.steps| && Wrote(n.inner[r.steps[j].child], x, p + [r.steps[j].child], Some(w))
      ensures Kept(n, x, p, u, Some(w))
    {
      var c := r.steps[j].child;
      WroteHolds(n.inner[c], x, w[|p + [c]|..]);
      LaterChild(n, x, r, u[0], k, j);
      KeptNext(n, x, p, u, c, Some(w));
    }
    StepsHold(n, x, p, r, k + 1, |r.steps|, last, v => Kept(n, x, p, u, v));
  }

  lemma {:induction false} KeptNext(n: Node, x: string, p: Path, u: Path, c: nat, v: Option<Path>)
    requires u != [] && u[0] < c < |n.inner| && !Inert(n)
    requires Wrote(n.inner[c], x, p + [c], v)
    ensures Kept(n, x, p, u, v)
  {
    assert p + [u[0]] <= p + u;
    PartBefore(p, u[0], c, p + u, v.value);
    WroteUp(n, x, p, c, v);
  }

  // ----- from the node at a path to the node's own facts -----

  lemma {:induction false} SubTree(f: Node, x: string, p: Path)
    requires HasNode(f, p) && Sequenced(f, x) && Shaped(f) && !Mentions(f, SwitchStmt)
    ensures Sequenced(At(f, p), x) && Shaped(At(f, p)) && !Mentions(At(f, p), SwitchStmt)
    decreases |p|
  {
    if p != [] { SubTree(f.inner[p[0]], x, p[1..]); }
  }

  /** A write below an indexed node is a write of the function. */
  lemma {:induction false} WroteIsWrite(f: Node, x: string, p: Path, u: Path)
    requires p != [] && Indexed(f, p) && IsWriteBelow(At(f, p), x, u)
    ensures IsWrite(f, x, p + u)
    decreases |u|
  {
    if u == [] {
      assert p + u == p;
    } else {
      AtExtend(f, p, u[0]);
      var next := p + [u[0]];
      forall k | 0 < k < |next| ensures Enters(f, next, k) {
        assert next[..k] == p[..k];
        if k < |p| { assert Enters(f, p, k); } else { assert p[..k] == p; }
      }
      WroteIsWrite(f, x, next, u[1..]);
      assert next + u[1..] == p + u;
    }
  }

  lemma {:induction false} WriteBelow(f: Node, x: string, p: Path, u: Path)
    requires p != [] && HasNode(f, p) && IsWrite(f, x, p + u)
    ensures HasNode(At(f, p), u) && IsWriteBelow(At(f, p), x, u)
    decreases |u|
  {
    AtSplit(f, p, u);
    if u != [] {
      AtExtend(f, p, u[0]);
      assert p + [u[0]] + u[1..] == p + u;
      WriteBelow(f, x, p + [u[0]], u[1..]);
      assert Enters(f, p + u, |p|);
      assert (p + u)[..|p|] == p;
    } else {
      assert p + u == p;
    }
  }

  lemma {:induction false} BareBelow(f: Node, x: string, p: Path, u: Path)
    requires HasNode(f, p + u) && Innermost(f, x, p + u)
    ensures HasNode(f, p) && HasNode(At(f, p), u) && Bare(At(f, p), x, u)
    decreases |u|
  {
    AtSplit(f, p, u);
    if u != [] {
      AtExtend(f, p, u[0]);
      assert p + [u[0]] + u[1..] == p + u;
      BareBelow(f, x, p + [u[0]], u[1..]);
      assert (p + u)[..|p|] == p;
      assert !WritesLocal(HasPrefix2(f, p + u, |p|), x);
    }
  }

  lemma {:induction false} ForkBelow(c: Path, w: Path, r: Path)
    ensures Fork(c + w, c + r) == |c| + Fork(w, r)
    decreases |c|
  {
    if c == [] {
      assert c + w == w && c + r == r;
    } else {
      assert (c + w)[1..] == c[1..] + w && (c + r)[1..] == c[1..] + r;
      ForkBelow(c[1..], w, r);
    }
  }

  /** The child a node always runs first of the two. */
  predicate RunsAhead(n: Node, a: nat, b: nat) {
    EvaluatedBefore(n, a, b) || (n.kind.DeclStmt? && a < b)
  }

  /** At the fork the write's side runs first, and always down to the write. */
  ghost predicate Parted(f: Node, w: Path, r: Path) {
    var m := Fork(w, r);
    && m < |w| && m < |r|
    && PartedAt(f, w[..m], w[m], w[m+1..], r[m])
  }

  ghost predicate PartedAt(f: Node, c: Path, a: nat, u: Path, b: nat) {
    && HasNode(f, c) && HasNode(f, c + [a]) && HasNode(At(f, c + [a]), u)
    && RunsAhead(At(f, c), a, b)
    && AlwaysChain(At(f, c + [a]), u)
  }

  lemma {:induction false} PartedHere(f: Node, c: Path, a: nat, u: Path, r: Path)
    requires c <= r && |c| < |r| && r[|c|] != a
    requires PartedAt(f, c, a, u, r[|c|])
    ensures Parted(f, c + [a] + u, r)
  {
    var w, m := c + [a] + u, |c|;
    assert w == c + ([a] + u) && r == c + r[m..];
    ForkBelow(c, [a] + u, r[m..]);
    assert Fork([a] + u, r[m..]) == 0;
    assert w[..m] == c && w[m] == a && w[m+1..] == u;
  }

  /** Climbing from the write meets the read's path at the fork, with the tests' answers. */
  lemma {:induction false} UpChain(f: Node, child: Path, u: Path, r: Path)
    requires HasNode(f, child) && HasNode(At(f, child), u) && AlwaysChain(At(f, child), u)
    requires DominatesUp(f, child, r) && !(child <= r)
    ensures Parted(f, child + u, r)
    decreases |child|
  {
    var parent := child[..|child|-1];
    var a := child[|child|-1];
    HasPrefix(f, child, |child| - 1);
    assert parent + [a] == child;
    if parent <= r {
      PartedHere(f, parent, a, u, r);
    } else {
      AtExtend(f, parent, a);
      assert ([a] + u)[1..] == u;
      assert parent + ([a] + u) == child + u;
      UpChain(f, parent, [a] + u, r);
    }
  }

  lemma {:induction false} ScopeParted(f: Node, d: Path, r: Path)
    requires HasNode(f, d) && HasNode(f, r) && InScope(f, d, r)
    ensures Parted(f, d, r)
  {
    var m := Fork(d, r);
    var c, a, u := d[..m], d[m], d[m+1..];
    assert d == (c + [a]) + u;
    AtSplit(f, c + [a], u);
    AtSplit(f, c, [a]);
    AtExtend(f, c, a);
    if |d| == m + 2 {
      assert c + [a] == d[..m+1];
      assert u == [d[m+1]];
      assert AlwaysEvaluates(At(f, c + [a]), u[0]);
    }
  }

  // ----- the steps of a run of the node where the two ways part -----

  /** Before a step that runs `b` there is one that ran `a`; what ran in between stands
      between the two, or in a loop that runs it again, or is a for statement's body before
      its increment. */
  lemma {:induction false} ForkStep(n: Node, r: Run, a: nat, b: nat, t: nat) returns (k: nat)
    requires Runs(n, r) && RunsAhead(n, a, b) && !n.kind.SwitchStmt?
    requires t < |r.steps| && r.steps[t].child == b
    ensures k < t && r.steps[k].child == a
    ensures r.steps[k].run.out == Normal || (n.kind.DoStmt? && r.steps[k].run.out == Continue)
    ensures forall j :: k < j < t ==> Between(n, a, b, r.steps[j].child)
  {
    var s := r.steps;
    if InTurn(n) {
      TurnForkStep(n, r, a, b, t);
      k := a;
    } else if n.kind.ForStmt? && a == 0 {
      k := 0;
      ForSteps(n, r, t);
    } else {
      k := BranchStep(n, r, a, b, t);
    }
  }

  /** After its first part a for statement runs its condition, body and increment. */
  lemma {:induction false} ForSteps(n: Node, r: Run, t: nat)
    requires Control(n, r) && n.kind.ForStmt? && t < |r.steps| && r.steps[t].child > 0
    ensures 0 < t && |n.inner| == 5 && r.steps[0].child == 0 && r.steps[0].run.out == Normal
    ensures forall j :: 0 < j <= t ==> 2 <= r.steps[j].child <= 4
  {
    var s := r.steps;
    assert Goes(n, s[0].child, s[0].run.out, s[1].child);
    forall j | 0 < j <= t ensures 2 <= s[j].child <= 4 {
      assert Goes(n, s[j-1].child, s[j-1].run.out, s[j].child);
    }
  }

  lemma {:induction false} TurnForkStep(n: Node, r: Run, a: nat, b: nat, t: nat)
    requires Runs(n, r) && InTurn(n) && a < b && t < |r.steps| && r.steps[t].child == b
    ensures a < t && r.steps[a].child == a && r.steps[a].run.out == Normal
    ensures forall j :: a < j < t ==> a < r.steps[j].child < b
  {
    TurnSteps(n, r, t);
    TurnSteps(n, r, a);
    forall j | a < j < t ensures a < r.steps[j].child < b { TurnSteps(n, r, j); }
  }

  predicate Between(n: Node, a: nat, b: nat, c: nat) {
    || a < c < b
    || (n.kind.ForStmt? && |n.inner| == 5 && a == 0 && 2 <= c <= 4 && 2 <= b <= 4)
    || (n.kind.ForStmt? && |n.inner| == 5 && a == 2 && b == 3 && c == 4)
  }

  lemma {:induction false} BranchStep(n: Node, r: Run, a: nat, b: nat, t: nat) returns (k: nat)
    requires Control(n, r) && RunsAhead(n, a, b) && Ordered(n) && !InTurn(n) && !(n.kind.ForStmt? && a == 0)
    requires t < |r.steps| && r.steps[t].child == b
    ensures k < t && r.steps[k].child == a
    ensures r.steps[k].run.out == Normal || (n.kind.DoStmt? && r.steps[k].run.out == Continue)
    ensures forall j :: k < j < t ==> Between(n, a, b, r.steps[j].child)
  {
    var s := r.steps;
    assert t > 0;
    assert Goes(n, s[t-1].child, s[t-1].run.out, s[t].child);
    k := t - 1;
    if n.kind.ForStmt? && b == 3 {
      assert s[t-1].child == 4;
      assert Goes(n, s[t-2].child, s[t-2].run.out, s[t-1].child);
      k := t - 2;
    }
  }

  /** An earlier step stands before a later one, or a loop runs both again. */
  lemma {:induction false} EarlierStep(n: Node, r: Run, k: nat, t: nat)
    requires Runs(n, r) && Ordered(n) && k < t < |r.steps|
    ensures r.steps[k].child < r.steps[t].child || (Repeated(n, r.steps[k].child) && Repeated(n, r.steps[t].child))
  {
    var s := r.steps;
    if InTurn(n) {
      TurnSteps(n, r, k);
      TurnSteps(n, r, t);
    } else {
      assert Goes(n, s[t-1].child, s[t-1].run.out, s[t].child);
      if k > 0 { assert Goes(n, s[k-1].child, s[k-1].run.out, s[k].child); }
      if k + 1 < t { var j := k + 1; assert Goes(n, s[j-1].child, s[j-1].run.out, s[j].child); }
    }
  }

  // ----- what the variable holds on the way down to the read -----

  /** A value the rules account for: a collected write, or none at all, when the rules add
      the unknown value because nothing dominates. */
  ghost predicate Accounted(f: Node, x: string, r: Path, d: Option<Path>, v: Option<Path>)
    requires HasNode(f, r)
  {
    if v.None? then d.None? else Collected(f, x, r, d, v.value)
  }

  /** The dominating write and the read part above `p`, the write's side first. */
  predicate Above(d: Option<Path>, r: Path, p: Path) {
    d.Some? ==>
      var m := Fork(d.value, r);
      m < |d.value| && m < |r| && m < |p| && d.value[m] < r[m]
  }

  ghost predicate Watched(f: Node, x: string, r: Path, d: Option<Path>) {
    Indexed(f, r) && ReadsLocal(At(f, r), x) && !BlindSpot(f, x, r, d)
  }

  ghost predicate Regular(f: Node, x: string) {
    Sequenced(f, x) && Shaped(f) && Structured(f)
  }

  ghost predicate Setting(f: Node, x: string, r: Path, d: Option<Path>) {
    Watched(f, x, r, d) && Regular(f, x)
  }

  /** A write below an earlier child of a node on the way to the read. */
  lemma {:induction false} EarlierWrite(f: Node, x: string, r: Path, d: Option<Path>, p: Path, c: nat, w: Path)
    requires Watched(f, x, r, d) && |p| < |r| && p <= r && p != []
    requires IsWrite(f, x, w) && p + [c] <= w && HasNode(f, p)
    requires c < r[|p|] || (Repeated(At(f, p), c) && Repeated(At(f, p), r[|p|]))
    requires d.Some? ==> Before(d.value, w)
    requires d.Some? ==> c < r[|p|] || !(p <= d.value && |p| < |d.value| && Repeated(At(f, p), d.value[|p|]))
    ensures Collected(f, x, r, d, w)
  {
    var b := r[|p|];
    assert p == r[..|p|];
    assert w != r;
    if c < b {
      assert p + [b] <= r;
      PartBefore(p, c, b, w, r);
    } else {
      assert BackEdgeAt(f, w, r, d, |p|);
      if w <= r {
        assert w == r[..|w|];
        assert BlindSpotAt(f, x, r, d, |w|);
      }
      BeforeTotal(w, r);
    }
  }

  /** Two ways that part at a child: the one that takes the lesser child comes first. */
  lemma {:induction false} ForkBefore(d: Path, w: Path, r: Path, p: Path)
    requires Above(Some(d), r, p) && p <= w && p <= r
    ensures Before(d, w) && !(p <= d)
  {
    var m := Fork(d, r);
    assert p[m] == r[m] == w[m];
    assert d[..m] + [d[m]] <= d;
    assert d[..m] + [r[m]] <= w;
    PartBefore(d[..m], d[m], r[m], d, w);
  }

  /** Below the fork, what the steps before the way down leave is accounted for. */
  lemma {:induction false} DescendSteps(f: Node, x: string, r: Path, d: Option<Path>, p: Path, run: Run,
                                        last: Option<Path>, t: nat)
    requires Setting(f, x, r, d) && p != [] && p <= r && |p| < |r| && HasNode(f, p) && Indexed(f, p)
    requires Above(d, r, p) && Runs(At(f, p), run) && Accounted(f, x, r, d, last)
    requires t < |run.steps| && run.steps[t].child == r[|p|]
    ensures Accounted(f, x, r, d, AfterSteps(At(f, p), x, p, run, t, last))
  {
    var n := At(f, p);
    forall j, w | 0 <= j < t && Wrote(n.inner[run.steps[j].child], x, p + [run.steps[j].child], Some(w))
      ensures Accounted(f, x, r, d, Some(w))
    {
      DescendNext(f, x, r, d, p, run, j, t, w);
    }
    StepsHold(n, x, p, run, 0, t, last, v => Accounted(f, x, r, d, v));
  }

  lemma {:induction false} DescendNext(f: Node, x: string, r: Path, d: Option<Path>, p: Path, run: Run, k: nat, t: nat,
                                       w: Path)
    requires Setting(f, x, r, d) && p != [] && p <= r && |p| < |r| && HasNode(f, p) && Indexed(f, p)
    requires Above(d, r, p) && Runs(At(f, p), run)
    requires k < t < |run.steps| && run.steps[t].child == r[|p|]
    requires Wrote(At(f, p).inner[run.steps[k].child], x, p + [run.steps[k].child], Some(w))
    ensures Collected(f, x, r, d, w)
  {
    var c := run.steps[k].child;
    WroteBelow(f, x, p, c, w);
    StepOrder(f, x, r, p, run, k, t);
    if d.Some? { ForkBefore(d.value, w, r, p); }
    EarlierWrite(f, x, r, d, p, c, w);
  }

  lemma {:induction false} WroteBelow(f: Node, x: string, p: Path, c: nat, w: Path)
    requires p != [] && Indexed(f, p) && HasNode(f, p) && c < |At(f, p).inner| && !Inert(At(f, p))
    requires Wrote(At(f, p).inner[c], x, p + [c], Some(w))
    ensures IsWrite(f, x, w) && p <= w && p + [c] <= w && HoldsWrite(At(f, p).inner[c], x)
  {
    WroteHolds(At(f, p).inner[c], x, w[|p + [c]|..]);
    WroteUp(At(f, p), x, p, c, Some(w));
    WroteIsWrite(f, x, p, w[|p|..]);
    assert p + w[|p|..] == w;
  }

  /** A step that ran before the way down and writes the variable. */
  lemma {:induction false} StepOrder(f: Node, x: string, r: Path, p: Path, run: Run, k: nat, t: nat)
    requires Indexed(f, r) && ReadsLocal(At(f, r), x) && Regular(f, x)
    requires p <= r && |p| < |r| && HasNode(f, p)
    requires Runs(At(f, p), run) && k < t < |run.steps| && run.steps[t].child == r[|p|]
    requires HoldsWrite(At(f, p).inner[run.steps[k].child], x)
    ensures run.steps[k].child < r[|p|] || (Repeated(At(f, p), run.steps[k].child) && Repeated(At(f, p), r[|p|]))
  {
    var n := At(f, p);
    SubTree(f, x, p);
    if Ordered(n) {
      EarlierStep(n, run, k, t);
    } else {
      OperandOrder(f, x, r, p, run, k, t);
    }
  }

  /** Operands in an open order: none that writes the variable runs beside the way down. */
  lemma {:induction false} OperandOrder(f: Node, x: string, r: Path, p: Path, run: Run, k: nat, t: nat)
    requires HasNode(f, r) && ReadsLocal(At(f, r), x)
    requires p <= r && |p| < |r| && HasNode(f, p)
    requires Control(At(f, p), run) && Sequenced(At(f, p), x) && !Ordered(At(f, p))
    requires k < t < |run.steps| && run.steps[t].child == r[|p|]
    ensures !HoldsWrite(At(f, p).inner[run.steps[k].child], x)
  {
    var n := At(f, p);
    assert p + r[|p|..] == r;
    AtSplit(f, p, r[|p|..]);
    ReadMentions(n.inner[r[|p|]], x, r[|p|..][1..]);
    assert Operand(n, run.steps[k].child) && Operand(n, run.steps[t].child);
  }

  lemma {:induction false} ReadMentions(n: Node, x: string, u: Path)
    requires HasNode(n, u) && ReadsLocal(At(n, u), x)
    ensures MentionsLocal(n, x)
    decreases |u|
  {
    if u != [] { ReadMentions(n.inner[u[0]], x, u[1..]); }
  }

  lemma {:induction false} StepDown(f: Node, p: Path, q: Path, r: Path)
    requires HasNode(f, p) && Indexed(f, r) && r == p + q && q != []
    ensures var next := p + [q[0]];
            r == next + q[1..] && Indexed(f, next) && q[0] < |At(f, p).inner| && At(f, next) == At(f, p).inner[q[0]]
  {
    var next := p + [q[0]];
    assert r == next + q[1..];
    AtSplit(f, next, q[1..]);
    AtExtend(f, p, q[0]);
    forall k | 0 < k < |next| ensures Enters(f, next, k) {
      assert next[..k] == r[..k];
      assert Enters(f, r, k);
    }
  }

  lemma {:induction false} FindsStep(n: Node, x: string, p: Path, run: Run, last: Option<Path>, q: Path,
                                     v: Option<Path>)
    returns (t: nat)
    requires Runs(n, run) && q != [] && Finds(n, x, p, run, last, q, v)
    ensures t < |run.steps| && run.steps[t].child == q[0] && q[0] < |n.inner|
    ensures Finds(n.inner[q[0]], x, p + [q[0]], run.steps[t].run, AfterSteps(n, x, p, run, t, last), q[1..], v)
  {
    t :| t < |run.steps| && run.steps[t].child == q[0] &&
         Finds(n.inner[q[0]], x, p + [q[0]], run.steps[t].run, AfterSteps(n, x, p, run, t, last), q[1..], v);
  }

  lemma {:induction false} LeafRun(n: Node, r: Run)
    requires Control(n, r)
    ensures r.steps != [] ==> n.inner != []
  {
    if r.steps != [] { assert r.steps[0].child < |n.inner|; }
  }

  lemma {:induction false} Descend(f: Node, x: string, r: Path, d: Option<Path>, p: Path, run: Run, last: Option<Path>,
                                   q: Path, v: Option<Path>)
    requires Setting(f, x, r, d) && p != [] && r == p + q && HasNode(f, p) && Indexed(f, p)
    requires Above(d, r, p) && Runs(At(f, p), run) && Accounted(f, x, r, d, last)
    requires Finds(At(f, p), x, p, run, last, q, v)
    ensures Accounted(f, x, r, d, v)
    decreases |q|
  {
    var n := At(f, p);
    if q == [] {
      LeafRun(n, run);
    } else {
      var t := FindsStep(n, x, p, run, last, q, v);
      DescendSteps(f, x, r, d, p, run, last, t);
      StepDown(f, p, q, r);
      Descend(f, x, r, d, p + [q[0]], run.steps[t].run, AfterSteps(n, x, p, run, t, last), q[1..], v);
    }
  }

  // ----- at the fork -----

  /** What the fork's node guarantees of its dominating child. */
  ghost predicate Dominated(f: Node, x: string, r: Path, d: Path, p: Path) {
    var m := |p|;
    && HasNode(f, r) && m < |d| && m < |r| && p == d[..m] && p == r[..m] && m == Fork(d, r) && p != []
    && IsWrite(f, x, d) && Indexed(f, p)
    && PartedAt(f, p, d[m], d[m+1..], r[m])
    && Bare(At(f, p + [d[m]]), x, d[m+1..])
    && DoClosed(At(f, p + [d[m]]), d[m+1..])
    && (At(f, p).kind.DoStmt? ==> NoEscapeBefore(At(f, p + [d[m]]), d[m+1..]))
    && !BodyBetween(f, x, d, r)
  }

  /** The dominating child, with everything the chain below it needs. */
  ghost predicate Chained(n: Node, x: string, u: Path) {
    && HasNode(n, u) && IsWriteBelow(n, x, u)
    && AlwaysChain(n, u) && DoClosed(n, u) && Bare(n, x, u)
    && Sequenced(n, x) && Shaped(n) && !Mentions(n, SwitchStmt)
  }

  lemma {:induction false} ForkChained(f: Node, x: string, r: Path, d: Path, p: Path)
    requires Regular(f, x) && Dominated(f, x, r, d, p)
    ensures d[|p|] < |At(f, p).inner| && Chained(At(f, p).inner[d[|p|]], x, d[|p|+1..])
    ensures At(f, p).kind.DoStmt? ==> NoEscapeBefore(At(f, p).inner[d[|p|]], d[|p|+1..])
  {
    var a, u := d[|p|], d[|p|+1..];
    AtExtend(f, p, a);
    assert p + [a] + u == d;
    WriteBelow(f, x, p + [a], u);
    SubTree(f, x, p + [a]);
  }

  /** The step that ran the dominating child leaves its write, or one after it. */
  lemma {:induction false} ForkChain(n: Node, x: string, p: Path, a: nat, u: Path, run: Run, last: Option<Path>, k: nat)
    requires Runs(n, run) && k < |run.steps| && run.steps[k].child == a && Chained(n.inner[a], x, u)
    requires run.steps[k].run.out == Normal || (run.steps[k].run.out == Continue && NoEscapeBefore(n.inner[a], u))
    ensures Kept(n.inner[a], x, p + [a], u, AfterSteps(n, x, p, run, k + 1, last))
  {
    AfterChain(n.inner[a], x, p + [a], u, run.steps[k].run, AfterSteps(n, x, p, run, k, last));
  }

  /** After it only accounted writes are left, whatever the variable held before. */
  lemma {:induction false} ForkHolds(f: Node, x: string, r: Path, d: Path, p: Path, v: Option<Path>)
    requires Dominated(f, x, r, d, p) && d[|p|] < r[|p|] && d[|p|] < |At(f, p).inner| && !Inert(At(f, p))
    requires Kept(At(f, p).inner[d[|p|]], x, p + [d[|p|]], d[|p|+1..], v)
    ensures Accounted(f, x, r, Some(d), v)
  {
    var a := d[|p|];
    assert p + [a] + d[|p|+1..] == d;
    if v.value != d {
      WroteBelow(f, x, p, a, v.value);
      assert p + [r[|p|]] <= r;
      PartBefore(p, a, r[|p|], v.value, r);
    } else {
      assert d[|p|] != r[|p|];
    }
  }

  lemma {:induction false} ForkSteps(f: Node, x: string, r: Path, d: Path, p: Path, run: Run, last: Option<Path>,
                                     k: nat, t: nat)
    requires Watched(f, x, r, Some(d)) && Dominated(f, x, r, d, p)
    requires Runs(At(f, p), run) && k < t < |run.steps|
    requires forall i :: k < i < t ==> Between(At(f, p), d[|p|], r[|p|], run.steps[i].child)
    requires Accounted(f, x, r, Some(d), AfterSteps(At(f, p), x, p, run, k + 1, last))
    ensures Accounted(f, x, r, Some(d), AfterSteps(At(f, p), x, p, run, t, last))
  {
    var n := At(f, p);
    forall j, w | k + 1 <= j < t && Wrote(n.inner[run.steps[j].child], x, p + [run.steps[j].child], Some(w))
      ensures Accounted(f, x, r, Some(d), Some(w))
    {
      ForkNext(f, x, r, d, p, run.steps[j].child, w);
    }
    StepsHold(n, x, p, run, k + 1, t, last, v => Accounted(f, x, r, Some(d), v));
  }

  lemma {:induction false} ForkNext(f: Node, x: string, r: Path, d: Path, p: Path, c: nat, w: Path)
    requires Watched(f, x, r, Some(d)) && Dominated(f, x, r, d, p)
    requires c < |At(f, p).inner| && !Inert(At(f, p)) && Between(At(f, p), d[|p|], r[|p|], c)
    requires Wrote(At(f, p).inner[c], x, p + [c], Some(w))
    ensures Collected(f, x, r, Some(d), w)
  {
    var n, a, b := At(f, p), d[|p|], r[|p|];
    WroteBelow(f, x, p, c, w);
    assert !(n.kind.ForStmt? && |n.inner| == 5 && a == 2 && b == 3 && c == 4);
    assert p + [a] <= d;
    PartBefore(p, a, c, d, w);
    EarlierWrite(f, x, r, Some(d), p, c, w);
  }

  /** So when the run goes on towards the read, what the variable holds is accounted for. */
  lemma {:induction false} ForkSettles(f: Node, x: string, r: Path, d: Path, p: Path, run: Run, last: Option<Path>,
                                       t: nat)
    requires Setting(f, x, r, Some(d)) && Dominated(f, x, r, d, p)
    requires Runs(At(f, p), run) && t < |run.steps| && run.steps[t].child == r[|p|]
    ensures Accounted(f, x, r, Some(d), AfterSteps(At(f, p), x, p, run, t, last)) && Above(Some(d), r, p + [r[|p|]])
  {
    SubTree(f, x, p);
    assert !At(f, p).kind.SwitchStmt?;
    var k := ForkStep(At(f, p), run, d[|p|], r[|p|], t);
    AheadLess(At(f, p), run, d[|p|], r[|p|], t);
    ForkChained(f, x, r, d, p);
    ForkChain(At(f, p), x, p, d[|p|], d[|p|+1..], run, last, k);
    ForkHolds(f, x, r, d, p, AfterSteps(At(f, p), x, p, run, k + 1, last));
    ForkSteps(f, x, r, d, p, run, last, k, t);
  }

  lemma {:induction false} AtFork(f: Node, x: string, r: Path, d: Path, p: Path, run: Run, last: Option<Path>,
                                  v: Option<Path>)
    requires Setting(f, x, r, Some(d)) && Dominated(f, x, r, d, p)
    requires Runs(At(f, p), run) && Finds(At(f, p), x, p, run, last, r[|p|..], v)
    ensures Accounted(f, x, r, Some(d), v)
  {
    var t := FindsStep(At(f, p), x, p, run, last, r[|p|..], v);
    ForkSettles(f, x, r, d, p, run, last, t);
    FromFork(f, x, r, Some(d), p, run, AfterSteps(At(f, p), x, p, run, t, last), t, v);
  }

  lemma {:induction false} FromFork(f: Node, x: string, r: Path, d: Option<Path>, p: Path, run: Run, held: Option<Path>,
                                    t: nat, v: Option<Path>)
    requires Setting(f, x, r, d) && HasNode(f, p) && p <= r && |p| < |r| && Above(d, r, p + [r[|p|]])
    requires Runs(At(f, p), run) && t < |run.steps| && run.steps[t].child == r[|p|] && Accounted(f, x, r, d, held)
    requires Finds(At(f, p).inner[r[|p|]], x, p + [r[|p|]], run.steps[t].run, held, r[|p|..][1..], v)
    ensures Accounted(f, x, r, d, v)
  {
    var q := r[|p|..];
    assert r == p + q && q[0] == r[|p|];
    StepDown(f, p, q, r);
    Descend(f, x, r, d, p + [r[|p|]], run.steps[t].run, held, q[1..], v);
  }

  lemma {:induction false} AheadLess(n: Node, r: Run, a: nat, b: nat, t: nat)
    requires RunsAhead(n, a, b) && Control(n, r) && t < |r.steps| && r.steps[t].child == b
    ensures a < b
  {
  }

  /** Above the node at `c` what the variable holds does not matter, if what every run of that
      node lets the read find is `good` whatever it held. */
  lemma {:induction false} Approach(f: Node, x: string, r: Path, c: Path, p: Path, run: Run, last: Option<Path>,
                                    v: Option<Path>,
                                    good: Option<Path> -> bool)
    requires Indexed(f, r) && c <= r && |c| < |r| && HasNode(f, c)
    requires p <= c && p != [] && HasNode(f, p)
    requires Runs(At(f, p), run) && Finds(At(f, p), x, p, run, last, r[|p|..], v)
    requires forall run', last', v' :: Runs(At(f, c), run') && Finds(At(f, c), x, c, run', last', r[|c|..], v') ==>
             good(v')
    ensures good(v)
    decreases |c| - |p|
  {
    if |p| == |c| {
      assert p == c;
    } else {
      var n, q := At(f, p), r[|p|..];
      var t := FindsStep(n, x, p, run, last, q, v);
      assert r == p + q;
      StepDown(f, p, q, r);
      var next := p + [q[0]];
      assert c[|p|] == r[|p|];
      assert r[|next|..] == q[1..];
      Approach(f, x, r, c, next, run.steps[t].run, AfterSteps(n, x, p, run, t, last), v, good);
    }
  }

  lemma {:induction false} DominatesParted(f: Node, x: string, r: Path, d: Path)
    requires HasNode(f, r) && Candidate(f, x, r, d) && Trusted(f, x, r, Some(d))
    ensures Parted(f, d, r)
  {
    if At(f, d).kind.VarDecl? {
      ScopeParted(f, d, r);
    } else {
      assert d + [] == d;
      UpChain(f, d, [], r);
    }
  }

  lemma {:induction false} DominatedAtFork(f: Node, x: string, r: Path, d: Path)
    requires Indexed(f, r) && Candidate(f, x, r, d) && Trusted(f, x, r, Some(d))
    requires f.kind.FunctionDecl?
    ensures var m := Fork(d, r); m < |d| && m < |r| && Dominated(f, x, r, d, d[..m])
  {
    DominatesParted(f, x, r, d);
    var m := Fork(d, r);
    BareAt(f, x, d, m);
    ClosedAt(f, d, r);
    IndexedPrefix(f, d, m);
    assert d[..m] != [];
  }

  lemma {:induction false} BareAt(f: Node, x: string, d: Path, m: nat)
    requires HasNode(f, d) && Innermost(f, x, d) && m < |d|
    ensures HasNode(f, d[..m] + [d[m]]) && HasNode(At(f, d[..m] + [d[m]]), d[m+1..])
    ensures Bare(At(f, d[..m] + [d[m]]), x, d[m+1..])
  {
    assert d[..m] + [d[m]] + d[m+1..] == d;
    BareBelow(f, x, d[..m] + [d[m]], d[m+1..]);
  }

  lemma {:induction false} ClosedAt(f: Node, d: Path, r: Path)
    requires HasNode(f, d) && Reached(f, d, r) && Fork(d, r) < |d|
    ensures var m := Fork(d, r); var p, c, u := d[..m], d[..m] + [d[m]], d[m+1..];
            HasNode(f, p) && HasNode(f, c) && HasNode(At(f, c), u) && DoClosed(At(f, c), u)
            && (At(f, p).kind.DoStmt? ==> NoEscapeBefore(At(f, c), u))
  {
    var m := Fork(d, r);
    assert d == d[..m] + d[m..];
    AtSplit(f, d[..m], d[m..]);
    ClosedBelow(f, d, m);
  }

  lemma {:induction false} IndexedPrefix(f: Node, d: Path, m: nat)
    requires Indexed(f, d) && m <= |d|
    ensures Indexed(f, d[..m])
  {
    HasPrefix(f, d, m);
    forall k | 0 < k < m ensures Enters(f, d[..m], k) { assert d[..m][..k] == d[..k]; assert Enters(f, d, k); }
  }

  lemma {:induction false} ClosedBelow(f: Node, d: Path, m: nat)
    requires HasNode(f, d) && m < |d|
    requires HasNode(f, d[..m]) && HasNode(At(f, d[..m]), d[m..]) && DoClosed(At(f, d[..m]), d[m..])
    ensures HasNode(f, d[..m] + [d[m]]) && HasNode(At(f, d[..m] + [d[m]]), d[m+1..])
    ensures DoClosed(At(f, d[..m] + [d[m]]), d[m+1..])
    ensures At(f, d[..m]).kind.DoStmt? ==> NoEscapeBefore(At(f, d[..m] + [d[m]]), d[m+1..])
  {
    AtExtend(f, d[..m], d[m]);
    assert d[m..][1..] == d[m+1..];
  }

  lemma {:induction false} AtBody(f: Node, x: string, r: Path, d: Path)
    requires HasNode(f, r) && Dominated(f, x, r, d, d[..Fork(d, r)])
    ensures var c := d[..Fork(d, r)]; c <= r && |c| < |r| && HasNode(f, c) && [r[0]] <= c
  {
    assert d[..Fork(d, r)][0] == r[0];
  }

  /** In every run of the function's body, what a local holds at a read the rules can be
      trusted with is the value of a write they collect there; a run that wrote nothing yet
      finds no dominating write claimed. */
  lemma {:induction false} ReachingWrites(f: Node, x: string, r: Path, d: Option<Path>, body: nat, run: Run,
                                          v: Option<Path>)
    requires f.kind.FunctionDecl? && body < |f.inner| && r != [] && r[0] == body
    requires Indexed(f, r) && ReadsLocal(At(f, r), x)
    requires Regular(f, x)
    requires d.Some? ==> Candidate(f, x, r, d.value)
    requires Trusted(f, x, r, d)
    requires Runs(f.inner[body], run) && Finds(f.inner[body], x, [body], run, None, r[1..], v)
    ensures v.None? ==> d.None?
    ensures v.Some? ==> Collected(f, x, r, d, v.value)
  {
    assert r == [body] + r[1..];
    AtExtend(f, [], body);
    assert [] + [body] == [body];
    if d.None? {
      Descend(f, x, r, d, [body], run, None, r[1..], v);
    } else {
      DominatedAtFork(f, x, r, d.value);
      var c := d.value[..Fork(d.value, r)];
      forall run', last', v' | Runs(At(f, c), run') && Finds(At(f, c), x, c, run', last', r[|c|..], v')
        ensures Accounted(f, x, r, d, v')
      {
        AtFork(f, x, r, d.value, c, run', last', v');
      }
      AtBody(f, x, r, d.value);
      Approach(f, x, r, c, [body], run, None, v, v' => Accounted(f, x, r, d, v'));
    }
  }
}
