/** What some run leaves in a local at a read, told by the text alone: a test on the syntax tree
    that holds exactly where a run finds that write, and so the exact condition under which the
    answer for the read covers all runs. */
module LocalsText {
  import opened Ast
  import opened Execution
  import opened LocalsRules
  import LocalsFollow
  import LocalsSound

  // ----- the test -----

  /** What is left of one write after another: none means that nothing was written. */
  function Then(a: Option<Path>, b: Option<Path>): Option<Path> {
    if b.Some? then b else a
  }

  /** The node, at `p`, can be left by `o` having written the variable last at `e`. */
  ghost predicate Can(n: Node, x: string, p: Path, o: Outcome, e: Option<Path>)
    decreases n, 4, 0
  {
    if o == Normal && WritesLocal(n, x) then e == Some(p) && exists s :: PartsCan(n, x, p, o, s)
    else PartsCan(n, x, p, o, e)
  }

  ghost predicate Part(n: Node, x: string, p: Path, i: nat, o: Outcome, e: Option<Path>)
    decreases n, 0, 0
  {
    i < |n.inner| && Can(n.inner[i], x, p + [i], o, e)
  }

  /** So far as its children tell. */
  ghost predicate PartsCan(n: Node, x: string, p: Path, o: Outcome, e: Option<Path>)
    decreases n, 3, 0
  {
    if n.kind.SwitchStmt? then e == None && SwitchControl(n, Run([], None, o))
    else if Inert(n) then e == None && o == Normal
    else if Ordered(n) then
      || (InTurn(n) && n.inner == [] && o == Normal && e == None)
      || exists c, m, oc, ec :: StartsAt(n, x, p, c, m) && Part(n, x, p, c, oc, ec) && Leaves(n, c, oc, o)
           && e == Then(m, ec)
    else OperandCan(n, x, p, o, e)
  }

  /** An ordered node can start its child `c` when `m` was written last in it. */
  ghost predicate StartsAt(n: Node, x: string, p: Path, c: nat, m: Option<Path>)
    decreases n, 2, 0
  {
    c < |n.inner| &&
    if InTurn(n) then PrefixCan(n, x, p, c, m)
    else if IsLoop(n) then LoopAt(n, x, p, c, m)
    else (c == 0 && m == None) || (Goes(n, 0, Normal, c) && Part(n, x, p, 0, Normal, m))
  }

  ghost predicate PrefixCan(n: Node, x: string, p: Path, k: nat, m: Option<Path>)
    decreases n, 1, k
  {
    if k == 0 then m == None
    else exists a, b :: PrefixCan(n, x, p, k - 1, a) && Part(n, x, p, k - 1, Normal, b) && m == Then(a, b)
  }

  /** The children a loop goes through again and again, in their order. */
  function Ring(n: Node): seq<nat> {
    var c := |n.inner|;
    if n.kind.WhileStmt? && c >= 2 then [c - 2, c - 1]
    else if n.kind.DoStmt? && c == 2 then [0, 1]
    else if n.kind.ForStmt? && c == 5 then [2, 4, 3]
    else []
  }

  function RingNext(n: Node, t: nat): nat
    requires t <= |Ring(n)| && Ring(n) != []
  {
    if t == |Ring(n)| then Ring(n)[0] else Ring(n)[t]
  }

  /** The first `t` of them in turn. */
  ghost predicate RingCan(n: Node, x: string, p: Path, t: nat, e: Option<Path>)
    requires t <= |Ring(n)|
    decreases n, 1, t
  {
    if t == 0 then e == None
    else
      var c := Ring(n)[t-1];
      exists a, o, b :: RingCan(n, x, p, t - 1, a) && Part(n, x, p, c, o, b) && Goes(n, c, o, RingNext(n, t))
        && e == Then(a, b)
  }

  ghost predicate Entry(n: Node, x: string, p: Path, a: Option<Path>)
    decreases n, 1, 0
  {
    if n.kind.ForStmt? then Part(n, x, p, 0, Normal, a) else a == None
  }

  /** At the first of them: on entry, or once around or more, of which the last time that wrote
      the variable counts. */
  ghost predicate Head(n: Node, x: string, p: Path, h: Option<Path>)
    decreases n, 1, |Ring(n)| + 1
  {
    exists a :: Entry(n, x, p, a) && (h == a || (h.Some? && RingCan(n, x, p, |Ring(n)|, h)))
  }

  ghost predicate LoopAt(n: Node, x: string, p: Path, c: nat, m: Option<Path>)
    decreases n, 1, |Ring(n)| + 2
  {
    || (n.kind.ForStmt? && Starts(n, c) && m == None)
    || exists t, h, b :: 0 <= t < |Ring(n)| && Ring(n)[t] == c && Head(n, x, p, h) && RingCan(n, x, p, t, b)
         && m == Then(h, b)
  }

  ghost predicate Other(n: Node, x: string, p: Path, j: nat, e: Option<Path>)
    decreases n, 1, 0
  {
    exists i :: i != j && Operand(n, i) && Part(n, x, p, i, Normal, e)
  }

  ghost predicate Completed(n: Node, x: string, p: Path, i: nat)
    decreases n, 1, 0
  {
    exists e :: Part(n, x, p, i, Normal, e)
  }

  /** Operands in any order: left by one of them, or all done, the last write in any of them. */
  ghost predicate OperandCan(n: Node, x: string, p: Path, o: Outcome, e: Option<Path>)
    decreases n, 2, 0
  {
    || (o != Normal && exists j, ej ::
          Operand(n, j) && Part(n, x, p, j, o, ej) && (e == ej || (ej.None? && Other(n, x, p, j, e))))
    || (o == Completion(n) && e.None? && forall j: nat :: j < |n.inner| && Evaluates(n, j) ==>
          Part(n, x, p, j, Normal, None))
    || (o == Completion(n) && e.Some? && (exists j :: Operand(n, j) && Part(n, x, p, j, Normal, e))
        && forall i: nat :: i < |n.inner| && Evaluates(n, i) ==> Completed(n, x, p, i))
  }

  /** The node can start its child `c` when `m` was written last in it. */
  ghost predicate Enters(n: Node, x: string, p: Path, c: nat, m: Option<Path>) {
    && c < |n.inner| && !n.kind.SwitchStmt? && !Inert(n)
    && if Ordered(n) then StartsAt(n, x, p, c, m)
       else Operand(n, c) && (m == None || Other(n, x, p, c, m))
  }

  /** A read at `q` below the node can find `e` last. */
  ghost predicate Sees(n: Node, x: string, p: Path, q: Path, e: Option<Path>)
    decreases |q|
  {
    if q == [] then ReadsLocal(n, x) && e == None
    else
      && q[0] < |n.inner|
      && exists m, f :: Enters(n, x, p, q[0], m) && Sees(n.inner[q[0]], x, p + [q[0]], q[1..], f) && e == Then(m, f)
  }

  // ----- what a run does to the variable does not depend on what it held -----

  lemma {:induction false} AfterShift(n: Node, x: string, p: Path, r: Run, last: Option<Path>)
    requires Runs(n, r)
    ensures After(n, x, p, r, last) == Then(last, After(n, x, p, r, None))
    decreases r, |r.steps| + 1
  {
    StepsShift(n, x, p, r, |r.steps|, last);
  }

  lemma {:induction false} StepsShift(n: Node, x: string, p: Path, r: Run, k: nat, last: Option<Path>)
    requires Runs(n, r) && k <= |r.steps|
    ensures AfterSteps(n, x, p, r, k, last) == Then(last, AfterSteps(n, x, p, r, k, None))
    decreases r, k
  {
    if k > 0 {
      StepsShift(n, x, p, r, k - 1, last);
      var c := r.steps[k-1].child;
      AfterShift(n.inner[c], x, p + [c], r.steps[k-1].run, AfterSteps(n, x, p, r, k - 1, last));
      AfterShift(n.inner[c], x, p + [c], r.steps[k-1].run, AfterSteps(n, x, p, r, k - 1, None));
    }
  }

  /** The step in which the read is found, and back. */
  lemma {:induction false} FindsStep(n: Node, x: string, p: Path, r: Run, last: Option<Path>, q: Path, v: Option<Path>)
    returns (k: nat)
    requires Runs(n, r) && q != [] && Finds(n, x, p, r, last, q, v)
    ensures k < |r.steps| && r.steps[k].child == q[0] && q[0] < |n.inner| && Runs(n.inner[q[0]], r.steps[k].run)
    ensures Finds(n.inner[q[0]], x, p + [q[0]], r.steps[k].run, AfterSteps(n, x, p, r, k, last), q[1..], v)
  {
    k :| 0 <= k < |r.steps| && r.steps[k].child == q[0]
      && Finds(n.inner[q[0]], x, p + [q[0]], r.steps[k].run, AfterSteps(n, x, p, r, k, last), q[1..], v);
  }

  lemma {:induction false} FindsThere(n: Node, x: string, p: Path, r: Run, last: Option<Path>, q: Path,
                                      v: Option<Path>, k: nat)
    requires Runs(n, r) && q != [] && k < |r.steps| && r.steps[k].child == q[0] && q[0] < |n.inner|
    requires Finds(n.inner[q[0]], x, p + [q[0]], r.steps[k].run, AfterSteps(n, x, p, r, k, last), q[1..], v)
    ensures Finds(n, x, p, r, last, q, v)
  {
  }

  lemma {:induction false} FindsOn(n: Node, x: string, p: Path, r: Run, last: Option<Path>, q: Path, e: Option<Path>)
    requires Runs(n, r) && Finds(n, x, p, r, None, q, e)
    ensures Finds(n, x, p, r, last, q, Then(last, e))
    decreases |q|
  {
    if q == [] {
      StepsShift(n, x, p, r, |r.steps|, last);
    } else {
      var k := FindsStep(n, x, p, r, None, q, e);
      StepsShift(n, x, p, r, k, last);
      var child, at := n.inner[q[0]], p + [q[0]];
      var f := FindsFrom(child, x, at, r.steps[k].run, AfterSteps(n, x, p, r, k, None), q[1..], e);
      FindsOn(child, x, at, r.steps[k].run, AfterSteps(n, x, p, r, k, last), q[1..], f);
      FindsThere(n, x, p, r, last, q, Then(last, e), k);
    }
  }

  lemma {:induction false} FindsFrom(n: Node, x: string, p: Path, r: Run, last: Option<Path>, q: Path, v: Option<Path>)
    returns (e: Option<Path>)
    requires Runs(n, r) && Finds(n, x, p, r, last, q, v)
    ensures Finds(n, x, p, r, None, q, e) && v == Then(last, e)
    decreases |q|
  {
    if q == [] {
      StepsShift(n, x, p, r, |r.steps|, last);
      e := AfterSteps(n, x, p, r, |r.steps|, None);
    } else {
      var k := FindsStep(n, x, p, r, last, q, v);
      StepsShift(n, x, p, r, k, last);
      var child, at, m := n.inner[q[0]], p + [q[0]], AfterSteps(n, x, p, r, k, None);
      var f := FindsFrom(child, x, at, r.steps[k].run, AfterSteps(n, x, p, r, k, last), q[1..], v);
      FindsOn(child, x, at, r.steps[k].run, m, q[1..], f);
      FindsThere(n, x, p, r, None, q, Then(m, f), k);
      e := Then(m, f);
    }
  }

  // ----- what steps do to it -----

  /** Runs of children of the node. */
  ghost predicate Fit(n: Node, steps: seq<Step>) {
    forall k :: 0 <= k < |steps| ==> steps[k].child < |n.inner| && Runs(n.inner[steps[k].child], steps[k].run)
  }

  ghost function Does(n: Node, x: string, p: Path, step: Step): Option<Path>
    requires step.child < |n.inner| && Runs(n.inner[step.child], step.run)
  {
    After(n.inner[step.child], x, p + [step.child], step.run, None)
  }

  ghost function Effect(n: Node, x: string, p: Path, steps: seq<Step>): Option<Path>
    requires Fit(n, steps)
  {
    if steps == [] then None
    else Then(Effect(n, x, p, steps[..|steps|-1]), Does(n, x, p, steps[|steps|-1]))
  }

  lemma {:induction false} EffectIs(n: Node, x: string, p: Path, r: Run, k: nat)
    requires Runs(n, r) && k <= |r.steps|
    ensures AfterSteps(n, x, p, r, k, None) == Effect(n, x, p, r.steps[..k])
  {
    if k > 0 {
      EffectIs(n, x, p, r, k - 1);
      assert r.steps[..k][..k-1] == r.steps[..k-1];
      var c := r.steps[k-1].child;
      AfterShift(n.inner[c], x, p + [c], r.steps[k-1].run, AfterSteps(n, x, p, r, k - 1, None));
    }
  }

  lemma {:induction false} EffectUpTo(n: Node, x: string, p: Path, steps: seq<Step>, k: nat)
    requires Fit(n, steps) && k < |steps|
    ensures Effect(n, x, p, steps[..k+1]) == Then(Effect(n, x, p, steps[..k]), Does(n, x, p, steps[k]))
  {
    assert steps[..k+1][..k] == steps[..k];
  }

  lemma {:induction false} EffectNext(n: Node, x: string, p: Path, steps: seq<Step>, step: Step)
    requires Fit(n, steps) && step.child < |n.inner| && Runs(n.inner[step.child], step.run)
    ensures Fit(n, steps + [step])
    ensures Effect(n, x, p, steps + [step]) == Then(Effect(n, x, p, steps), Does(n, x, p, step))
  {
    assert (steps + [step])[..|steps|] == steps;
  }

  /** The effect is that of the last step that has one. */
  lemma {:induction false} EffectFrom(n: Node, x: string, p: Path, steps: seq<Step>) returns (k: nat)
    requires Fit(n, steps)
    ensures Effect(n, x, p, steps).None? ==> forall j :: 0 <= j < |steps| ==> Does(n, x, p, steps[j]) == None
    ensures Effect(n, x, p, steps).Some? ==> k < |steps| && Does(n, x, p, steps[k]) == Effect(n, x, p, steps)
  {
    k := 0;
    if steps != [] {
      var init := steps[..|steps|-1];
      k := EffectFrom(n, x, p, init);
      if Does(n, x, p, steps[|steps|-1]).Some? { k := |steps| - 1; }
      else { assert forall j :: 0 <= j < |init| ==> init[j] == steps[j]; }
    }
  }

  // ----- a run does what the text says -----

  ghost predicate StepsCan(n: Node, x: string, p: Path, steps: seq<Step>)
    requires Fit(n, steps)
  {
    forall k :: 0 <= k < |steps| && steps[k].run.out != Cut ==>
      Part(n, x, p, steps[k].child, steps[k].run.out, Does(n, x, p, steps[k]))
  }

  lemma {:induction false} RunSays(n: Node, x: string, p: Path, r: Run)
    requires Runs(n, r) && r.out != Cut
    ensures Can(n, x, p, r.out, After(n, x, p, r, None))
    decreases r, 2
  {
    RunPartsSay(n, x, p, r);
  }

  lemma {:induction false} RunPartsSay(n: Node, x: string, p: Path, r: Run)
    requires Runs(n, r) && r.out != Cut
    ensures PartsCan(n, x, p, r.out, AfterSteps(n, x, p, r, |r.steps|, None))
    decreases r, 1
  {
    AllSay(n, x, p, r);
    EffectIs(n, x, p, r, |r.steps|);
    assert r.steps[..|r.steps|] == r.steps;
    if n.kind.SwitchStmt? || Inert(n) {
      assert r.steps == [];
    } else if Ordered(n) {
      if r.steps != [] { OrderedSays(n, x, p, r); }
    } else {
      OperandSays(n, x, p, r);
    }
  }

  lemma {:induction false} AllSay(n: Node, x: string, p: Path, r: Run)
    requires Runs(n, r)
    ensures StepsCan(n, x, p, r.steps)
    decreases r, 0
  {
    forall k | 0 <= k < |r.steps| && r.steps[k].run.out != Cut
      ensures Part(n, x, p, r.steps[k].child, r.steps[k].run.out, Does(n, x, p, r.steps[k]))
    {
      RunSays(n.inner[r.steps[k].child], x, p + [r.steps[k].child], r.steps[k].run);
    }
  }

  lemma {:induction false} OrderedSays(n: Node, x: string, p: Path, r: Run)
    requires Runs(n, r) && r.out != Cut && Ordered(n) && !Inert(n) && !n.kind.SwitchStmt? && r.steps != []
    requires StepsCan(n, x, p, r.steps)
    ensures PartsCan(n, x, p, r.out, Effect(n, x, p, r.steps))
  {
    var k := |r.steps| - 1;
    var last := r.steps[k];
    StepStarts(n, x, p, r, k);
    assert Part(n, x, p, last.child, last.run.out, Does(n, x, p, last));
  }

  /** The child a run takes at step `k` can be started with what it has written by then. */
  lemma {:induction false} StepStarts(n: Node, x: string, p: Path, r: Run, k: nat)
    requires Runs(n, r) && Ordered(n) && !Inert(n) && !n.kind.SwitchStmt? && k < |r.steps|
    requires StepsCan(n, x, p, r.steps)
    ensures StartsAt(n, x, p, r.steps[k].child, Effect(n, x, p, r.steps[..k]))
  {
    if k == 0 {
      FirstStarts(n, x, p, r.steps[0].child);
      assert r.steps[..0] == [];
    } else {
      StepStarts(n, x, p, r, k - 1);
      StepFollows(n, x, p, r, k - 1);
    }
  }

  lemma {:induction false} StepFollows(n: Node, x: string, p: Path, r: Run, k: nat)
    requires Runs(n, r) && Ordered(n) && !Inert(n) && !n.kind.SwitchStmt? && k + 1 < |r.steps|
    requires StepsCan(n, x, p, r.steps) && StartsAt(n, x, p, r.steps[k].child, Effect(n, x, p, r.steps[..k]))
    ensures StartsAt(n, x, p, r.steps[k+1].child, Effect(n, x, p, r.steps[..k+1]))
  {
    var m, e := Effect(n, x, p, r.steps[..k]), Does(n, x, p, r.steps[k]);
    EffectUpTo(n, x, p, r.steps, k);
    StepSaid(n, x, p, r, k);
    NextStarts(n, x, p, r.steps[k].child, m, r.steps[k].run.out, e, r.steps[k+1].child);
  }

  lemma {:induction false} StepSaid(n: Node, x: string, p: Path, r: Run, k: nat)
    requires Runs(n, r) && Ordered(n) && !Inert(n) && !n.kind.SwitchStmt? && k + 1 < |r.steps|
    requires StepsCan(n, x, p, r.steps)
    ensures Part(n, x, p, r.steps[k].child, r.steps[k].run.out, Does(n, x, p, r.steps[k]))
    ensures Goes(n, r.steps[k].child, r.steps[k].run.out, r.steps[k+1].child) && r.steps[k+1].child < |n.inner|
  {
    var j := k + 1;
    assert Goes(n, r.steps[j-1].child, r.steps[j-1].run.out, r.steps[j].child);
  }

  lemma {:induction false} FirstStarts(n: Node, x: string, p: Path, c: nat)
    requires Ordered(n) && Starts(n, c) && c < |n.inner|
    ensures StartsAt(n, x, p, c, None)
  {
    if IsLoop(n) && !n.kind.ForStmt? {
      assert Entry(n, x, p, None) && Head(n, x, p, None) && Ring(n)[0] == c;
      AtHead(n, x, p, None);
    }
  }

  lemma {:induction false} NextStarts(n: Node, x: string, p: Path, i: nat, m: Option<Path>, o: Outcome,
                                      e: Option<Path>, c: nat)
    requires Ordered(n) && StartsAt(n, x, p, i, m) && Part(n, x, p, i, o, e) && Goes(n, i, o, c) && c < |n.inner|
    ensures StartsAt(n, x, p, c, Then(m, e))
  {
    if InTurn(n) {
    } else if IsLoop(n) {
      LoopNext(n, x, p, i, m, o, e, c);
    }
  }

  lemma {:induction false} LoopNext(n: Node, x: string, p: Path, i: nat, m: Option<Path>, o: Outcome,
                                    e: Option<Path>, c: nat)
    requires IsLoop(n) && LoopAt(n, x, p, i, m) && Part(n, x, p, i, o, e) && Goes(n, i, o, c) && c < |n.inner|
    ensures LoopAt(n, x, p, c, Then(m, e))
  {
    if n.kind.ForStmt? && Starts(n, i) && m == None {
      assert Entry(n, x, p, e) && Head(n, x, p, e);
      AtHead(n, x, p, e);
    } else {
      var t, h, b :| 0 <= t < |Ring(n)| && Ring(n)[t] == i && Head(n, x, p, h) && RingCan(n, x, p, t, b)
        && m == Then(h, b);
      RingStep(n, x, p, t, b, o, e, c);
      if t + 1 < |Ring(n)| {
        OnTheWay(n, x, p, t + 1, h, Then(b, e));
      } else {
        Around(n, x, p, h, Then(b, e));
        AtHead(n, x, p, Then(h, Then(b, e)));
      }
      assert Then(m, e) == Then(h, Then(b, e));
    }
  }

  lemma {:induction false} OnTheWay(n: Node, x: string, p: Path, t: nat, h: Option<Path>, b: Option<Path>)
    requires t < |Ring(n)| && Head(n, x, p, h) && RingCan(n, x, p, t, b)
    ensures LoopAt(n, x, p, Ring(n)[t], Then(h, b))
  {
  }

  lemma {:induction false} AtHead(n: Node, x: string, p: Path, h: Option<Path>)
    requires Ring(n) != [] && Head(n, x, p, h)
    ensures LoopAt(n, x, p, Ring(n)[0], h)
  {
    assert RingCan(n, x, p, 0, None) && Then(h, None) == h;
    OnTheWay(n, x, p, 0, h, None);
  }

  lemma {:induction false} RingStep(n: Node, x: string, p: Path, t: nat, b: Option<Path>, o: Outcome, e: Option<Path>,
                                    c: nat)
    requires IsLoop(n) && t < |Ring(n)| && RingCan(n, x, p, t, b) && Part(n, x, p, Ring(n)[t], o, e)
    requires Goes(n, Ring(n)[t], o, c)
    ensures c == RingNext(n, t + 1) && RingCan(n, x, p, t + 1, Then(b, e))
  {
  }

  /** Once more around. */
  lemma {:induction false} Around(n: Node, x: string, p: Path, h: Option<Path>, e: Option<Path>)
    requires Head(n, x, p, h) && RingCan(n, x, p, |Ring(n)|, e)
    ensures Head(n, x, p, Then(h, e))
  {
    var a :| Entry(n, x, p, a) && (h == a || (h.Some? && RingCan(n, x, p, |Ring(n)|, h)));
  }

  lemma {:induction false} OperandSays(n: Node, x: string, p: Path, r: Run)
    requires Runs(n, r) && r.out != Cut && !Ordered(n) && !n.kind.SwitchStmt? && !Inert(n)
    requires StepsCan(n, x, p, r.steps)
    ensures OperandCan(n, x, p, r.out, Effect(n, x, p, r.steps))
  {
    if r.steps != [] && r.steps[|r.steps|-1].run.out != Normal {
      LeftSays(n, x, p, r);
    } else {
      DoneSays(n, x, p, r);
    }
  }

  lemma {:induction false} LeftSays(n: Node, x: string, p: Path, r: Run)
    requires Runs(n, r) && r.out != Cut && !Ordered(n) && !n.kind.SwitchStmt? && !Inert(n)
    requires StepsCan(n, x, p, r.steps) && r.steps != [] && r.steps[|r.steps|-1].run.out != Normal
    ensures OperandCan(n, x, p, r.out, Effect(n, x, p, r.steps))
  {
    var last, init := r.steps[|r.steps|-1], r.steps[..|r.steps|-1];
    var e := Does(n, x, p, last);
    assert Operand(n, last.child) && Part(n, x, p, last.child, r.out, e);
    var k := EffectFrom(n, x, p, init);
    if e.None? && Effect(n, x, p, init).Some? { EarlierOther(n, x, p, r, k, |init|); }
  }

  lemma {:induction false} EarlierOther(n: Node, x: string, p: Path, r: Run, k: nat, t: nat)
    requires Runs(n, r) && !Ordered(n) && !n.kind.SwitchStmt? && !Inert(n) && StepsCan(n, x, p, r.steps)
    requires k < t < |r.steps|
    ensures Other(n, x, p, r.steps[t].child, Does(n, x, p, r.steps[k]))
  {
    var i := r.steps[k].child;
    assert i != r.steps[t].child && Operand(n, i) && Part(n, x, p, i, Normal, Does(n, x, p, r.steps[k]));
  }

  lemma {:induction false} DoneSays(n: Node, x: string, p: Path, r: Run)
    requires Runs(n, r) && r.out != Cut && !Ordered(n) && !n.kind.SwitchStmt? && !Inert(n)
    requires StepsCan(n, x, p, r.steps) && (r.steps != [] ==> r.steps[|r.steps|-1].run.out == Normal)
    ensures OperandCan(n, x, p, r.out, Effect(n, x, p, r.steps))
  {
    var k := EffectFrom(n, x, p, r.steps);
    forall j: nat | j < |n.inner| && Evaluates(n, j)
      ensures Completed(n, x, p, j) && (Effect(n, x, p, r.steps).None? ==> Part(n, x, p, j, Normal, None))
    {
      var t := OperandStep(n, r, j);
      StepSays(n, x, p, r, t);
    }
    if Effect(n, x, p, r.steps).Some? { StepSays(n, x, p, r, k); }
  }

  lemma {:induction false} OperandStep(n: Node, r: Run, j: nat) returns (t: nat)
    requires Control(n, r) && r.out != Cut && !Ordered(n) && !n.kind.SwitchStmt? && !Inert(n)
    requires r.steps != [] ==> r.steps[|r.steps|-1].run.out == Normal
    requires j < |n.inner| && Evaluates(n, j)
    ensures t < |r.steps| && r.steps[t].child == j
  {
    assert Ran(r.steps, j);
    t :| 0 <= t < |r.steps| && r.steps[t].child == j;
  }

  lemma {:induction false} StepSays(n: Node, x: string, p: Path, r: Run, t: nat)
    requires Runs(n, r) && !Ordered(n) && !n.kind.SwitchStmt? && !Inert(n) && t < |r.steps|
    requires StepsCan(n, x, p, r.steps) && r.steps[|r.steps|-1].run.out == Normal
    ensures Operand(n, r.steps[t].child) && Part(n, x, p, r.steps[t].child, Normal, Does(n, x, p, r.steps[t]))
  {
    assert r.steps[t].run.out == Normal;
  }

  /** What a run finds at a read the text says it can find. */
  lemma {:induction false} FindsSays(n: Node, x: string, p: Path, r: Run, q: Path, e: Option<Path>)
    requires Runs(n, r) && Finds(n, x, p, r, None, q, e)
    ensures Sees(n, x, p, q, e)
    decreases |q|
  {
    if q != [] {
      var k := FindsStep(n, x, p, r, None, q, e);
      var m := AfterSteps(n, x, p, r, k, None);
      var f := FindsFrom(n.inner[q[0]], x, p + [q[0]], r.steps[k].run, m, q[1..], e);
      FindsSays(n.inner[q[0]], x, p + [q[0]], r.steps[k].run, q[1..], f);
      EffectIs(n, x, p, r, k);
      StepEnters(n, x, p, r, k);
    }
  }

  lemma {:induction false} StepEnters(n: Node, x: string, p: Path, r: Run, k: nat)
    requires Runs(n, r) && k < |r.steps|
    ensures Enters(n, x, p, r.steps[k].child, Effect(n, x, p, r.steps[..k]))
  {
    AllSay(n, x, p, r);
    if Ordered(n) {
      StepStarts(n, x, p, r, k);
    } else {
      var t := EffectFrom(n, x, p, r.steps[..k]);
      if Effect(n, x, p, r.steps[..k]).Some? { EarlierOther(n, x, p, r, t, k); }
    }
  }

  // ----- and there is a run for what the text says -----

  ghost predicate Shown(n: Node, x: string, p: Path, r: Run, o: Outcome, e: Option<Path>) {
    Runs(n, r) && r.out == o && After(n, x, p, r, None) == e
  }

  lemma {:induction false} HasRun(n: Node, x: string, p: Path, o: Outcome, e: Option<Path>) returns (r: Run)
    requires Can(n, x, p, o, e) && o != Cut
    ensures Shown(n, x, p, r, o, e)
    decreases n, 4, 0
  {
    var s :| PartsCan(n, x, p, o, s) && ((o == Normal && WritesLocal(n, x)) || s == e);
    var steps := PartsRun(n, x, p, o, s);
    r := Run(steps, None, o);
    EffectIs(n, x, p, r, |steps|);
    assert steps[..|steps|] == steps;
  }

  lemma {:induction false} PartHas(n: Node, x: string, p: Path, i: nat, o: Outcome, e: Option<Path>)
    returns (step: Step)
    requires Part(n, x, p, i, o, e) && o != Cut
    ensures step.child == i < |n.inner| && Runs(n.inner[i], step.run) && step.run.out == o && Does(n, x, p, step) == e
    decreases n, 0, 0
  {
    var r := HasRun(n.inner[i], x, p + [i], o, e);
    step := Step(i, r);
  }

  lemma {:induction false} PartsRun(n: Node, x: string, p: Path, o: Outcome, e: Option<Path>) returns (steps: seq<Step>)
    requires PartsCan(n, x, p, o, e) && o != Cut
    ensures Runs(n, Run(steps, None, o)) && Fit(n, steps) && Effect(n, x, p, steps) == e
    decreases n, 3, 0
  {
    if n.kind.SwitchStmt? || Inert(n) || (InTurn(n) && n.inner == [] && o == Normal && e == None) {
      steps := [];
    } else if Ordered(n) {
      var c, m, oc, ec :| StartsAt(n, x, p, c, m) && Part(n, x, p, c, oc, ec) && Leaves(n, c, oc, o)
        && e == Then(m, ec);
      steps := StartsRun(n, x, p, c, m);
      var last := PartHas(n, x, p, c, oc, ec);
      EffectNext(n, x, p, steps, last);
      LedEnds(n, x, p, steps, last, m, o);
      steps := steps + [last];
    } else {
      steps := OperandRun(n, x, p, o, e);
    }
  }

  /** Steps after which an ordered node may start its child `c`, with `m` written last in them. */
  ghost predicate Led(n: Node, x: string, p: Path, s: seq<Step>, c: nat, m: Option<Path>) {
    && Fit(n, s) && Effect(n, x, p, s) == m && c < |n.inner|
    && (s != [] ==> Starts(n, s[0].child))
    && (forall k :: 0 < k < |s| ==> Goes(n, s[k-1].child, s[k-1].run.out, s[k].child))
    && (if s == [] then Starts(n, c) else Goes(n, s[|s|-1].child, s[|s|-1].run.out, c))
  }

  lemma {:induction false} LedEnds(n: Node, x: string, p: Path, s: seq<Step>, last: Step, m: Option<Path>, o: Outcome)
    requires Ordered(n) && !Inert(n) && !n.kind.SwitchStmt? && Led(n, x, p, s, last.child, m)
    requires Runs(n.inner[last.child], last.run)
    requires o == Cut || Leaves(n, last.child, last.run.out, o)
    ensures Runs(n, Run(s + [last], None, o))
  {
  }

  lemma {:induction false} LedNext(n: Node, x: string, p: Path, s: seq<Step>, m: Option<Path>, step: Step, c: nat)
    requires Led(n, x, p, s, step.child, m) && Runs(n.inner[step.child], step.run) && c < |n.inner|
    requires Goes(n, step.child, step.run.out, c)
    ensures Led(n, x, p, s + [step], c, Then(m, Does(n, x, p, step)))
  {
    EffectNext(n, x, p, s, step);
  }

  lemma {:induction false} StartsRun(n: Node, x: string, p: Path, c: nat, m: Option<Path>) returns (s: seq<Step>)
    requires Ordered(n) && StartsAt(n, x, p, c, m)
    ensures Led(n, x, p, s, c, m)
    decreases n, 2, 0
  {
    if InTurn(n) {
      s := PrefixRun(n, x, p, c, m);
    } else if IsLoop(n) {
      s := LoopRun(n, x, p, c, m);
    } else if c == 0 && m == None {
      s := [];
    } else {
      var step := PartHas(n, x, p, 0, Normal, m);
      LedNext(n, x, p, [], None, step, c);
      s := [] + [step];
    }
  }

  lemma {:induction false} PrefixRun(n: Node, x: string, p: Path, k: nat, m: Option<Path>) returns (s: seq<Step>)
    requires InTurn(n) && k < |n.inner| && PrefixCan(n, x, p, k, m)
    ensures Led(n, x, p, s, k, m)
    decreases n, 1, k
  {
    s := [];
    if k > 0 {
      var a, b :| PrefixCan(n, x, p, k - 1, a) && Part(n, x, p, k - 1, Normal, b) && m == Then(a, b);
      s := PrefixRun(n, x, p, k - 1, a);
      var step := PartHas(n, x, p, k - 1, Normal, b);
      LedNext(n, x, p, s, a, step, k);
      s := s + [step];
    }
  }

  lemma {:induction false} RingParts(n: Node, x: string, p: Path, t: nat, e: Option<Path>)
    returns (a: Option<Path>, o: Outcome, b: Option<Path>)
    requires 0 < t <= |Ring(n)| && RingCan(n, x, p, t, e)
    ensures RingCan(n, x, p, t - 1, a) && Part(n, x, p, Ring(n)[t-1], o, b) && e == Then(a, b) && o != Cut
    ensures Goes(n, Ring(n)[t-1], o, RingNext(n, t)) && RingNext(n, t) < |n.inner|
  {
    var c := Ring(n)[t-1];
    a, o, b :| RingCan(n, x, p, t - 1, a) && Part(n, x, p, c, o, b) && Goes(n, c, o, RingNext(n, t)) && e == Then(a, b);
  }

  /** On from the loop's first part through `t` of them. */
  lemma {:induction false} RingRun(n: Node, x: string, p: Path, s: seq<Step>, m: Option<Path>, t: nat, e: Option<Path>)
    returns (all: seq<Step>)
    requires IsLoop(n) && Ring(n) != [] && t <= |Ring(n)| && Led(n, x, p, s, Ring(n)[0], m) && RingCan(n, x, p, t, e)
    ensures Led(n, x, p, all, RingNext(n, t), Then(m, e))
    decreases n, 1, t
  {
    all := s;
    if t > 0 {
      var a, o, b := RingParts(n, x, p, t, e);
      all := RingRun(n, x, p, s, m, t - 1, a);
      var step := PartHas(n, x, p, Ring(n)[t-1], o, b);
      LedNext(n, x, p, all, Then(m, a), step, RingNext(n, t));
      all := all + [step];
    }
  }

  lemma {:induction false} EntryRun(n: Node, x: string, p: Path, a: Option<Path>) returns (s: seq<Step>)
    requires IsLoop(n) && Ring(n) != [] && Entry(n, x, p, a)
    ensures Led(n, x, p, s, Ring(n)[0], a)
    decreases n, 1, 0
  {
    if n.kind.ForStmt? {
      var step := PartHas(n, x, p, 0, Normal, a);
      LedNext(n, x, p, [], None, step, 2);
      s := [] + [step];
    } else {
      s := [];
    }
  }

  lemma {:induction false} HeadRun(n: Node, x: string, p: Path, h: Option<Path>) returns (s: seq<Step>)
    requires IsLoop(n) && Ring(n) != [] && Head(n, x, p, h)
    ensures Led(n, x, p, s, Ring(n)[0], h)
    decreases n, 1, |Ring(n)| + 1
  {
    var a :| Entry(n, x, p, a) && (h == a || (h.Some? && RingCan(n, x, p, |Ring(n)|, h)));
    s := EntryRun(n, x, p, a);
    if h != a { s := RingRun(n, x, p, s, a, |Ring(n)|, h); }
  }

  lemma {:induction false} LoopRun(n: Node, x: string, p: Path, c: nat, m: Option<Path>) returns (s: seq<Step>)
    requires IsLoop(n) && LoopAt(n, x, p, c, m) && c < |n.inner|
    ensures Led(n, x, p, s, c, m)
    decreases n, 1, |Ring(n)| + 2
  {
    if n.kind.ForStmt? && Starts(n, c) && m == None {
      s := [];
    } else {
      var t, h, b :| 0 <= t < |Ring(n)| && Ring(n)[t] == c && Head(n, x, p, h) && RingCan(n, x, p, t, b)
        && m == Then(h, b);
      s := HeadRun(n, x, p, h);
      s := RingRun(n, x, p, s, h, t, b);
    }
  }

  /** The operands below `k`, but `skip`, that are always evaluated, each once. */
  ghost predicate InOrder(n: Node, k: nat, skip: nat, s: seq<Step>) {
    && (forall j :: 0 <= j < |s| ==> s[j].child < k && s[j].child != skip && Evaluates(n, s[j].child))
    && (forall j :: 0 <= j < |s| ==> s[j].run.out == Normal)
    && (forall i, j :: 0 <= i < j < |s| ==> s[i].child < s[j].child)
    && (forall j: nat :: j < k && j != skip && Evaluates(n, j) ==> Ran(s, j))
  }

  ghost predicate OperandsTo(n: Node, x: string, p: Path, k: nat, skip: nat, keeps: bool, s: seq<Step>) {
    Fit(n, s) && (keeps ==> Effect(n, x, p, s) == None) && InOrder(n, k, skip, s)
  }

  lemma {:induction false} RanStill(s: seq<Step>, step: Step, j: nat)
    requires Ran(s, j) || j == step.child
    ensures Ran(s + [step], j)
  {
    if j == step.child { assert (s + [step])[|s|].child == j; }
    else { var i :| 0 <= i < |s| && s[i].child == j; assert (s + [step])[i].child == j; }
  }

  lemma {:induction false} InOrderNext(n: Node, k: nat, skip: nat, s: seq<Step>, step: Step)
    requires InOrder(n, k, skip, s) && step.child == k && k != skip && Evaluates(n, k) && step.run.out == Normal
    ensures InOrder(n, k + 1, skip, s + [step])
  {
    forall j: nat | j < k + 1 && j != skip && Evaluates(n, j) ensures Ran(s + [step], j) { RanStill(s, step, j); }
  }

  lemma {:induction false} OperandsNext(n: Node, x: string, p: Path, k: nat, skip: nat, keeps: bool, s: seq<Step>,
                                        step: Step)
    requires OperandsTo(n, x, p, k, skip, keeps, s) && step.child == k < |n.inner| && k != skip && Evaluates(n, k)
    requires Runs(n.inner[k], step.run) && step.run.out == Normal && (keeps ==> Does(n, x, p, step) == None)
    ensures OperandsTo(n, x, p, k + 1, skip, keeps, s + [step])
  {
    EffectNext(n, x, p, s, step);
    InOrderNext(n, k, skip, s, step);
  }

  lemma {:induction false} OperandRuns(n: Node, x: string, p: Path, k: nat, skip: nat, keeps: bool)
    returns (s: seq<Step>)
    requires k <= |n.inner|
    requires forall j: nat :: j < |n.inner| && Evaluates(n, j) ==> Completed(n, x, p, j)
    requires keeps ==> forall j: nat :: j < |n.inner| && Evaluates(n, j) ==> Part(n, x, p, j, Normal, None)
    ensures OperandsTo(n, x, p, k, skip, keeps, s)
    decreases n, 1, k
  {
    s := [];
    if k > 0 {
      s := OperandRuns(n, x, p, k - 1, skip, keeps);
      if k - 1 != skip && Evaluates(n, k - 1) {
        var e :| Part(n, x, p, k - 1, Normal, e) && (keeps ==> e == None);
        var step := PartHas(n, x, p, k - 1, Normal, e);
        OperandsNext(n, x, p, k - 1, skip, keeps, s, step);
        s := s + [step];
      }
    }
  }

  lemma {:induction false} OperandRun(n: Node, x: string, p: Path, o: Outcome, e: Option<Path>) returns (s: seq<Step>)
    requires !Ordered(n) && !n.kind.SwitchStmt? && !Inert(n) && OperandCan(n, x, p, o, e) && o != Cut
    ensures Runs(n, Run(s, None, o)) && Fit(n, s) && Effect(n, x, p, s) == e
    decreases n, 2, 0
  {
    if j, ej :|
      o != Normal && Operand(n, j) && Part(n, x, p, j, o, ej) && (e == ej || (ej.None? && Other(n, x, p, j, e)))
    {
      var last := PartHas(n, x, p, j, o, ej);
      s := OtherRun(n, x, p, j, if e == ej then None else e);
      EffectNext(n, x, p, s, last);
      LeftBy(n, s, last, o);
      s := s + [last];
    } else if e.None? {
      forall j: nat | j < |n.inner| && Evaluates(n, j) ensures Completed(n, x, p, j) {
        assert Part(n, x, p, j, Normal, None);
      }
      s := OperandRuns(n, x, p, |n.inner|, |n.inner|, true);
      AllDone(n, x, p, s);
    } else {
      var j :| Operand(n, j) && Part(n, x, p, j, Normal, e);
      s := OperandRuns(n, x, p, |n.inner|, j, false);
      var last := PartHas(n, x, p, j, Normal, e);
      EffectNext(n, x, p, s, last);
      DoneWith(n, x, p, s, last);
      s := s + [last];
    }
  }

  /** No step, or one of another operand. */
  lemma {:induction false} OtherRun(n: Node, x: string, p: Path, j: nat, e: Option<Path>) returns (s: seq<Step>)
    requires e == None || Other(n, x, p, j, e)
    ensures Fit(n, s) && Effect(n, x, p, s) == e && |s| <= 1
    ensures s != [] ==> s[0].child != j && Operand(n, s[0].child) && s[0].run.out == Normal
    decreases n, 1, 0
  {
    s := [];
    if e != None {
      var i :| i != j && Operand(n, i) && Part(n, x, p, i, Normal, e);
      var step := PartHas(n, x, p, i, Normal, e);
      EffectNext(n, x, p, [], step);
      s := [step];
      assert s == [] + [step];
    }
  }

  lemma {:induction false} LeftBy(n: Node, s: seq<Step>, last: Step, o: Outcome)
    requires !Ordered(n) && !n.kind.SwitchStmt? && !Inert(n) && Fit(n, s) && |s| <= 1
    requires s != [] ==> s[0].child != last.child && Operand(n, s[0].child) && s[0].run.out == Normal
    requires Operand(n, last.child) && Runs(n.inner[last.child], last.run)
    requires o == Cut || o == last.run.out != Normal
    ensures Runs(n, Run(s + [last], None, o))
  {
    var r := Run(s + [last], None, o);
    assert s != [] ==> s + [last] == [s[0], last];
    assert s == [] ==> s + [last] == [last];
    assert r.steps[|r.steps|-1] == last;
    assert OperandControl(n, r);
  }

  lemma {:induction false} AllDone(n: Node, x: string, p: Path, s: seq<Step>)
    requires !Ordered(n) && !n.kind.SwitchStmt? && !Inert(n) && OperandsTo(n, x, p, |n.inner|, |n.inner|, true, s)
    ensures Runs(n, Run(s, None, Completion(n)))
  {
  }

  lemma {:induction false} DoneWith(n: Node, x: string, p: Path, s: seq<Step>, last: Step)
    requires !Ordered(n) && !n.kind.SwitchStmt? && !Inert(n) && Operand(n, last.child)
    requires OperandsTo(n, x, p, |n.inner|, last.child, false, s)
    requires Runs(n.inner[last.child], last.run) && last.run.out == Normal
    ensures Runs(n, Run(s + [last], None, Completion(n)))
  {
    forall j | 0 <= j < |n.inner| && Evaluates(n, j) ensures Ran(s + [last], j) { RanStill(s, last, j); }
  }

  /** A run that starts the child at `c` with `m` written last, and is watched in there. */
  lemma {:induction false} EntersRun(n: Node, x: string, p: Path, c: nat, m: Option<Path>, run: Run)
    returns (r: Run, k: nat)
    requires Enters(n, x, p, c, m) && Runs(n.inner[c], run)
    ensures Runs(n, r) && k < |r.steps| && r.steps[k] == Step(c, run) && AfterSteps(n, x, p, r, k, None) == m
  {
    var s;
    if Ordered(n) {
      s := StartsRun(n, x, p, c, m);
      LedEnds(n, x, p, s, Step(c, run), m, Cut);
    } else {
      s := OtherRun(n, x, p, c, m);
      LeftBy(n, s, Step(c, run), Cut);
    }
    r, k := Run(s + [Step(c, run)], None, Cut), |s|;
    EffectIs(n, x, p, r, k);
    assert r.steps[..k] == s;
  }

  lemma {:induction false} SeesRun(n: Node, x: string, p: Path, q: Path, e: Option<Path>) returns (r: Run)
    requires Sees(n, x, p, q, e)
    ensures Runs(n, r) && Finds(n, x, p, r, None, q, e)
    decreases |q|
  {
    if q == [] {
      r := Run([], None, Normal);
    } else {
      var m, f :| Enters(n, x, p, q[0], m) && Sees(n.inner[q[0]], x, p + [q[0]], q[1..], f) && e == Then(m, f);
      var run := SeesRun(n.inner[q[0]], x, p + [q[0]], q[1..], f);
      var k;
      r, k := EntersRun(n, x, p, q[0], m, run);
      FindsOn(n.inner[q[0]], x, p + [q[0]], run, m, q[1..], f);
      FindsThere(n, x, p, r, None, q, e, k);
    }
  }

  // ----- the test need only try the writes below the node -----

  lemma {:induction false} FindsWithin(n: Node, x: string, p: Path, r: Run, last: Option<Path>, q: Path,
                                       v: Option<Path>)
    requires Runs(n, r) && Finds(n, x, p, r, last, q, v)
    ensures v == last || LocalsSound.Wrote(n, x, p, v)
    decreases |q|
  {
    if q == [] {
      LocalsSound.AfterStepsWithin(n, x, p, r, |r.steps|, last);
    } else {
      var k := FindsStep(n, x, p, r, last, q, v);
      var m := AfterSteps(n, x, p, r, k, last);
      LocalsSound.AfterStepsWithin(n, x, p, r, k, last);
      FindsWithin(n.inner[q[0]], x, p + [q[0]], r.steps[k].run, m, q[1..], v);
      if v != m { LocalsSound.WroteUp(n, x, p, q[0], v); }
    }
  }

  lemma {:induction false} SeesWritten(n: Node, x: string, p: Path, q: Path, e: Option<Path>)
    requires Sees(n, x, p, q, e)
    ensures e == None || LocalsSound.Wrote(n, x, p, e)
  {
    var r := SeesRun(n, x, p, q, e);
    FindsWithin(n, x, p, r, None, q, e);
  }

  // ----- both -----

  ghost predicate FoundBy(n: Node, x: string, p: Path, q: Path, v: Option<Path>, r: Run) {
    Runs(n, r) && Finds(n, x, p, r, None, q, v)
  }

  /** Some run finds `v` at the read exactly if the text says so. */
  lemma {:induction false} FoundExactly(n: Node, x: string, p: Path, q: Path, v: Option<Path>)
    ensures (exists r :: FoundBy(n, x, p, q, v, r)) <==> Sees(n, x, p, q, v)
  {
    if r :| FoundBy(n, x, p, q, v, r) { FindsSays(n, x, p, r, q, v); }
    if Sees(n, x, p, q, v) {
      var r := SeesRun(n, x, p, q, v);
      assert FoundBy(n, x, p, q, v, r);
    }
  }

  /** Whatever a run of the body finds at the read, the answer has it. */
  ghost predicate Covers(b: Node, x: string, body: nat, q: Path, a: LocalsFollow.Reaching) {
    forall r, v :: FoundBy(b, x, [body], q, v, r) ==>
      if v.None? then a.unknown else LocalsFollow.Listed(a.writes, v.value)
  }

  /** The text lets the read find nothing but what the rules collect. */
  ghost predicate Told(f: Node, x: string, r: Path, d: Option<Path>)
    requires HasNode(f, r) && r != []
  {
    forall v :: Sees(f.inner[r[0]], x, [r[0]], r[1..], v) ==>
      if v.None? then d.None? else Collected(f, x, r, d, v.value)
  }

  /** The answer covers every run exactly if the text lets the read find nothing else.  Nothing is
      asked of the function. */
  lemma {:induction false} CoversExactly(f: Node, x: string, r: Path, d: Option<Path>, a: LocalsFollow.Reaching)
    requires HasNode(f, r) && r != [] && LocalsFollow.Answers(f, x, r, d, a)
    ensures Covers(f.inner[r[0]], x, r[0], r[1..], a) <==> Told(f, x, r, d)
  {
    var b, q := f.inner[r[0]], r[1..];
    forall v ensures (exists run :: FoundBy(b, x, [r[0]], q, v, run)) <==> Sees(b, x, [r[0]], q, v) {
      FoundExactly(b, x, [r[0]], q, v);
    }
  }

  /** What the rules ask of a read is enough for that. */
  lemma {:induction false} TrustedTold(f: Node, x: string, r: Path, d: Option<Path>)
    requires f.kind.FunctionDecl? && r != [] && Indexed(f, r) && ReadsLocal(At(f, r), x)
    requires Structured(f) && Shaped(f) && Sequenced(f, x)
    requires LocalsFollow.Chosen(f, x, r, d) && Trusted(f, x, r, d)
    ensures Told(f, x, r, d)
  {
    forall v | Sees(f.inner[r[0]], x, [r[0]], r[1..], v)
      ensures if v.None? then d.None? else Collected(f, x, r, d, v.value)
    {
      var run := SeesRun(f.inner[r[0]], x, [r[0]], r[1..], v);
      LocalsSound.ReachingWrites(f, x, r, d, r[0], run, v);
    }
  }
}
