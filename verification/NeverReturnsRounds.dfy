/** Where the rounds start and what they can add (internal/cproject/guards.go:20-75): every function found
    is one its author declares noreturn, or ends in calls of functions found before it; so a function that
    only calls itself is not found. */
module NeverReturnsRounds {
  import opened Ast
  import opened Guards

  /** A declaration of the function says that it never returns: its type, or C11's _Noreturn. */
  predicate SaysNoReturn(n: Node) {
    n.noReturn || exists child :: child in n.inner && child.kind == Attr("C11NoReturnAttr")
  }

  /** The rounds start with the functions declared so. */
  lemma {:induction false} DeclaredExactly(p: Program, ref: string)
    ensures ref in Declared(p) <==> exists fn :: fn in p.functions && fn.ref == ref && SaysNoReturn(fn.node)
    ensures Rounds(p, 0) == Declared(p)
  {
    forall n: Node ensures DeclaredNoReturn(n) <==> SaysNoReturn(n) { SaysExactly(n); }
    if fn :| fn in p.functions && fn.ref == ref && SaysNoReturn(fn.node) {
      var i :| 0 <= i < |p.functions| && p.functions[i] == fn;
      assert p.functions[i].ref in Declared(p);
    }
  }

  lemma {:induction false} SaysExactly(n: Node)
    ensures DeclaredNoReturn(n) <==> SaysNoReturn(n)
  {
    if child :| child in n.inner && child.kind == Attr("C11NoReturnAttr") {
      var i :| 0 <= i < |n.inner| && n.inner[i] == child;
    }
  }

  /** What can be told to end in so many steps: the functions declared so, and those whose bodies end in
      calls of what was told before. */
  function Told(p: Program, steps: nat): set<string> {
    if steps == 0 then Declared(p) else Told(p, steps - 1) + Under(p, Told(p, steps - 1))
  }

  lemma {:induction false} ToldMore(p: Program, m: nat, n: nat)
    requires m <= n
    ensures Told(p, m) <= Told(p, n)
  {
    if m < n { ToldMore(p, m, n - 1); }
  }

  lemma {:induction false} SweepTold(p: Program, ending: set<string>, m: nat, i: nat)
    requires ending <= Told(p, m) && i <= |p.functions|
    ensures Sweep(p, ending, i) <= Told(p, m + i)
  {
    ToldMore(p, m, m + i);
    if i > 0 {
      SweepTold(p, ending, m, i - 1);
      var before, fn := Sweep(p, ending, i - 1), p.functions[i-1];
      ToldMore(p, m + i - 1, m + i);
      if BodyEnds(p, before, fn) { AddedTold(p, before, m + i - 1, i - 1); }
    }
  }

  lemma {:induction false} AddedTold(p: Program, ending: set<string>, m: nat, i: nat)
    requires ending <= Told(p, m) && i < |p.functions| && BodyEnds(p, ending, p.functions[i])
    ensures p.functions[i].ref in Told(p, m + 1)
  {
    UnderMonotone(p, ending, Told(p, m));
    assert p.functions[i].ref in Under(p, ending);
  }

  lemma {:induction false} RoundsTold(p: Program, k: nat) returns (steps: nat)
    ensures Rounds(p, k) <= Told(p, steps)
  {
    steps := 0;
    if k > 0 {
      var before := RoundsTold(p, k - 1);
      SweepTold(p, Rounds(p, k - 1), before, |p.functions|);
      steps := before + |p.functions|;
    }
  }

  /** Every function the rounds leave was told so. */
  lemma {:induction false} LeftTold(p: Program, ending: set<string>)
    requires Left(p, ending)
    ensures exists steps: nat :: ending <= Told(p, steps)
  {
    var k: nat :| LeftAfter(p, ending, k);
    var steps := RoundsTold(p, k);
  }

  /** A set of functions each of which ends only in calls of the set, none declared noreturn, holds no
      function that is found: calling oneself or each other is no reason. */
  predicate OnlyWithin(p: Program, s: set<string>) {
    s !! Declared(p)
    && forall i :: 0 <= i < |p.functions| && p.functions[i].ref in s ==>
         !BodyEnds(p, Refs(p) + Declared(p) - s, p.functions[i])
  }

  lemma {:induction false} WithinUntold(p: Program, s: set<string>, steps: nat)
    requires OnlyWithin(p, s)
    ensures Told(p, steps) !! s && Told(p, steps) <= Refs(p)
  {
    if steps > 0 {
      WithinUntold(p, s, steps - 1);
      var before := Told(p, steps - 1);
      forall ref | ref in Under(p, before) ensures ref !in s && ref in Refs(p) {
        var i :| 0 <= i < |p.functions| && BodyEnds(p, before, p.functions[i]) && p.functions[i].ref == ref;
        if ref in s {
          UnderMonotone(p, before, Refs(p) + Declared(p) - s);
          BodyMonotone(p, before, Refs(p) + Declared(p) - s, p.functions[i]);
        }
      }
    }
  }

  lemma {:induction false} BodyMonotone(p: Program, small: set<string>, large: set<string>, fn: Function)
    requires small <= large && BodyEnds(p, small, fn)
    ensures BodyEnds(p, large, fn)
  {
    var i :| 0 <= i < |fn.node.inner| && fn.node.inner[i].kind.CompoundStmt?
             && Ends(p, small, fn.scope, fn.node.inner[i]);
    EndsMonotone(p, small, large, fn.scope, fn.node.inner[i]);
  }

  lemma {:induction false} OwnCallsNotFound(p: Program, ending: set<string>, s: set<string>)
    requires Left(p, ending) && OnlyWithin(p, s)
    ensures ending !! s
  {
    LeftTold(p, ending);
    var steps: nat :| ending <= Told(p, steps);
    WithinUntold(p, s, steps);
  }

  // ----- what is retracted -----

  lemma {:induction false} SweepOut(p: Program, ending: set<string>, i: nat, ref: string)
    requires i <= |p.functions| && ref in Declared(p) && ref !in ending
    ensures ref !in Sweep(p, ending, i)
  {
    if i > 0 { SweepOut(p, ending, i - 1, ref); }
  }

  /** A function declared noreturn that was found to return stays out. */
  lemma {:induction false} DeclaredStaysOut(p: Program, k: nat, n: nat, ref: string)
    requires k <= n && ref in Declared(p) && ref !in Rounds(p, k)
    ensures ref !in Rounds(p, n)
  {
    if k < n {
      DeclaredStaysOut(p, k, n - 1, ref);
      SweepOut(p, Rounds(p, n - 1), |p.functions|, ref);
    }
  }
}
