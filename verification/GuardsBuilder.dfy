/** The builder's own bookkeeping for guards.go: the set under construction and the memo maps. */
module GuardsBuilder {
  import opened Ast
  import opened Guards

  class Builder {
    const p: Program
    var ending: set<string>
    var leaves: map<Node, bool>
    var armEnding: map<(string, Node), bool>

    constructor (p: Program)
      ensures this.p == p && Memo() && ArmMemo()
    {
      this.p := p;
      ending, leaves, armEnding := {}, map[], map[];
    }

    /** A remembered answer is the right one. */
    ghost predicate Memo()
      reads this`leaves
    {
      forall n :: n in leaves ==> leaves[n] == Guards.MayLeave(n)
    }

    ghost predicate ArmMemo()
      reads this`armEnding, this`ending
    {
      forall k :: k in armEnding ==> armEnding[k] == Ends(p, ending, k.0, k.1)
    }

    method MayLeave(n: Node) returns (yes: bool)
      requires Memo()
      modifies this`leaves
      ensures Memo() && yes == Guards.MayLeave(n)
      decreases n
    {
      if n in leaves {
        return leaves[n];
      }
      yes := n.kind.ReturnStmt? || n.kind.GotoStmt? || n.kind.IndirectGotoStmt?;
      var i := 0;
      while i < |n.inner| && !yes
        invariant Memo() && i <= |n.inner|
        invariant yes ==> Guards.MayLeave(n)
        invariant !yes ==> !(n.kind.ReturnStmt? || n.kind.GotoStmt? || n.kind.IndirectGotoStmt?)
        invariant !yes ==> forall j :: 0 <= j < i ==> !Guards.MayLeave(n.inner[j])
      {
        yes := MayLeave(n.inner[i]);
        i := i + 1;
      }
      leaves := leaves[n := yes];
    }

    method EndsNow(scope: string, n: Node) returns (yes: bool)
      requires Memo()
      modifies this`leaves
      ensures Memo() && yes == Ends(p, ending, scope, n)
      decreases n
    {
      if n.kind.CompoundStmt? {
        for i := 0 to |n.inner|
          invariant Memo() && (Ends(p, ending, scope, n) <==> BlockEnds(p, ending, scope, n, i))
        {
          var leave := MayLeave(n.inner[i]);
          if leave { return false; }
          var ends := EndsNow(scope, n.inner[i]);
          if ends { return true; }
        }
        return false;
      }
      if n.kind.IfStmt? {
        if !(n.hasElse && |n.inner| >= 3) { return false; }
        yes := EndsNow(scope, n.inner[|n.inner|-2]);
        if yes { yes := EndsNow(scope, n.inner[|n.inner|-1]); }
        return;
      }
      if n.kind.DoStmt? {
        if |n.inner| == 2 && IsZero(n.inner[1]) {
          var leave := MayLeave(n.inner[0]);
          if leave { return false; }
          yes := EndsNow(scope, n.inner[0]);
          return;
        }
        return false;
      }
      var call := Unwrap(n);
      return call.kind.CallExpr? && CallEnds(p, ending, scope, call);
    }

    method BodyEndsNow(fn: Function) returns (yes: bool)
      requires Memo()
      modifies this`leaves
      ensures Memo() && yes == BodyEnds(p, ending, fn)
    {
      for i := 0 to |fn.node.inner|
        invariant Memo()
        invariant forall j :: 0 <= j < i ==>
                  !(fn.node.inner[j].kind.CompoundStmt? && Ends(p, ending, fn.scope, fn.node.inner[j]))
      {
        if fn.node.inner[i].kind.CompoundStmt? {
          var ends := EndsNow(fn.scope, fn.node.inner[i]);
          if ends { return true; }
        }
      }
      return false;
    }

    /** The rounds: each reconsiders every function in place; they stop when one changes
        nothing, or after one more than there are functions. */
    method FindEnding()
      requires Memo() && armEnding == map[]
      modifies this`ending, this`leaves
      ensures Memo() && ArmMemo()
      ensures Guards.Left(p, ending)
    {
      var declared: set<string> := {};
      for i := 0 to |p.functions|
        invariant declared == set j | 0 <= j < i && DeclaredNoReturn(p.functions[j].node) :: p.functions[j].ref
      {
        if DeclaredNoReturn(p.functions[i].node) { declared := declared + {p.functions[i].ref}; }
      }
      ending := declared;
      var round, changed := 0, true;
      ghost var rounds: nat := 0;
      while changed && round <= |p.functions|
        invariant Memo() && round <= |p.functions| + 1
        invariant if changed then rounds == round && ending == Rounds(p, round)
                  else ending == Rounds(p, rounds) && forall j :: 0 <= j <= |p.functions| ==>
                    Sweep(p, ending, j) == ending
        decreases |p.functions| + 1 - round
      {
        changed := false;
        ghost var start := ending;
        for i := 0 to |p.functions|
          invariant Memo() && ending == Sweep(p, start, i)
          invariant !changed ==> forall j :: 0 <= j <= i ==> Sweep(p, start, j) == start
        {
          var fn := p.functions[i];
          var ends := BodyEndsNow(fn);
          if fn.ref in ending && !ends {
            ending := ending - {fn.ref};
            changed := true;
          } else if fn.ref !in ending && ends && fn.ref !in declared {
            ending := ending + {fn.ref};
            changed := true;
          }
        }
        round := round + 1;
        if changed { rounds := round; }
      }
      assert LeftAfter(p, ending, rounds);
    }

    method ArmEnds(scope: string, n: Node) returns (yes: bool)
      requires Memo() && ArmMemo()
      modifies this`leaves, this`armEnding
      ensures Memo() && ArmMemo() && yes == Ends(p, ending, scope, n)
    {
      if (scope, n) in armEnding {
        return armEnding[(scope, n)];
      }
      yes := EndsNow(scope, n);
      armEnding := armEnding[(scope, n) := yes];
    }
  }
}
