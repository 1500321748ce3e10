/** The rules internal/cproject/locals.go follows a local variable by, stated on paths, and
    what a run of the function really leaves in the variable. */
module LocalsRules {
  import opened Ast
  import opened Execution

  /** The index, among the children, of a variable's initializing expression. */
  function Initializer(n: Node): Option<nat> {
    if n.hasInit then LastValue(n.inner) else None
  }

  function LastValue(inner: seq<Node>): Option<nat> {
    if inner == [] then None
    else if inner[|inner|-1].kind != Absent && !inner[|inner|-1].kind.Attr? then Some(|inner| - 1)
    else LastValue(inner[..|inner|-1])
  }

  /** The declaration of a variable the index can follow. */
  predicate Declares(n: Node) {
    n.kind.VarDecl? && n.storage == "" && !n.isArray
  }

  predicate WritesLocal(n: Node, x: string) {
    if n.kind.VarDecl? then Declares(n) && n.id == x && Initializer(n).Some?
    else if n.kind.BinaryOperator? then n.opcode.Assign? && |n.inner| == 2 && LocalRef(n.inner[0]) == Some(x)
    else if n.kind.CompoundAssignOperator? then |n.inner| > 0 && LocalRef(n.inner[0]) == Some(x)
    else
      && n.kind.UnaryOperator? && |n.inner| == 1 && (n.opcode.Increment? || n.opcode.Decrement?)
      && LocalRef(n.inner[0]) == Some(x)
  }

  predicate ReadsLocal(n: Node, x: string) {
    n.kind.DeclRefExpr? && LocalRef(n) == Some(x) && n.inner == []
  }

  /** The walk that indexes a body does not enter declarations nested in it. */
  predicate Indexed(f: Node, p: Path) {
    HasNode(f, p) && forall k :: 0 < k < |p| ==> Enters(f, p, k)
  }

  predicate Enters(f: Node, p: Path, k: nat)
    requires HasNode(f, p) && k < |p|
  {
    HasPrefix(f, p, k);
    !Inert(At(f, p[..k]))
  }

  predicate IsWrite(f: Node, x: string, w: Path) {
    Indexed(f, w) && WritesLocal(At(f, w), x)
  }

  // ----- the source's tests -----

  predicate AlwaysEvaluates(n: Node, i: nat) {
    if (n.kind.CompoundStmt? || n.kind.DeclStmt? || n.kind.ReturnStmt? || n.kind.ParenExpr? || n.kind.ImplicitCastExpr?
      || n.kind.CStyleCastExpr? || n.kind.ConstantExpr? || n.kind.ExprWithCleanups? || n.kind.UnaryOperator?
      || n.kind.MemberExpr? || n.kind.ArraySubscriptExpr? || n.kind.CallExpr? || n.kind.CompoundAssignOperator?
      || n.kind.VarDecl? || n.kind.LabelStmt? || n.kind.CaseStmt? || n.kind.DefaultStmt?) then true
    else if n.kind.BinaryOperator? then i == 0 || (!n.opcode.AndAnd? && !n.opcode.OrOr?)
    else if (n.kind.ConditionalOperator? || n.kind.BinaryConditionalOperator? || n.kind.IfStmt? || n.kind.SwitchStmt?
      || n.kind.DoStmt?) then i == 0
    else if n.kind.WhileStmt? then i == |n.inner| - 2
    else n.kind.ForStmt? && (i == 0 || i == 2)
  }

  predicate EvaluatedBefore(n: Node, w: nat, r: nat) {
    && w != r
    && if n.kind.CompoundStmt? then w < r
       else if n.kind.BinaryOperator? then w == 0 && r == 1 && (n.opcode.AndAnd? || n.opcode.OrOr? || n.opcode.Comma?)
       else if (n.kind.ConditionalOperator? || n.kind.BinaryConditionalOperator? || n.kind.IfStmt?
         || n.kind.SwitchStmt?) then w == 0 && r > 0
       else if n.kind.WhileStmt? then w == |n.inner| - 2 && r == |n.inner| - 1
       else if n.kind.DoStmt? then w == 0 && r == 1
       else n.kind.ForStmt? && ((w == 0 && r > 0) || (w == 2 && r > 2))
  }

  /** The children a loop runs again. */
  predicate Repeated(n: Node, i: nat) {
    if n.kind.ForStmt? then |n.inner| == 5 && (i == 2 || i == 3 || i == 4)
    else (n.kind.WhileStmt? || n.kind.DoStmt?) && i < |n.inner|
  }

  predicate IsLabel(n: Node) {
    (n.kind.LabelStmt? || n.kind.CaseStmt? || n.kind.DefaultStmt?)
  }

  /** No statement a jump could enter by stands between the two. */
  ghost predicate Unlabelled(f: Node, w: Path, r: Path) {
    forall l: Path :: Indexed(f, l) && IsLabel(At(f, l)) ==> !(Before(w, l) && Before(l, r))
  }

  /** Walking up from a write to the first node that also holds the read. */
  predicate DominatesUp(f: Node, child: Path, r: Path)
    requires HasNode(f, child)
    decreases |child|
  {
    child != [] &&
    var parent := child[..|child|-1];
    HasPrefix(f, child, |child| - 1);
    if parent <= r then
      |parent| < |r| && EvaluatedBefore(At(f, parent), child[|child|-1], r[|parent|])
    else
      AlwaysEvaluates(At(f, parent), child[|child|-1]) && DominatesUp(f, parent, r)
  }

  ghost predicate Dominates(f: Node, w: Path, r: Path)
    requires HasNode(f, w)
  {
    At(f, w).kind == VarDecl || (Unlabelled(f, w, r) && DominatesUp(f, w, r))
  }

  /** A write that could be the dominating one: before the read and not around it. */
  ghost predicate Candidate(f: Node, x: string, r: Path, w: Path) {
    IsWrite(f, x, w) && Before(w, r) && !(w <= r) && Dominates(f, w, r)
  }

  /** `q` stands in the part the loop at `l` runs again. */
  predicate Inside(f: Node, l: Path, q: Path)
    requires HasNode(f, l)
  {
    |l| < |q| && l <= q && Repeated(At(f, l), q[|l|])
  }

  predicate BackEdge(f: Node, w: Path, r: Path, d: Option<Path>)
    requires HasNode(f, r)
  {
    exists k :: 0 <= k < |r| && BackEdgeAt(f, w, r, d, k)
  }

  predicate BackEdgeAt(f: Node, w: Path, r: Path, d: Option<Path>, k: nat)
    requires HasNode(f, r) && k < |r|
  {
    HasPrefix(f, r, k);
    Inside(f, r[..k], r) && Inside(f, r[..k], w) && (d.None? || !Inside(f, r[..k], d.value))
  }

  /** The writes the value of a read is collected from, given the dominating one. */
  predicate Collected(f: Node, x: string, r: Path, d: Option<Path>, w: Path)
    requires HasNode(f, r)
  {
    && IsWrite(f, x, w)
    && !(w <= r)
    && (|| d == Some(w)
        || (Before(w, r) && (d.None? || Before(d.value, w)))
        || (Before(r, w) && BackEdge(f, w, r, d)))
  }

  // ----- what a run leaves in the variable -----

  /** The last write to `x` once `r`, a run of the node at `p`, is over, if `last` was the
      last one before it. */
  function After(n: Node, x: string, p: Path, r: Run, last: Option<Path>): Option<Path>
    requires Runs(n, r)
    decreases r, |r.steps| + 1
  {
    if r.out == Normal && WritesLocal(n, x) then Some(p) else AfterSteps(n, x, p, r, |r.steps|, last)
  }

  function AfterSteps(n: Node, x: string, p: Path, r: Run, k: nat, last: Option<Path>): Option<Path>
    requires Runs(n, r) && k <= |r.steps|
    decreases r, k
  {
    if k == 0 then last
    else
      var c := r.steps[k-1].child;
      After(n.inner[c], x, p + [c], r.steps[k-1].run, AfterSteps(n, x, p, r, k - 1, last))
  }

  /** Some read of `x` in the run, at `q` below the node, finds the write `v` last (none when
      the run wrote nothing yet). */
  ghost predicate Finds(n: Node, x: string, p: Path, r: Run, last: Option<Path>, q: Path, v: Option<Path>)
    requires Runs(n, r)
    decreases |q|
  {
    if q == [] then ReadsLocal(n, x) && r.out == Normal && v == AfterSteps(n, x, p, r, |r.steps|, last)
    else exists k :: 0 <= k < |r.steps| && r.steps[k].child == q[0] &&
           Finds(n.inner[q[0]], x, p + [q[0]], r.steps[k].run, AfterSteps(n, x, p, r, k, last), q[1..], v)
  }

  // ----- when the rules can be trusted -----

  predicate MentionsLocal(n: Node, x: string) {
    ReadsLocal(n, x) || WritesLocal(n, x) || exists i :: 0 <= i < |n.inner| && MentionsLocal(n.inner[i], x)
  }

  predicate HoldsWrite(n: Node, x: string) {
    WritesLocal(n, x) || exists i :: 0 <= i < |n.inner| && HoldsWrite(n.inner[i], x)
  }

  /** Section 6.5 of ISO/IEC 9899:2011, paragraph 2: of two operands whose order the language
      leaves open, none writes the variable the other reads or writes. */
  ghost predicate Sequenced(n: Node, x: string) {
    && (!Ordered(n) && !n.kind.SwitchStmt? && !Inert(n) ==>
          forall i: nat, j: nat :: Operand(n, i) && Operand(n, j) && i != j && HoldsWrite(n.inner[i], x) ==>
            !MentionsLocal(n.inner[j], x))
    && forall i :: 0 <= i < |n.inner| ==> Sequenced(n.inner[i], x)
  }

  /** No switch and no goto: control enters a statement at its start. */
  predicate Structured(n: Node) {
    !Mentions(n, SwitchStmt) && !Mentions(n, GotoStmt) && !Mentions(n, IndirectGotoStmt)
  }

  /** Clang's arities: a cast or a parenthesis holds one expression, a reference none. */
  predicate Shaped(n: Node) {
    && ((n.kind.ImplicitCastExpr? || n.kind.CStyleCastExpr? || n.kind.ParenExpr? || n.kind.ConstantExpr?) ==>
          |n.inner| <= 1)
    && (n.kind.DeclRefExpr? ==> n.inner == [])
    && forall i :: 0 <= i < |n.inner| ==> Shaped(n.inner[i])
  }

  /** On the way down to the write at `u`, nothing up to it leaves by break or continue. */
  predicate NoEscapeBefore(n: Node, u: Path)
    requires HasNode(n, u)
    decreases |u|
  {
    if u == [] then !Escapes(n) else
    (&& NoEscapeBefore(n.inner[u[0]], u[1..])
     && (InTurn(n) ==> forall i :: 0 <= i < u[0] ==> !Escapes(n.inner[i]))
     && (!Ordered(n) ==> forall i :: 0 <= i < |n.inner| && i != u[0] ==> !Escapes(n.inner[i])))
  }

  /** A write inside a do loop's body is reached even when the body is left early. */
  predicate DoClosed(n: Node, u: Path)
    requires HasNode(n, u)
    decreases |u|
  {
    u == [] ||
    (&& DoClosed(n.inner[u[0]], u[1..])
     && (n.kind.DoStmt? ==> NoEscapeBefore(n.inner[u[0]], u[1..])))
  }

  /** Where the ways to `w` and `r` part. */
  function Fork(w: Path, r: Path): (m: nat)
    ensures m <= |w| && m <= |r| && w[..m] == r[..m]
    ensures m < |w| && m < |r| ==> w[m] != r[m]
    decreases |w|
  {
    if w != [] && r != [] && w[0] == r[0] then
      var m := Fork(w[1..], r[1..]);
      assert w[..m+1] == [w[0]] + w[1..][..m];
      assert r[..m+1] == [r[0]] + r[1..][..m];
      1 + m
    else 0
  }

  /** A declaration is read only in its scope: later in its block, in a later declarator of
      the same statement, or in the for statement whose first part it is. */
  predicate InScope(f: Node, d: Path, r: Path)
    requires HasNode(f, d) && HasNode(f, r)
  {
    var m := Fork(d, r);
    HasPrefix(f, d, m);
    && m < |d| && m < |r|
    && (|| (At(f, d[..m]).kind == DeclStmt && |d| == m + 1 && d[m] < r[m])
        || (At(f, d[..m]).kind == CompoundStmt && |d| == m + 2 && HasPrefix2(f, d, m + 1).kind == DeclStmt
              && d[m] < r[m])
        || (At(f, d[..m]).kind == ForStmt && |d| == m + 2 && HasPrefix2(f, d, m + 1).kind == DeclStmt && d[m] == 0))
  }

  function HasPrefix2(f: Node, d: Path, m: nat): Node
    requires HasNode(f, d) && m <= |d|
  {
    HasPrefix(f, d, m);
    At(f, d[..m])
  }

  /** A write around the read reaches it again around a loop. */
  predicate BlindSpot(f: Node, x: string, r: Path, d: Option<Path>)
    requires HasNode(f, r)
  {
    exists k :: 0 <= k < |r| && BlindSpotAt(f, x, r, d, k)
  }

  predicate BlindSpotAt(f: Node, x: string, r: Path, d: Option<Path>, k: nat)
    requires HasNode(f, r) && k < |r|
  {
    HasPrefix(f, r, k);
    WritesLocal(At(f, r[..k]), x) && BackEdge(f, r[..k], r, d)
  }

  /** The dominating write is not itself inside another write of the variable. */
  predicate Innermost(f: Node, x: string, d: Path)
    requires HasNode(f, d)
  {
    forall k :: 0 <= k < |d| ==> !WritesLocal(HasPrefix2(f, d, k), x)
  }

  /** The read is a for statement's increment, the dominating write its condition, and the
      body, which runs between the two, writes the variable too. */
  predicate BodyBetween(f: Node, x: string, d: Path, r: Path)
    requires HasNode(f, d) && HasNode(f, r)
  {
    var m := Fork(d, r);
    var p := HasPrefix2(f, d, m);
    m < |d| && m < |r| && p.kind.ForStmt? && |p.inner| == 5 && d[m] == 2 && r[m] == 3 && HoldsWrite(p.inner[4], x)
  }

  /** The dominating write runs whenever the statement holding it is left for the read. */
  predicate Reached(f: Node, d: Path, r: Path)
    requires HasNode(f, d)
  {
    var m := Fork(d, r);
    m < |d| ==>
      var p := HasPrefix2(f, d, m);
      assert d == d[..m] + d[m..];
      AtSplit(f, d[..m], d[m..]);
      DoClosed(p, d[m..])
  }

  /** What the rules need of a read and its dominating write. */
  predicate Trusted(f: Node, x: string, r: Path, d: Option<Path>)
    requires HasNode(f, r)
    requires d.Some? ==> HasNode(f, d.value)
  {
    && !BlindSpot(f, x, r, d)
    && (d.Some? ==>
          && Innermost(f, x, d.value)
          && !BodyBetween(f, x, d.value, r)
          && Reached(f, d.value, r)
          && (At(f, d.value).kind == VarDecl ==> InScope(f, d.value, r)))
  }
}
