/** Clang's syntax tree as the C adapter keeps it: one record per node, its children in
    clang's order.  The adapter tells nodes apart by their address; the decoder gives every
    node one parent, so here a node of a tree is named by its path from the root. */
module Ast {

  datatype Option<+T> = None | Some(value: T)

  /** The kinds the analyses look at.  `Absent` is the empty object clang prints for a
      missing part of a for statement; `Attr` is any kind whose name ends in Attr. */
  datatype Kind =
    | CompoundStmt | DeclStmt | ReturnStmt | LabelStmt | CaseStmt | DefaultStmt
    | IfStmt | SwitchStmt | WhileStmt | DoStmt | ForStmt
    | BreakStmt | ContinueStmt | GotoStmt | IndirectGotoStmt
    | ParenExpr | ImplicitCastExpr | CStyleCastExpr | ConstantExpr | ExprWithCleanups
    | UnaryOperator | BinaryOperator | CompoundAssignOperator
    | ConditionalOperator | BinaryConditionalOperator
    | MemberExpr | ArraySubscriptExpr | CallExpr | DeclRefExpr | IntegerLiteral
    | VarDecl | FunctionDecl | RecordDecl | TypedefDecl | EnumDecl
    | Absent | Attr(name: string) | Other(name: string)

  /** The operators the analyses tell apart. */
  datatype Opcode =
    | NoOp | Assign | AndAnd | OrOr | Comma | Increment | Decrement | AddressOf | Dereference | OtherOp(text: string)

  datatype RefKind = VarRef | FunctionRef | ParameterRef | OtherRef

  datatype DeclRef = DeclRef(kind: RefKind, id: string, name: string)

  datatype Node = Node(
    kind: Kind,
    id: string,
    opcode: Opcode,
    value: string,
    storage: string,
    ref: Option<DeclRef>,
    hasInit: bool,      // the declaration carries an initializer
    isArray: bool,      // its printed type, or the desugared one, is an array's
    noReturn: bool,     // its printed type says noreturn
    addressCast: bool,  // a cast between a pointer and an integer
    hasElse: bool,
    inner: seq<Node>)

  type Path = seq<nat>

  /** The path names a node of the tree. */
  predicate HasNode(n: Node, p: Path)
    decreases |p|
  {
    p == [] || (p[0] < |n.inner| && HasNode(n.inner[p[0]], p[1..]))
  }

  function At(n: Node, p: Path): Node
    requires HasNode(n, p)
    decreases |p|
  {
    if p == [] then n else At(n.inner[p[0]], p[1..])
  }

  /** `p` names an ancestor of what `q` names, or the same node. */
  predicate Within(p: Path, q: Path) {
    p <= q
  }

  /** `p` comes before `q` when the tree is read in preorder. */
  predicate Before(p: Path, q: Path)
    decreases |p|
  {
    q != [] && (p == [] || p[0] < q[0] || (p[0] == q[0] && Before(p[1..], q[1..])))
  }

  lemma {:induction false} AtExtend(n: Node, p: Path, i: nat)
    requires HasNode(n, p)
    ensures HasNode(n, p + [i]) <==> i < |At(n, p).inner|
    ensures HasNode(n, p + [i]) ==> At(n, p + [i]) == At(n, p).inner[i]
    decreases |p|
  {
    if p == [] {
      assert p + [i] == [i];
      assert HasNode(n, [i]) <==> (i < |n.inner| && HasNode(n.inner[i], [i][1..]));
    } else {
      assert (p + [i])[1..] == p[1..] + [i];
      AtExtend(n.inner[p[0]], p[1..], i);
    }
  }

  lemma {:induction false} AtSplit(n: Node, p: Path, q: Path)
    ensures HasNode(n, p + q) <==> (HasNode(n, p) && HasNode(At(n, p), q))
    ensures HasNode(n, p + q) ==> At(n, p + q) == At(At(n, p), q)
    decreases |p|
  {
    if p == [] {
      assert p + q == q;
    } else {
      assert (p + q)[1..] == p[1..] + q;
      if p[0] < |n.inner| {
        AtSplit(n.inner[p[0]], p[1..], q);
      }
    }
  }

  lemma {:induction false} HasPrefix(n: Node, p: Path, k: nat)
    requires HasNode(n, p) && k <= |p|
    ensures HasNode(n, p[..k])
  {
    assert p[..k] + p[k..] == p;
    AtSplit(n, p[..k], p[k..]);
  }

  lemma {:induction false} BeforeIrreflexive(p: Path)
    ensures !Before(p, p)
    decreases |p|
  {
    if p != [] { BeforeIrreflexive(p[1..]); }
  }

  lemma {:induction false} BeforeTransitive(p: Path, q: Path, r: Path)
    requires Before(p, q) && Before(q, r)
    ensures Before(p, r)
    decreases |p|
  {
    if p != [] && p[0] == q[0] == r[0] { BeforeTransitive(p[1..], q[1..], r[1..]); }
  }

  lemma {:induction false} BeforeTotal(p: Path, q: Path)
    ensures p == q || Before(p, q) || Before(q, p)
    decreases |p|
  {
    if p != [] && q != [] && p[0] == q[0] {
      BeforeTotal(p[1..], q[1..]);
      if p[1..] == q[1..] { assert p == [p[0]] + p[1..]; assert q == [q[0]] + q[1..]; }
    }
  }

  /** Preorder compares the first child in which two paths part. */
  lemma {:induction false} BeforeBelow(c: Path, a: Path, b: Path)
    ensures Before(c + a, c + b) <==> Before(a, b)
    decreases |c|
  {
    if c == [] {
      assert c + a == a && c + b == b;
    } else {
      assert (c + a)[1..] == c[1..] + a && (c + b)[1..] == c[1..] + b;
      BeforeBelow(c[1..], a, b);
    }
  }

  /** The casts and parentheses that do not change which object an expression names. */
  function Unwrap(n: Node): Node {
    if ((IsCast(n) && !n.addressCast) || IsParen(n)) && |n.inner| > 0 then Unwrap(n.inner[0]) else n
  }

  predicate IsCast(n: Node) {
    n.kind.ImplicitCastExpr? || n.kind.CStyleCastExpr?
  }

  predicate IsParen(n: Node) {
    n.kind.ParenExpr? || n.kind.ConstantExpr?
  }

  /** The variable an expression names itself. */
  function LocalRef(n: Node): Option<string> {
    var inner := Unwrap(n);
    if inner.kind.DeclRefExpr? && inner.ref.Some? && inner.ref.value.kind.VarRef?
    then Some(inner.ref.value.id) else None
  }

  /** The reference a value makes to a function: f, &f, *f, (void *)f. */
  function Designator(n: Node): Option<Node> {
    Designated(Unwrap(n))
  }

  function Designated(n: Node): Option<Node> {
    if n.kind.UnaryOperator? && (n.opcode.AddressOf? || n.opcode.Dereference?) && |n.inner| == 1 then
      UnwrapShrinks(n.inner[0]);
      Designated(Unwrap(n.inner[0]))
    else if n.kind.DeclRefExpr? && n.ref.Some? && n.ref.value.kind.FunctionRef? then Some(n)
    else None
  }

  lemma {:induction false} UnwrapShrinks(n: Node)
    ensures Unwrap(n) == n || Unwrap(n) < n
  {
    if ((IsCast(n) && !n.addressCast) || IsParen(n)) && |n.inner| > 0 { UnwrapShrinks(n.inner[0]); }
  }
}
