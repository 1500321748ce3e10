/** What the listed writes store (internal/cproject/locals.go:62-84): the value of a write is the
    part of it that every run of the write evaluates for the variable. */
module LocalsValues {
  import opened Ast
  import opened Execution
  import opened LocalsRules
  import opened LocalsFollow

  predicate IsBlank(n: Node) {
    n.kind.Absent? || n.kind.Attr?
  }

  /** The child `c` of an assignment is not the side that says where to write: it is the one
      operand the assignment has. */
  predicate IsAssigned(n: Node, c: nat) {
    && n.kind.BinaryOperator? && n.opcode.Assign? && |n.inner| == 2 && LocalRef(n.inner[0]).Some?
    && forall i :: 0 <= i <= |n.inner| ==> (Operand(n, i) <==> i == c)
  }

  /** The child `c` of a declaration is its initializer: the last that is neither missing nor an
      attribute. */
  predicate IsInitial(n: Node, c: nat)
    requires c < |n.inner|
  {
    && n.kind.VarDecl? && n.hasInit && !IsBlank(n.inner[c])
    && forall j :: c < j < |n.inner| ==> IsBlank(n.inner[j])
  }

  /** The child `c` is what the write stores. */
  ghost predicate Stores(n: Node, c: nat) {
    && c < |n.inner| && (IsAssigned(n, c) || IsInitial(n, c))
    && forall run :: Runs(n, run) && run.out == Normal ==> Ran(run.steps, c)
  }

  /** The write computes its value from the old one. */
  predicate IsUpdate(n: Node) {
    n.kind.CompoundAssignOperator? || (n.kind.UnaryOperator? && (n.opcode.Increment? || n.opcode.Decrement?))
  }

  lemma {:induction false} LastValueIs(inner: seq<Node>)
    requires LastValue(inner).Some?
    ensures var c := LastValue(inner).value;
            c < |inner| && !IsBlank(inner[c]) && forall j :: c < j < |inner| ==> IsBlank(inner[j])
  {
    if IsBlank(inner[|inner|-1]) { LastValueIs(inner[..|inner|-1]); }
  }

  lemma {:induction false} InitialStored(n: Node, x: string, c: nat)
    requires n.kind.VarDecl? && WritesLocal(n, x) && Initializer(n) == Some(c)
    ensures Stores(n, c)
  {
    LastValueIs(n.inner);
    forall run | Runs(n, run) && run.out == Normal ensures Ran(run.steps, c) { assert Evaluates(n, c); }
  }

  lemma {:induction false} AssignedStored(n: Node, x: string)
    requires n.kind.BinaryOperator? && WritesLocal(n, x)
    ensures Stores(n, 1)
  {
    forall run | Runs(n, run) && run.out == Normal ensures Ran(run.steps, 1) { assert Evaluates(n, 1); }
  }

  /** Every listed write says what it stores: a child of its node that every run which completes
      the write has evaluated, or nothing exactly where the old value goes into the new one. */
  lemma {:induction false} AnswerValues(f: Node, x: string, r: Path, d: Option<Path>, a: Reaching, i: nat)
    requires HasNode(f, r) && Answers(f, x, r, d, a) && i < |a.writes|
    ensures var w := a.writes[i];
            && HasNode(f, w.node)
            && (w.value.None? <==> IsUpdate(At(f, w.node)))
            && (w.value.Some? ==> exists c :: Stores(At(f, w.node), c) && w.value.value == w.node + [c])
  {
    var w := a.writes[i];
    var n := At(f, w.node);
    if n.kind.VarDecl? {
      InitialStored(n, x, Initializer(n).value);
    } else if n.kind.BinaryOperator? {
      AssignedStored(n, x);
      assert Stores(n, 1);
    }
  }

  /** Automatic storage, and no array. */
  predicate IsPlainVariable(n: Node, x: string) {
    n.kind.VarDecl? && n.storage == "" && !n.isArray && n.id == x
  }

  /** &x */
  predicate IsAddressOf(n: Node, x: string) {
    n.kind.UnaryOperator? && n.opcode.AddressOf? && |n.inner| == 1 && LocalRef(n.inner[0]) == Some(x)
  }

  /** What is followed: a local that the function declares, that is neither static nor an array,
      whose address is nowhere taken, that is written and is not being followed already. */
  lemma {:induction false} FollowedExactly(f: Node, x: string, r: Path, active: set<string>)
    ensures Followable(f, x, r, active) <==>
            && Indexed(f, r) && x !in active
            && (exists p :: Indexed(f, p) && IsPlainVariable(At(f, p), x))
            && (forall p :: Indexed(f, p) ==> !IsAddressOf(At(f, p), x))
            && (exists w :: IsWrite(f, x, w))
  {
    forall p | Indexed(f, p) ensures DeclaresAt(f, p, x) <==> IsPlainVariable(At(f, p), x) {}
    forall p | Indexed(f, p) ensures TakesAt(f, p, x) <==> IsAddressOf(At(f, p), x) {}
    if p :| Indexed(f, p) && IsPlainVariable(At(f, p), x) { assert DeclaresAt(f, p, x); }
    if p :| Indexed(f, p) && DeclaresAt(f, p, x) { assert IsPlainVariable(At(f, p), x); }
    if p :| Indexed(f, p) && IsAddressOf(At(f, p), x) { assert TakesAt(f, p, x); }
    if p :| Indexed(f, p) && TakesAt(f, p, x) { assert IsAddressOf(At(f, p), x); }
  }

  // ----- what writes and what names -----

  /** A write of x declares it with a value, or has x itself on its left: an assignment, a compound one,
      an increment or decrement. */
  lemma {:induction false} WritesExactly(n: Node, x: string)
    ensures WritesLocal(n, x) <==>
            || (IsPlainVariable(n, x) && exists c :: 0 <= c < |n.inner| && IsInitial(n, c))
            || (n.inner != [] && LocalRef(n.inner[0]) == Some(x)
                && (|| n.kind == CompoundAssignOperator
                    || (n.kind == BinaryOperator && n.opcode == Assign && |n.inner| == 2)
                    || (n.kind == UnaryOperator && n.opcode in {Increment, Decrement} && |n.inner| == 1)))
  {
    if n.kind.VarDecl? && n.hasInit {
      if LastValue(n.inner).Some? {
        LastValueIs(n.inner);
        assert IsInitial(n, LastValue(n.inner).value);
      }
      if c :| 0 <= c < |n.inner| && IsInitial(n, c) { SomeValue(n.inner, c); }
    }
  }

  lemma {:induction false} SomeValue(inner: seq<Node>, c: nat)
    requires c < |inner| && !IsBlank(inner[c])
    ensures LastValue(inner).Some?
  {
    if IsBlank(inner[|inner|-1]) { SomeValue(inner[..|inner|-1], c); }
  }

  predicate IsWrapper(n: Node) {
    && n.inner != []
    && (n.kind in {ParenExpr, ConstantExpr} || (n.kind in {ImplicitCastExpr, CStyleCastExpr} && !n.addressCast))
  }

  /** What is under the casts and parentheses that do not change which object is named. */
  lemma {:induction false} UnwrapExactly(n: Node) returns (down: Path)
    ensures HasNode(n, down) && At(n, down) == Unwrap(n) && !IsWrapper(Unwrap(n))
    ensures forall k :: 0 <= k < |down| ==> down[k] == 0 && HasNode(n, down[..k]) && IsWrapper(At(n, down[..k]))
  {
    down := [];
    if IsWrapper(n) {
      var below := UnwrapExactly(n.inner[0]);
      down := [0] + below;
      forall k | 0 <= k < |down| ensures down[k] == 0 && HasNode(n, down[..k]) && IsWrapper(At(n, down[..k])) {
        if k > 0 { assert down[..k] == [0] + below[..k-1]; }
      }
    }
  }

  /** An expression names the variable its reference under casts and parentheses refers to. */
  lemma {:induction false} NamesExactly(n: Node, x: string)
    ensures LocalRef(n) == Some(x) <==> exists name :: Refers(Unwrap(n), DeclRef(VarRef, x, name))
  {
    if LocalRef(n) == Some(x) { assert Refers(Unwrap(n), DeclRef(VarRef, x, Unwrap(n).ref.value.name)); }
  }

  predicate Refers(n: Node, ref: DeclRef) {
    n.kind == DeclRefExpr && n.ref == Some(ref)
  }
}
