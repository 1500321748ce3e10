/** What the rules for locals cannot be trusted with: for each condition of `Trusted` but the
    language's own scope rule, functions whose runs leave in a local, at a read the source
    follows, a write its answer does not list, though the answer is certain. */
module LocalsLimits {
  import opened Ast
  import opened Execution
  import opened LocalsRules
  import LocalsIndex
  import LocalsSound
  import LocalsFollow

  /** A run of the body finds the write `w` at the read, at `u` in the `i`-th statement. */
  ghost predicate Shows(b: Node, x: string, i: nat, u: Path, run: Run, w: Path) {
    Runs(b, run) && Finds(b, x, [0], run, None, [i] + u, Some(w))
  }

  /** The source follows the read, and its answer is certain and does not list `w`. */
  ghost predicate Unlisted(f: Node, x: string, r: Path, w: Path) {
    && LocalsFollow.Followable(f, x, r, {})
    && forall d, a :: LocalsFollow.Chosen(f, x, r, d) && LocalsFollow.Answers(f, x, r, d, a) ==>
      !a.unknown && !LocalsFollow.Listed(a.writes, w)
  }

  /** The read, in a function the theorem is about. */
  ghost predicate Reads(f: Node, x: string, r: Path) {
    Indexed(f, r) && ReadsLocal(At(f, r), x) && LocalsSound.Regular(f, x)
  }

  /** The node at `u` below the `i`-th statement of a function's body. */
  function In(i: nat, u: Path): Path {
    [0] + ([i] + u)
  }

  /** A run of the function finds at a read, at `u` in the `i`-th statement, a write that the
      answer leaves out.  Nothing is wrong with the function but what `Trusted` asks. */
  ghost predicate Misses(f: Node, b: Node, x: string, i: nat, u: Path, run: Run, w: Path) {
    && f.kind.FunctionDecl? && f.inner == [b] && Reads(f, x, In(i, u))
    && Unlisted(f, x, In(i, u), w) && Shows(b, x, i, u, run, w)
  }

  // ----- code the theorem is about -----

  /** Of two operands whose order is open, none writes what the other mentions. */
  ghost predicate Parted(n: Node, x: string) {
    forall i: nat, j: nat :: Operand(n, i) && Operand(n, j) && i != j && HoldsWrite(n.inner[i], x) ==>
      !MentionsLocal(n.inner[j], x)
  }

  predicate Takes(n: Node, x: string) {
    LocalsIndex.TakesAddress(n) && LocalRef(n.inner[0]) == Some(x)
  }

  /** Nothing in the node itself is left out of the theorem or of the index: no jump, no
      label, no open order, and not the variable's address. */
  ghost predicate Calm(n: Node, x: string) {
    && !n.kind.SwitchStmt? && !n.kind.GotoStmt? && !n.kind.IndirectGotoStmt? && !IsLabel(n) && !Takes(n, x)
    && (IsCast(n) || IsParen(n) ==> |n.inner| <= 1)
    && (n.kind.DeclRefExpr? ==> n.inner == [])
    && (Ordered(n) || Inert(n) || Parted(n, x))
  }

  ghost predicate Tidy(n: Node, x: string) {
    Calm(n, x) && forall i :: 0 <= i < |n.inner| ==> Tidy(n.inner[i], x)
  }

  lemma {:induction false} TidyLacks(n: Node, x: string, kind: Kind)
    requires Tidy(n, x) && (kind.SwitchStmt? || kind.GotoStmt? || kind.IndirectGotoStmt?)
    ensures !Mentions(n, kind)
  {
    forall i | 0 <= i < |n.inner| ensures !Mentions(n.inner[i], kind) { TidyLacks(n.inner[i], x, kind); }
  }

  lemma {:induction false} TidySequenced(n: Node, x: string)
    requires Tidy(n, x)
    ensures Sequenced(n, x) && Shaped(n)
  {
    forall i | 0 <= i < |n.inner| ensures Sequenced(n.inner[i], x) && Shaped(n.inner[i]) {
      TidySequenced(n.inner[i], x);
    }
  }

  lemma {:induction false} TidyRegular(n: Node, x: string)
    requires Tidy(n, x)
    ensures LocalsSound.Regular(n, x)
  {
    TidyLacks(n, x, SwitchStmt);
    TidyLacks(n, x, GotoStmt);
    TidyLacks(n, x, IndirectGotoStmt);
    TidySequenced(n, x);
  }

  lemma {:induction false} TidyAt(n: Node, x: string, p: Path)
    requires Tidy(n, x) && HasNode(n, p)
    ensures Calm(At(n, p), x)
    decreases |p|
  {
    if p != [] { TidyAt(n.inner[p[0]], x, p[1..]); }
  }

  lemma {:induction false} NoLabel(f: Node, x: string, w: Path, r: Path)
    requires Tidy(f, x)
    ensures Unlabelled(f, w, r)
  {
    forall l: Path | Indexed(f, l) ensures !IsLabel(At(f, l)) { TidyAt(f, x, l); }
  }

  lemma {:induction false} WritesAt(n: Node, x: string, u: Path)
    requires HasNode(n, u) && WritesLocal(At(n, u), x)
    ensures HoldsWrite(n, x)
    decreases |u|
  {
    if u != [] { WritesAt(n.inner[u[0]], x, u[1..]); }
  }

  /** One step down towards a write. */
  lemma {:induction false} WriteStep(n: Node, x: string, u: Path)
    requires HasNode(n, u) && WritesLocal(At(n, u), x)
    ensures u == [] ==> WritesLocal(n, x)
    ensures u != [] ==> u[0] < |n.inner| && HoldsWrite(n.inner[u[0]], x) && u == [u[0]] + u[1..]
    ensures u != [] ==> HasNode(n.inner[u[0]], u[1..]) && WritesLocal(At(n.inner[u[0]], u[1..]), x)
  {
    if u != [] { WritesAt(n.inner[u[0]], x, u[1..]); }
  }

  lemma {:induction false} Unwritten(n: Node, x: string, p: Path, run: Run, v: Option<Path>)
    requires Runs(n, run) && !HoldsWrite(n, x)
    ensures After(n, x, p, run, v) == v
  {
    LocalsSound.AfterWithin(n, x, p, run, v);
    if After(n, x, p, run, v) != v { LocalsSound.WroteHolds(n, x, After(n, x, p, run, v).value[|p|..]); }
  }

  // ----- small trees -----

  predicate Is(n: Node, kind: Kind, inner: seq<Node>) {
    n.kind == kind && n.inner == inner
  }

  const Done := Run([], None, Normal)

  function One(child: nat, run: Run): Run {
    Run([Step(child, run)], None, Normal)
  }

  ghost predicate Completes(n: Node, run: Run) {
    Runs(n, run) && run.out == Normal
  }

  /** Any code that does not write the variable and can complete. */
  ghost predicate IsValue(n: Node, x: string) {
    !HoldsWrite(n, x) && exists run :: Completes(n, run)
  }

  lemma {:induction false} ValueRuns(n: Node, x: string) returns (run: Run)
    requires IsValue(n, x)
    ensures Completes(n, run) && !HoldsWrite(n, x)
  {
    run :| Completes(n, run);
  }

  /** A literal is one. */
  lemma {:induction false} LiteralIsValue(n: Node, x: string)
    requires n.kind.IntegerLiteral? && n.inner == []
    ensures IsValue(n, x)
  {
    assert Completes(n, Done);
  }

  /** A use of the variable. */
  predicate IsName(n: Node, x: string) {
    n.kind.DeclRefExpr? && n.inner == [] && n.ref.Some? && n.ref.value.kind.VarRef? && n.ref.value.id == x
  }

  lemma {:induction false} NameFacts(n: Node, x: string)
    requires IsName(n, x)
    ensures ReadsLocal(n, x) && !HoldsWrite(n, x) && Completes(n, Done) && LocalRef(n) == Some(x)
  {
  }

  lemma {:induction false} UseFinds(n: Node, x: string, p: Path, last: Option<Path>)
    requires IsName(n, x)
    ensures Completes(n, Done) && Finds(n, x, p, Done, last, [], last)
  {
  }

  /** x = value */
  predicate IsSet(n: Node, x: string, name: Node, value: Node) {
    Is(n, BinaryOperator, [name, value]) && n.opcode.Assign? && IsName(name, x)
  }

  lemma {:induction false} OneRuns(n: Node, c: nat, run: Run)
    requires c < |n.inner| && Completes(n.inner[c], run) && !Ordered(n) && !n.kind.SwitchStmt? && !Inert(n)
    requires AssignsLocal(n) ==> c != 0
    requires forall j :: 0 <= j < |n.inner| && Evaluates(n, j) ==> j == c
    requires Completion(n) == Normal
    ensures Completes(n, One(c, run))
  {
    assert One(c, run).steps[0].child == c;
    assert Ran(One(c, run).steps, c);
  }

  lemma {:induction false} SetRuns(n: Node, x: string, name: Node, value: Node, run: Run)
    requires IsSet(n, x, name, value) && Completes(value, run)
    ensures Completes(n, One(1, run)) && WritesLocal(n, x)
  {
    NameFacts(name, x);
    assert n.inner[1] == value;
    OneRuns(n, 1, run);
  }

  /** A write that holds no other. */
  ghost predicate IsPlainSet(n: Node, x: string) {
    |n.inner| == 2 && IsSet(n, x, n.inner[0], n.inner[1]) && IsValue(n.inner[1], x)
  }

  lemma {:induction false} PlainSetRuns(n: Node, x: string) returns (run: Run)
    requires IsPlainSet(n, x)
    ensures WritesLocal(n, x) && Completes(n, run)
  {
    run := ValueRuns(n.inner[1], x);
    SetRuns(n, x, n.inner[0], n.inner[1], run);
    run := One(1, run);
  }

  lemma {:induction false} PlainSetWrite(n: Node, x: string, u: Path)
    requires IsPlainSet(n, x) && HasNode(n, u) && WritesLocal(At(n, u), x)
    ensures u == []
  {
    var run := ValueRuns(n.inner[1], x);
    NameFacts(n.inner[0], x);
    WriteStep(n, x, u);
  }

  /** The read stands in the child run at step `k`. */
  lemma {:induction false} FindsAt(n: Node, x: string, p: Path, run: Run, last: Option<Path>, k: nat, c: nat, u: Path,
                                   v: Option<Path>)
    requires Runs(n, run) && k < |run.steps| && run.steps[k].child == c
    requires Finds(n.inner[c], x, p + [c], run.steps[k].run, AfterSteps(n, x, p, run, k, last), u, v)
    ensures Finds(n, x, p, run, last, [c] + u, v)
  {
    assert ([c] + u)[1..] == u;
  }

  // ----- a function that declares the variable first -----

  /** T x; or T x = value; */
  predicate IsLocal(decl: Node, x: string) {
    decl.kind.DeclStmt? && |decl.inner| == 1 && Declares(decl.inner[0]) && decl.inner[0].id == x
  }

  /** The body is a block, the first of whose statements declares the variable. */
  ghost predicate Frame(f: Node, b: Node, items: seq<Node>, x: string) {
    Is(f, FunctionDecl, [b]) && Is(b, CompoundStmt, items) && items != [] && IsLocal(items[0], x) && Tidy(b, x)
  }

  lemma {:induction false} FrameTidy(f: Node, b: Node, items: seq<Node>, x: string)
    requires Frame(f, b, items, x)
    ensures Tidy(f, x) && LocalsSound.Regular(f, x)
  {
    TidyRegular(f, x);
  }

  /** No declaration stands in the way. */
  predicate Open(n: Node, u: Path)
    decreases |u|
  {
    u == [] || (!Inert(n) && u[0] < |n.inner| && Open(n.inner[u[0]], u[1..]))
  }

  lemma {:induction false} OpenHas(n: Node, u: Path)
    requires Open(n, u)
    ensures HasNode(n, u)
    decreases |u|
  {
    if u != [] { OpenHas(n.inner[u[0]], u[1..]); }
  }

  lemma {:induction false} OpenEnters(n: Node, u: Path, k: nat)
    requires Open(n, u) && k < |u|
    ensures HasNode(n, u) && HasNode(n, u[..k]) && !Inert(At(n, u[..k]))
    decreases |u|
  {
    OpenHas(n, u);
    HasPrefix(n, u, k);
    if k > 0 {
      OpenEnters(n.inner[u[0]], u[1..], k - 1);
      assert u[..k][1..] == u[1..][..k-1];
    }
  }

  lemma {:induction false} FrameIndexed(f: Node, b: Node, items: seq<Node>, i: nat, u: Path)
    requires Is(f, FunctionDecl, [b]) && Is(b, CompoundStmt, items) && i < |items| && Open(items[i], u)
    ensures HasNode(items[i], u) && Indexed(f, In(i, u)) && At(f, In(i, u)) == At(items[i], u)
  {
    var p := In(i, u);
    assert p[1..] == [i] + u && p[1..][1..] == u;
    OpenHas(items[i], u);
    assert Open(b, p[1..]);
    assert HasNode(f, p);
    forall k | 0 < k < |p| ensures Enters(f, p, k) {
      OpenEnters(b, p[1..], k - 1);
      HasPrefix(f, p, k);
      assert p[..k][1..] == p[1..][..k-1];
    }
  }

  lemma {:induction false} FrameReads(f: Node, b: Node, items: seq<Node>, x: string, i: nat, u: Path)
    requires Frame(f, b, items, x) && i < |items| && Open(items[i], u) && HasNode(items[i], u)
             && ReadsLocal(At(items[i], u), x)
    ensures Reads(f, x, In(i, u))
  {
    FrameTidy(f, b, items, x);
    FrameIndexed(f, b, items, i, u);
  }

  lemma {:induction false} FrameDeclares(f: Node, b: Node, items: seq<Node>, x: string)
    requires Frame(f, b, items, x)
    ensures Indexed(f, In(0, [0])) && LocalsFollow.DeclaresAt(f, In(0, [0]), x)
    ensures At(f, In(0, [0])) == items[0].inner[0]
  {
    assert Open(items[0], [0]) && [0][1..] == [];
    FrameIndexed(f, b, items, 0, [0]);
  }

  lemma {:induction false} FrameFollowed(f: Node, b: Node, items: seq<Node>, x: string, r: Path, w: Path)
    requires Frame(f, b, items, x) && Indexed(f, r) && IsWrite(f, x, w)
    ensures LocalsFollow.Followable(f, x, r, {})
  {
    FrameDeclares(f, b, items, x);
    FrameTidy(f, b, items, x);
    forall p | Indexed(f, p) ensures !LocalsFollow.TakesAt(f, p, x) { TidyAt(f, x, p); }
  }

  /** Some write could be the dominating one, and whichever is, `w` is not collected. */
  lemma {:induction false} FrameMisses(f: Node, b: Node, items: seq<Node>, x: string, i: nat, u: Path, e: Path,
                                       run: Run, w: Path)
    requires Frame(f, b, items, x) && Reads(f, x, In(i, u)) && Candidate(f, x, In(i, u), e)
    requires forall d :: LocalsFollow.Chosen(f, x, In(i, u), Some(d)) ==> !Collected(f, x, In(i, u), Some(d), w)
    requires Shows(b, x, i, u, run, w)
    ensures Misses(f, b, x, i, u, run, w)
  {
    var r := In(i, u);
    FrameFollowed(f, b, items, x, r, e);
    forall d, a | LocalsFollow.Chosen(f, x, r, d) && LocalsFollow.Answers(f, x, r, d, a)
      ensures !a.unknown && !LocalsFollow.Listed(a.writes, w)
    {
      assert d.Some? && d == Some(d.value);
    }
  }

  lemma {:induction false} BeforeOneWay(p: Path, q: Path)
    requires Before(p, q)
    ensures !Before(q, p) && p != q
  {
    BeforeIrreflexive(p);
    if Before(q, p) { BeforeTransitive(p, q, p); }
  }

  lemma {:induction false} ChosenOnce(f: Node, x: string, r: Path, d: Path, e: Path)
    requires LocalsFollow.Chosen(f, x, r, Some(d)) && LocalsFollow.Chosen(f, x, r, Some(e))
    ensures d == e
  {
    if d != e { BeforeOneWay(d, e); }
  }

  /** The same with the dominating write known. */
  lemma {:induction false} FrameMissesBy(f: Node, b: Node, items: seq<Node>, x: string, i: nat, u: Path, d: Path,
                                         run: Run, w: Path)
    requires Frame(f, b, items, x) && Reads(f, x, In(i, u)) && LocalsFollow.Chosen(f, x, In(i, u), Some(d))
    requires !Collected(f, x, In(i, u), Some(d), w) && Shows(b, x, i, u, run, w)
    ensures Misses(f, b, x, i, u, run, w)
  {
    forall e | LocalsFollow.Chosen(f, x, In(i, u), Some(e)) ensures !Collected(f, x, In(i, u), Some(e), w) {
      ChosenOnce(f, x, In(i, u), e, d);
    }
    FrameMisses(f, b, items, x, i, u, d, run, w);
  }

  /** The same of a write around the read, whichever dominates. */
  lemma {:induction false} AroundMisses(f: Node, b: Node, items: seq<Node>, x: string, i: nat, u: Path, e: Path,
                                        run: Run, w: Path)
    requires Frame(f, b, items, x) && Reads(f, x, In(i, u)) && Candidate(f, x, In(i, u), e) && w <= In(i, u)
    requires Shows(b, x, i, u, run, w)
    ensures Misses(f, b, x, i, u, run, w)
  {
    FrameMisses(f, b, items, x, i, u, e, run, w);
  }

  // ----- places in the block -----

  lemma {:induction false} Apart(i: nat, u: Path, k: nat, v: Path)
    requires i < k
    ensures Before(In(i, u), In(k, v)) && !(In(i, u) <= In(k, v))
  {
    BeforeBelow([0], [i] + u, [k] + v);
    assert In(i, u)[1] == i && In(k, v)[1] == k;
  }

  lemma {:induction false} Below(i: nat, u: Path, v: Path)
    ensures Before(In(i, u), In(i, v)) <==> Before(u, v)
  {
    BeforeBelow([0], [i] + u, [i] + v);
    BeforeBelow([i], u, v);
  }

  lemma {:induction false} Around(i: nat, u: Path, v: Path)
    ensures In(i, u) <= In(i, u + v)
  {
    assert In(i, u + v) == In(i, u) + v;
  }

  /** A write stands in one of the statements. */
  lemma {:induction false} FrameWrite(f: Node, b: Node, items: seq<Node>, x: string, w: Path) returns (k: nat, q: Path)
    requires Frame(f, b, items, x) && IsWrite(f, x, w)
    ensures w == In(k, q) && k < |items|
    ensures HasNode(items[k], q) && WritesLocal(At(items[k], q), x) && HoldsWrite(items[k], x)
  {
    WriteStep(f, x, w);
    WriteStep(b, x, w[1..]);
    k, q := w[1], w[2..];
    assert w == [w[0]] + ([w[1]] + w[2..]);
  }

  /** A write before the read stands before the `i`-th statement or in one from there up to the
      read. */
  lemma {:induction false} WriteWhere(f: Node, b: Node, items: seq<Node>, x: string, i: nat, u: Path, j: nat,
                                      v: Path, w: Path) returns (k: nat, q: Path)
    requires Frame(f, b, items, x) && IsWrite(f, x, w) && Before(w, In(j, v))
    ensures w == In(k, q) && k <= j && k < |items|
    ensures HasNode(items[k], q) && WritesLocal(At(items[k], q), x) && HoldsWrite(items[k], x)
    ensures k < i ==> Before(w, In(i, u))
  {
    k, q := FrameWrite(f, b, items, x, w);
    if k < i { Apart(k, q, i, u); }
    if k > j { Apart(j, v, k, q); BeforeOneWay(In(j, v), w); }
  }

  lemma {:induction false} UpAlways(f: Node, p: Path, u: Path, r: Path)
    requires HasNode(f, p) && HasNode(f, p + u) && HasNode(At(f, p), u) && LocalsSound.AlwaysChain(At(f, p), u)
    requires !(p <= r) && DominatesUp(f, p, r)
    ensures DominatesUp(f, p + u, r)
    decreases |u|
  {
    if u == [] { assert p + u == p; }
    else {
      var c := p + [u[0]];
      AtExtend(f, p, u[0]);
      assert c[..|c|-1] == p && c[|c|-1] == u[0];
      assert c + u[1..] == p + u;
      UpAlways(f, c, u[1..], r);
    }
  }

  lemma {:induction false} FrameAt(f: Node, b: Node, items: seq<Node>, i: nat)
    requires Is(f, FunctionDecl, [b]) && Is(b, CompoundStmt, items) && i < |items|
    ensures HasNode(f, [0]) && At(f, [0]) == b && HasNode(f, [0] + [i]) && At(f, [0] + [i]) == items[i]
  {
    AtExtend(f, [], 0);
    assert [] + [0] == [0] && f.inner[0] == b;
    AtExtend(f, [0], i);
  }

  lemma {:induction false} FrameDominates(f: Node, b: Node, items: seq<Node>, i: nat, u: Path, j: nat)
    requires Is(f, FunctionDecl, [b]) && Is(b, CompoundStmt, items) && i < j < |items| && HasNode(items[i], u)
             && LocalsSound.AlwaysChain(items[i], u)
    ensures HasNode(f, In(i, u)) && DominatesUp(f, In(i, u), In(j, []))
  {
    var r, p := In(j, []), [0] + [i];
    FrameAt(f, b, items, i);
    AtSplit(f, p, u);
    assert p + u == In(i, u) && p[..1] == [0] && r == [0] + [j];
    UpAlways(f, p, u, r);
  }

  /** A write always evaluated in its statement dominates a read in a later statement. */
  lemma {:induction false} FrameCandidate(f: Node, b: Node, items: seq<Node>, x: string, i: nat, u: Path, j: nat)
    requires Frame(f, b, items, x) && i < j < |items| && Open(items[i], u) && HasNode(items[i], u)
    requires LocalsSound.AlwaysChain(items[i], u) && WritesLocal(At(items[i], u), x)
    ensures Candidate(f, x, In(j, []), In(i, u))
  {
    FrameTidy(f, b, items, x);
    FrameIndexed(f, b, items, i, u);
    FrameDominates(f, b, items, i, u, j);
    NoLabel(f, x, In(i, u), In(j, []));
    Apart(i, u, j, []);
  }

  /** A write before the chosen one is not collected. */
  lemma {:induction false} Overruled(f: Node, x: string, r: Path, d: Path, w: Path)
    requires HasNode(f, r) && Before(w, d) && Before(w, r)
    ensures !Collected(f, x, r, Some(d), w)
  {
    BeforeOneWay(w, d);
    BeforeOneWay(w, r);
  }

  // ----- runs of the block -----

  /** Runs of the first statements, each of which completes. */
  ghost predicate Prior(items: seq<Node>, runs: seq<Run>) {
    |runs| <= |items| && forall k :: 0 <= k < |runs| ==> Completes(items[k], runs[k])
  }

  function Turns(runs: seq<Run>): (steps: seq<Step>)
    ensures |steps| == |runs| && forall k :: 0 <= k < |runs| ==> steps[k] == Step(k, runs[k])
  {
    if runs == [] then [] else Turns(runs[..|runs|-1]) + [Step(|runs| - 1, runs[|runs|-1])]
  }

  /** What they leave in the variable. */
  ghost function Left(items: seq<Node>, x: string, runs: seq<Run>): Option<Path>
    requires Prior(items, runs)
  {
    if runs == [] then None
    else
      var k := |runs| - 1;
      After(items[k], x, [0] + [k], runs[k], Left(items, x, runs[..k]))
  }

  lemma {:induction false} TurnsRun(b: Node, items: seq<Node>, runs: seq<Run>, last: Run)
    requires Is(b, CompoundStmt, items) && Prior(items, runs) && |runs| < |items| && Runs(items[|runs|], last)
    ensures Runs(b, Run(Turns(runs + [last]), None, Cut))
  {
    var all := Run(Turns(runs + [last]), None, Cut);
    forall k | 0 <= k <= |runs|
      ensures all.steps[k].child == k && Runs(items[k], all.steps[k].run)
      ensures k < |runs| ==> all.steps[k].run.out == Normal
    {
      if k < |runs| { assert (runs + [last])[k] == runs[k]; }
    }
    assert Control(b, all);
  }

  lemma {:induction false} TurnsLeave(b: Node, items: seq<Node>, x: string, runs: seq<Run>, all: Run, k: nat)
    requires Is(b, CompoundStmt, items) && Prior(items, runs) && Runs(b, all) && k <= |runs| <= |all.steps|
    requires forall j :: 0 <= j < |runs| ==> all.steps[j] == Step(j, runs[j])
    ensures AfterSteps(b, x, [0], all, k, None) == Left(items, x, runs[..k])
  {
    if k > 0 {
      TurnsLeave(b, items, x, runs, all, k - 1);
      assert runs[..k][..k-1] == runs[..k-1];
    }
  }

  /** The block watched up to the read in the statement after them. */
  lemma {:induction false} BlockShows(b: Node, items: seq<Node>, x: string, runs: seq<Run>, last: Run, u: Path, v: Path)
    returns (all: Run)
    requires Is(b, CompoundStmt, items) && Prior(items, runs) && |runs| < |items| && Runs(items[|runs|], last)
    requires Finds(items[|runs|], x, [0] + [|runs|], last, Left(items, x, runs), u, Some(v))
    ensures Shows(b, x, |runs|, u, all, v)
  {
    all := Run(Turns(runs + [last]), None, Cut);
    TurnsRun(b, items, runs, last);
    forall j | 0 <= j < |runs| ensures all.steps[j] == Step(j, runs[j]) { assert (runs + [last])[j] == runs[j]; }
    TurnsLeave(b, items, x, runs, all, |runs|);
    assert runs[..|runs|] == runs;
    FindsAt(b, x, [0], all, None, |runs|, |runs|, u, Some(v));
  }

  /** One more statement that completes. */
  lemma {:induction false} PriorNext(items: seq<Node>, x: string, runs: seq<Run>, run: Run)
    requires Prior(items, runs) && |runs| < |items| && Completes(items[|runs|], run)
    ensures Prior(items, runs + [run])
    ensures Left(items, x, runs + [run]) == After(items[|runs|], x, [0] + [|runs|], run, Left(items, x, runs))
  {
    assert (runs + [run])[..|runs|] == runs;
  }

  // ----- T x = ...; while (...) x++; -----

  predicate IsIncrement(inc: Node, name: Node, x: string) {
    Is(inc, UnaryOperator, [name]) && inc.opcode.Increment? && IsName(name, x)
  }

  ghost predicate IsCounting(loop: Node, cond: Node, inc: Node, x: string) {
    Is(loop, WhileStmt, [cond, inc]) && IsValue(cond, x)
  }

  lemma {:induction false} IncrementFacts(inc: Node, name: Node, x: string, p: Path, v: Option<Path>)
    requires IsIncrement(inc, name, x)
    ensures WritesLocal(inc, x) && Completes(inc, One(0, Done)) && Finds(inc, x, p, One(0, Done), v, [0], v)
  {
    NameFacts(name, x);
    OneRuns(inc, 0, Done);
    UseFinds(name, x, p + [0], v);
    assert One(0, Done).steps[0].child == 0 && [0][1..] == [];
  }

  function LoopRun(c: Run): Run {
    Run([Step(0, c), Step(1, One(0, Done)), Step(0, c), Step(1, One(0, Done))], None, Cut)
  }

  lemma {:induction false} CountingRuns(loop: Node, cond: Node, inc: Node, c: Run)
    requires Is(loop, WhileStmt, [cond, inc]) && Completes(cond, c) && Completes(inc, One(0, Done))
    ensures Runs(loop, LoopRun(c))
  {
  }

  lemma {:induction false} CountingAfter(loop: Node, cond: Node, inc: Node, x: string, p: Path, c: Run, v: Option<Path>)
    requires Is(loop, WhileStmt, [cond, inc]) && Completes(cond, c) && Runs(inc, One(0, Done)) && WritesLocal(inc, x)
    requires Runs(loop, LoopRun(c)) && !HoldsWrite(cond, x)
    ensures AfterSteps(loop, x, p, LoopRun(c), 3, v) == Some(p + [1])
  {
    var two := AfterSteps(loop, x, p, LoopRun(c), 2, v);
    assert LoopRun(c).steps[1].child == 1;
    assert two == After(inc, x, p + [1], One(0, Done), AfterSteps(loop, x, p, LoopRun(c), 1, v)) == Some(p + [1]);
    assert LoopRun(c).steps[2] == Step(0, c);
    Unwritten(cond, x, p + [0], c, two);
  }

  lemma {:induction false} CountingFinds(loop: Node, cond: Node, inc: Node, name: Node, x: string, p: Path,
                                         v: Option<Path>) returns (run: Run)
    requires IsCounting(loop, cond, inc, x) && IsIncrement(inc, name, x)
    ensures Runs(loop, run) && Finds(loop, x, p, run, v, [1] + [0], Some(p + [1]))
  {
    var c := ValueRuns(cond, x);
    run := LoopRun(c);
    IncrementFacts(inc, name, x, p + [1], Some(p + [1]));
    CountingRuns(loop, cond, inc, c);
    CountingAfter(loop, cond, inc, x, p, c, v);
    FindsAt(loop, x, p, run, v, 3, 1, [0], Some(p + [1]));
  }

  lemma {:induction false} CountingRead(loop: Node, cond: Node, inc: Node, name: Node, x: string)
    requires Is(loop, WhileStmt, [cond, inc]) && IsIncrement(inc, name, x)
    ensures var u := [1] + [0]; Open(loop, u) && HasNode(loop, u) && ReadsLocal(At(loop, u), x)
  {
    NameFacts(name, x);
    assert Open(inc, [0]) && [0][1..] == [] && ([1] + [0])[1..] == [0];
    OpenHas(loop, [1] + [0]);
  }

  /** A declaration with a value could be the dominating write of any read after it. */
  lemma {:induction false} DeclaredCandidate(f: Node, b: Node, items: seq<Node>, x: string, i: nat, u: Path)
    requires Frame(f, b, items, x) && 0 < i && Initializer(items[0].inner[0]).Some?
    ensures Candidate(f, x, In(i, u), In(0, [0]))
  {
    FrameDeclares(f, b, items, x);
    Apart(0, [0], i, u);
  }

  lemma {:induction false} CountingShows(b: Node, items: seq<Node>, x: string, cond: Node, inc: Node, name: Node,
                                         before: seq<Run>) returns (run: Run)
    requires Is(b, CompoundStmt, items) && |before| < |items| && Prior(items, before)
    requires IsCounting(items[|before|], cond, inc, x) && IsIncrement(inc, name, x)
    ensures Shows(b, x, |before|, [1] + [0], run, In(|before|, [1]))
  {
    var i := |before|;
    run := CountingFinds(items[i], cond, inc, name, x, [0] + [i], Left(items, x, before));
    assert [0] + [i] + [1] == In(i, [1]);
    run := BlockShows(b, items, x, before, run, [1] + [0], In(i, [1]));
  }

  lemma {:induction false} CountingReads(f: Node, b: Node, items: seq<Node>, x: string, i: nat, cond: Node, inc: Node,
                                         name: Node)
    requires Frame(f, b, items, x) && i < |items| && Is(items[i], WhileStmt, [cond, inc]) && IsIncrement(inc, name, x)
    ensures Reads(f, x, In(i, [1] + [0]))
  {
    CountingRead(items[i], cond, inc, name, x);
    FrameReads(f, b, items, x, i, [1] + [0]);
  }

  /** An increment in a loop reads what the increment before it wrote, which is not listed, as
      the read stands inside that write.  The answer is certain: the declaration dominates. */
  lemma {:induction false} LoopCarriedWrite(f: Node, b: Node, items: seq<Node>, x: string, i: nat, cond: Node,
                                            inc: Node, name: Node, before: seq<Run>) returns (run: Run)
    requires Frame(f, b, items, x) && Initializer(items[0].inner[0]).Some? && 0 < i < |items|
    requires IsCounting(items[i], cond, inc, x) && IsIncrement(inc, name, x)
    requires |before| == i && Prior(items, before)
    ensures Misses(f, b, x, i, [1] + [0], run, In(i, [1]))
  {
    run := CountingShows(b, items, x, cond, inc, name, before);
    CountingReads(f, b, items, x, i, cond, inc, name);
    DeclaredCandidate(f, b, items, x, i, [1] + [0]);
    Around(i, [1], [0]);
    AroundMisses(f, b, items, x, i, [1] + [0], In(0, [0]), run, In(i, [1]));
  }

  // ----- an input -----

  function Tree(kind: Kind, opcode: Opcode, inner: seq<Node>): Node {
    Node(kind, "", opcode, "", "", None, false, false, false, false, false, inner)
  }

  function Named(): Node {
    Tree(DeclRefExpr, NoOp, []).(ref := Some(DeclRef(VarRef, "1", "x")))
  }

  function Variable(): Node {
    Tree(VarDecl, NoOp, [Tree(IntegerLiteral, NoOp, [])]).(id := "1", hasInit := true)
  }

  function Increments(): Node {
    Tree(UnaryOperator, Increment, [Named()])
  }

  function Declaration(): Node {
    Tree(DeclStmt, NoOp, [Variable()])
  }

  function Forever(): Node {
    Tree(WhileStmt, NoOp, [Tree(IntegerLiteral, NoOp, []), Increments()])
  }

  /** { int x = 0; while (1) x++; } */
  function Counting(): Node {
    Tree(CompoundStmt, NoOp, [Declaration(), Forever()])
  }

  lemma {:induction false} SimpleTidy(n: Node, x: string)
    requires n.kind.IntegerLiteral? || n.kind.DeclRefExpr? || n.kind.VarDecl? || n.kind.DeclStmt? || n.kind.WhileStmt?
             || n.kind.CompoundStmt? || (n.kind.UnaryOperator? && n.opcode.Increment?)
    requires Ordered(n) || |n.inner| <= 1
    requires n.kind.DeclRefExpr? ==> n.inner == []
    requires forall i :: 0 <= i < |n.inner| ==> Tidy(n.inner[i], x)
    ensures Tidy(n, x)
  {
  }

  lemma {:induction false} CountingTidy(x: string)
    ensures Tidy(Counting(), x)
  {
    SimpleTidy(Tree(IntegerLiteral, NoOp, []), x);
    SimpleTidy(Named(), x);
    SimpleTidy(Variable(), x);
    SimpleTidy(Increments(), x);
    SimpleTidy(Declaration(), x);
    SimpleTidy(Forever(), x);
    SimpleTidy(Counting(), x);
  }

  lemma {:induction false} DeclarationRuns()
    ensures Completes(Declaration(), One(0, One(0, Done)))
  {
    assert Completes(Variable().inner[0], Done);
    OneRuns(Variable(), 0, Done);
    assert One(0, One(0, Done)).steps[0].child == 0 && Declaration().inner[0] == Variable();
  }

  /** That body: the increment reads what it wrote, and the answer is 0. */
  lemma {:induction false} CountingInput() returns (run: Run)
    ensures Misses(Tree(FunctionDecl, NoOp, [Counting()]), Counting(), "1", 1, [1] + [0], run, In(1, [1]))
  {
    var items, before := [Declaration(), Forever()], [One(0, One(0, Done))];
    CountingTidy("1");
    DeclarationRuns();
    assert Prior(items, before);
    var zero := Tree(IntegerLiteral, NoOp, []);
    LiteralIsValue(zero, "1");
    assert Initializer(Variable()) == Some(0);
    run := LoopCarriedWrite(Tree(FunctionDecl, NoOp, [Counting()]), Counting(), items, "1", 1, zero, Increments(),
                            Named(), before);
  }

  // ----- a use after a write -----

  /** No write below the node comes after the one at `u`. */
  ghost predicate IsLast(n: Node, x: string, u: Path) {
    forall q: Path :: HasNode(n, q) && WritesLocal(At(n, q), x) ==> q == u || Before(q, u)
  }

  lemma {:induction false} UseOthers(f: Node, b: Node, items: seq<Node>, x: string, i: nat, u: Path, w: Path)
    requires Frame(f, b, items, x) && i + 1 < |items| && IsLast(items[i], x, u) && !HoldsWrite(items[i+1], x)
    requires IsWrite(f, x, w) && Before(w, In(i + 1, []))
    ensures w == In(i, u) || Before(w, In(i, u))
  {
    var k, q := WriteWhere(f, b, items, x, i, u, i + 1, [], w);
    if k == i { Below(i, q, u); }
  }

  /** The last write of a statement is chosen for a use right after it, if it is always evaluated. */
  lemma {:induction false} UseChosen(f: Node, b: Node, items: seq<Node>, x: string, i: nat, u: Path)
    requires Frame(f, b, items, x) && i + 1 < |items| && Open(items[i], u) && HasNode(items[i], u)
    requires LocalsSound.AlwaysChain(items[i], u) && WritesLocal(At(items[i], u), x) && IsLast(items[i], x, u)
    requires IsName(items[i+1], x)
    ensures LocalsFollow.Chosen(f, x, In(i + 1, []), Some(In(i, u)))
  {
    FrameCandidate(f, b, items, x, i, u, i + 1);
    NameFacts(items[i+1], x);
    forall w | Candidate(f, x, In(i + 1, []), w) ensures w == In(i, u) || Before(w, In(i, u)) {
      UseOthers(f, b, items, x, i, u, w);
    }
  }

  /** The use after a statement that leaves `v` in the variable. */
  lemma {:induction false} UseShows(b: Node, items: seq<Node>, x: string, runs: seq<Run>, v: Path) returns (run: Run)
    requires Is(b, CompoundStmt, items) && Prior(items, runs) && |runs| < |items| && IsName(items[|runs|], x)
    requires Left(items, x, runs) == Some(v)
    ensures Shows(b, x, |runs|, [], run, v)
  {
    UseFinds(items[|runs|], x, [0] + [|runs|], Some(v));
    run := BlockShows(b, items, x, runs, Done, [], v);
  }

  lemma {:induction false} UseReads(f: Node, b: Node, items: seq<Node>, x: string, j: nat)
    requires Frame(f, b, items, x) && j < |items| && IsName(items[j], x)
    ensures Reads(f, x, In(j, []))
  {
    NameFacts(items[j], x);
    FrameReads(f, b, items, x, j, []);
  }

  /** A statement that writes the variable leaves that write in it. */
  lemma {:induction false} WriteLeft(items: seq<Node>, x: string, runs: seq<Run>, run: Run)
    requires Prior(items, runs) && |runs| < |items| && Completes(items[|runs|], run) && WritesLocal(items[|runs|], x)
    ensures Prior(items, runs + [run]) && Left(items, x, runs + [run]) == Some(In(|runs|, []))
  {
    PriorNext(items, x, runs, run);
    assert [0] + [|runs|] == In(|runs|, []);
  }

  // ----- x = (x = ..., ...); -----

  ghost predicate IsNested(outer: Node, comma: Node, inner: Node, last: Node, name: Node, x: string) {
    && IsSet(outer, x, name, comma) && Is(comma, BinaryOperator, [inner, last]) && comma.opcode.Comma?
    && IsPlainSet(inner, x) && IsValue(last, x)
  }

  lemma {:induction false} CommaRuns(comma: Node, first: Run, second: Run)
    requires comma.kind.BinaryOperator? && comma.opcode.Comma? && |comma.inner| == 2
    requires Completes(comma.inner[0], first) && Completes(comma.inner[1], second)
    ensures Completes(comma, Run([Step(0, first), Step(1, second)], None, Normal))
  {
  }

  lemma {:induction false} NestedRuns(outer: Node, comma: Node, inner: Node, last: Node, name: Node, x: string)
    returns (run: Run)
    requires IsNested(outer, comma, inner, last, name, x)
    ensures Completes(outer, run) && WritesLocal(outer, x)
  {
    var first := PlainSetRuns(inner, x);
    var second := ValueRuns(last, x);
    CommaRuns(comma, first, second);
    run := Run([Step(0, first), Step(1, second)], None, Normal);
    SetRuns(outer, x, name, comma, run);
    run := One(1, run);
  }

  lemma {:induction false} CommaWrite(comma: Node, inner: Node, last: Node, x: string, u: Path)
    requires Is(comma, BinaryOperator, [inner, last]) && comma.opcode.Comma? && IsPlainSet(inner, x)
             && !HoldsWrite(last, x)
    requires HasNode(comma, u) && WritesLocal(At(comma, u), x)
    ensures u == [0]
  {
    WriteStep(comma, x, u);
    PlainSetWrite(inner, x, u[1..]);
  }

  lemma {:induction false} NestedWrite(outer: Node, comma: Node, inner: Node, last: Node, name: Node, x: string)
    requires IsNested(outer, comma, inner, last, name, x)
    ensures IsLast(outer, x, [1] + [0])
  {
    NameFacts(name, x);
    forall q: Path | HasNode(outer, q) && WritesLocal(At(outer, q), x) ensures q == [1] + [0] || q == [] {
      WriteStep(outer, x, q);
      if q != [] { CommaWrite(comma, inner, last, x, q[1..]); }
    }
  }

  lemma {:induction false} NestedPath(outer: Node, comma: Node, inner: Node, last: Node, name: Node, x: string)
    requires IsNested(outer, comma, inner, last, name, x)
    ensures var u := [1] + [0];
            Open(outer, u) && HasNode(outer, u) && LocalsSound.AlwaysChain(outer, u)
            && At(outer, u) == inner && WritesLocal(inner, x)
  {
    var run := PlainSetRuns(inner, x);
    assert ([1] + [0])[1..] == [0] && [0][1..] == [] && comma.inner[0] == inner && outer.inner[1] == comma;
    assert Open(comma, [0]) && LocalsSound.AlwaysChain(comma, [0]) && At(comma, [0]) == inner;
  }

  /** Of a write inside another write of the variable the inner one is chosen, and the outer
      one, which is made last, is not listed. */
  lemma {:induction false} NestedWriteLost(f: Node, b: Node, items: seq<Node>, x: string, i: nat, comma: Node,
                                           inner: Node, last: Node, name: Node, before: seq<Run>) returns (run: Run)
    requires Frame(f, b, items, x) && i + 1 < |items| && IsNested(items[i], comma, inner, last, name, x)
             && IsName(items[i+1], x)
    requires |before| == i && Prior(items, before)
    ensures LocalsFollow.Chosen(f, x, In(i + 1, []), Some(In(i, [1] + [0])))
    ensures Misses(f, b, x, i + 1, [], run, In(i, []))
  {
    run := NestedRuns(items[i], comma, inner, last, name, x);
    WriteLeft(items, x, before, run);
    run := UseShows(b, items, x, before + [run], In(i, []));
    UseReads(f, b, items, x, i + 1);
    NestedPath(items[i], comma, inner, last, name, x);
    NestedWrite(items[i], comma, inner, last, name, x);
    UseChosen(f, b, items, x, i, [1] + [0]);
    Below(i, [], [1] + [0]);
    Apart(i, [], i + 1, []);
    Overruled(f, x, In(i + 1, []), In(i, [1] + [0]), In(i, []));
    FrameMissesBy(f, b, items, x, i + 1, [], In(i, [1] + [0]), run, In(i, []));
  }

  // ----- for (; x = ...; x) x = ...; -----

  predicate IsNothing(n: Node) {
    n.kind.Absent? && n.inner == []
  }

  /** The loop's parts: two that are missing, the condition, the increment and the body. */
  ghost predicate IsStepping(loop: Node, x: string) {
    && loop.kind.ForStmt? && |loop.inner| == 5 && IsNothing(loop.inner[0]) && IsNothing(loop.inner[1])
    && IsPlainSet(loop.inner[2], x) && IsName(loop.inner[3], x) && IsPlainSet(loop.inner[4], x)
  }

  lemma {:induction false} SteppingWrite(loop: Node, x: string, u: Path)
    requires IsStepping(loop, x) && HasNode(loop, u) && WritesLocal(At(loop, u), x)
    ensures u == [2] || u == [4]
  {
    NameFacts(loop.inner[3], x);
    WriteStep(loop, x, u);
    if u[0] == 2 || u[0] == 4 { PlainSetWrite(loop.inner[u[0]], x, u[1..]); }
  }

  function SteppingRun(c: Run, s: Run): Run {
    Run([Step(0, Done), Step(2, c), Step(4, s), Step(3, Done)], None, Cut)
  }

  lemma {:induction false} SteppingControl(loop: Node, c: Run, s: Run)
    requires loop.kind.ForStmt? && |loop.inner| == 5 && c.out == Normal && s.out == Normal
    ensures Control(loop, SteppingRun(c, s))
  {
  }

  lemma {:induction false} SteppingRuns(loop: Node, c: Run, s: Run)
    requires loop.kind.ForStmt? && |loop.inner| == 5 && Completes(loop.inner[2], c) && Completes(loop.inner[4], s)
    requires Runs(loop.inner[0], Done) && Runs(loop.inner[3], Done)
    ensures Runs(loop, SteppingRun(c, s))
  {
    SteppingControl(loop, c, s);
  }

  lemma {:induction false} SteppingAfter(loop: Node, x: string, p: Path, c: Run, s: Run, v: Option<Path>)
    requires |loop.inner| == 5 && Runs(loop, SteppingRun(c, s)) && WritesLocal(loop.inner[4], x)
             && Completes(loop.inner[4], s)
    ensures AfterSteps(loop, x, p, SteppingRun(c, s), 3, v) == Some(p + [4])
  {
    var before := AfterSteps(loop, x, p, SteppingRun(c, s), 2, v);
    assert SteppingRun(c, s).steps[2] == Step(4, s);
    assert After(loop.inner[4], x, p + [4], s, before) == Some(p + [4]);
  }

  lemma {:induction false} SteppingUse(loop: Node, x: string, p: Path, c: Run, s: Run, v: Option<Path>)
    requires |loop.inner| == 5 && IsName(loop.inner[3], x) && Runs(loop, SteppingRun(c, s))
    requires AfterSteps(loop, x, p, SteppingRun(c, s), 3, v) == Some(p + [4])
    ensures Finds(loop, x, p, SteppingRun(c, s), v, [3] + [], Some(p + [4]))
  {
    UseFinds(loop.inner[3], x, p + [3], Some(p + [4]));
    FindsAt(loop, x, p, SteppingRun(c, s), v, 3, 3, [], Some(p + [4]));
  }

  lemma {:induction false} SteppingFinds(loop: Node, x: string, p: Path, v: Option<Path>) returns (run: Run)
    requires IsStepping(loop, x)
    ensures Runs(loop, run) && Finds(loop, x, p, run, v, [3] + [], Some(p + [4]))
  {
    var c := PlainSetRuns(loop.inner[2], x);
    var s := PlainSetRuns(loop.inner[4], x);
    run := SteppingRun(c, s);
    NameFacts(loop.inner[3], x);
    SteppingRuns(loop, c, s);
    SteppingAfter(loop, x, p, c, s, v);
    SteppingUse(loop, x, p, c, s, v);
  }

  lemma {:induction false} PartAt(f: Node, b: Node, items: seq<Node>, i: nat, k: nat)
    requires Is(f, FunctionDecl, [b]) && Is(b, CompoundStmt, items) && i < |items| && items[i].kind.ForStmt?
             && k < |items[i].inner|
    ensures Indexed(f, In(i, [k])) && At(f, In(i, [k])) == items[i].inner[k] && Open(items[i], [k])
            && HasNode(items[i], [k]) && At(items[i], [k]) == items[i].inner[k]
  {
    assert [k][1..] == [];
    FrameIndexed(f, b, items, i, [k]);
  }

  lemma {:induction false} SteppingDominates(f: Node, b: Node, items: seq<Node>, i: nat)
    requires Is(f, FunctionDecl, [b]) && Is(b, CompoundStmt, items) && i < |items| && items[i].kind.ForStmt?
             && |items[i].inner| == 5
    ensures HasNode(f, In(i, [2])) && DominatesUp(f, In(i, [2]), In(i, [3]))
  {
    var r, d, p := In(i, [3]), In(i, [2]), [0] + [i];
    PartAt(f, b, items, i, 2);
    FrameAt(f, b, items, i);
    assert d == p + [2] && r == p + [3];
    assert d[..2] == p && p <= r && d[2] == 2 && r[2] == 3;
  }

  lemma {:induction false} SteppingCandidate(f: Node, b: Node, items: seq<Node>, x: string, i: nat)
    requires Frame(f, b, items, x) && i < |items| && items[i].kind.ForStmt? && |items[i].inner| == 5
             && WritesLocal(items[i].inner[2], x)
    ensures Candidate(f, x, In(i, [3]), In(i, [2]))
  {
    FrameTidy(f, b, items, x);
    PartAt(f, b, items, i, 2);
    SteppingDominates(f, b, items, i);
    NoLabel(f, x, In(i, [2]), In(i, [3]));
    Below(i, [2], [3]);
    assert In(i, [2])[2] == 2 && In(i, [3])[2] == 3;
  }

  lemma {:induction false} SteppingChosen(f: Node, b: Node, items: seq<Node>, x: string, i: nat)
    requires Frame(f, b, items, x) && i < |items| && IsStepping(items[i], x)
    ensures LocalsFollow.Chosen(f, x, In(i, [3]), Some(In(i, [2])))
  {
    var r, d := In(i, [3]), In(i, [2]);
    var run := PlainSetRuns(items[i].inner[2], x);
    SteppingCandidate(f, b, items, x, i);
    Below(i, [4], [3]);
    forall w | Candidate(f, x, r, w) ensures w == d || Before(w, d) {
      var k, q := WriteWhere(f, b, items, x, i, [2], i, [3], w);
      if k == i { SteppingWrite(items[i], x, q); }
    }
  }

  lemma {:induction false} NoEdge(f: Node, b: Node, items: seq<Node>, x: string, i: nat)
    requires Is(f, FunctionDecl, [b]) && Is(b, CompoundStmt, items) && i < |items| && items[i].kind.ForStmt?
             && |items[i].inner| == 5
    ensures HasNode(f, In(i, [3])) && !Collected(f, x, In(i, [3]), Some(In(i, [2])), In(i, [4]))
  {
    var r, d, p := In(i, [3]), In(i, [2]), [0] + [i];
    PartAt(f, b, items, i, 3);
    FrameAt(f, b, items, i);
    assert d == p + [2] && r == p + [3];
    forall k | 0 <= k < 3 ensures !BackEdgeAt(f, In(i, [4]), r, Some(d), k) {
      HasPrefix(f, r, k);
      if k == 0 { assert r[..0] == []; }
      else if k == 1 { assert r[..1] == [0]; }
      else { assert r[..2] == p && p <= d && d[2] == 2; }
    }
    Below(i, [3], [4]);
    BeforeOneWay(r, In(i, [4]));
    assert In(i, [4])[2] == 4;
  }

  lemma {:induction false} SteppingShows(b: Node, items: seq<Node>, x: string, before: seq<Run>) returns (run: Run)
    requires Is(b, CompoundStmt, items) && |before| < |items| && Prior(items, before) && IsStepping(items[|before|], x)
    ensures Shows(b, x, |before|, [3], run, In(|before|, [4]))
  {
    var i := |before|;
    run := SteppingFinds(items[i], x, [0] + [i], Left(items, x, before));
    assert [0] + [i] + [4] == In(i, [4]) && [3] + [] == [3];
    run := BlockShows(b, items, x, before, run, [3], In(i, [4]));
  }

  lemma {:induction false} SteppingReads(f: Node, b: Node, items: seq<Node>, x: string, i: nat)
    requires Frame(f, b, items, x) && i < |items| && IsStepping(items[i], x)
    ensures Reads(f, x, In(i, [3]))
  {
    NameFacts(items[i].inner[3], x);
    PartAt(f, b, items, i, 3);
    FrameReads(f, b, items, x, i, [3]);
  }

  /** A for statement's increment reads what the body wrote, and the condition, which the body
      runs after, is chosen instead. */
  lemma {:induction false} BodyWriteLost(f: Node, b: Node, items: seq<Node>, x: string, i: nat, before: seq<Run>)
    returns (run: Run)
    requires Frame(f, b, items, x) && i < |items| && IsStepping(items[i], x) && |before| == i && Prior(items, before)
    ensures LocalsFollow.Chosen(f, x, In(i, [3]), Some(In(i, [2])))
    ensures Misses(f, b, x, i, [3], run, In(i, [4]))
  {
    run := SteppingShows(b, items, x, before);
    SteppingReads(f, b, items, x, i);
    SteppingChosen(f, b, items, x, i);
    NoEdge(f, b, items, x, i);
    FrameMissesBy(f, b, items, x, i, [3], In(i, [2]), run, In(i, [4]));
  }

  // ----- x = ...; do { if (...) break; x = ...; } while (...); -----

  ghost predicate IsEscape(test: Node, x: string) {
    && test.kind.IfStmt? && !test.hasElse && |test.inner| == 2 && IsValue(test.inner[0], x)
    && test.inner[1].kind.BreakStmt? && test.inner[1].inner == []
  }

  ghost predicate IsBody(body: Node, x: string) {
    body.kind.CompoundStmt? && |body.inner| == 2 && IsEscape(body.inner[0], x) && IsPlainSet(body.inner[1], x)
  }

  ghost predicate IsBreaking(loop: Node, x: string) {
    loop.kind.DoStmt? && |loop.inner| == 2 && IsBody(loop.inner[0], x) && IsValue(loop.inner[1], x)
  }

  lemma {:induction false} EscapeRuns(test: Node, x: string) returns (run: Run)
    requires IsEscape(test, x)
    ensures run.out == Break && Runs(test, run) && !HoldsWrite(test, x)
  {
    var c := ValueRuns(test.inner[0], x);
    var left := Run([], None, Break);
    assert Runs(test.inner[1], left);
    run := Run([Step(0, c), Step(1, left)], None, Break);
  }

  lemma {:induction false} OneAfter(n: Node, x: string, p: Path, all: Run, c: nat, run: Run, v: Option<Path>)
    requires all.steps == [Step(c, run)] && Runs(n, all) && !WritesLocal(n, x)
    requires c < |n.inner| && Runs(n.inner[c], run) && After(n.inner[c], x, p + [c], run, v) == v
    ensures After(n, x, p, all, v) == v
  {
    assert AfterSteps(n, x, p, all, 0, v) == v;
    assert all.steps[0].child == c;
    assert AfterSteps(n, x, p, all, 1, v) == v;
  }

  lemma {:induction false} BodyRuns(body: Node, x: string, p: Path, v: Option<Path>) returns (run: Run)
    requires IsBody(body, x)
    ensures run.out == Break && Runs(body, run) && After(body, x, p, run, v) == v
  {
    var test := EscapeRuns(body.inner[0], x);
    Unwritten(body.inner[0], x, p + [0], test, v);
    run := Run([Step(0, test)], None, Break);
    assert Control(body, run) && run.steps[0].child == 0;
    OneAfter(body, x, p, run, 0, test, v);
  }

  lemma {:induction false} BreakingRuns(loop: Node, x: string, p: Path, v: Option<Path>) returns (run: Run)
    requires IsBreaking(loop, x)
    ensures Completes(loop, run) && After(loop, x, p, run, v) == v
  {
    var body := BodyRuns(loop.inner[0], x, p + [0], v);
    run := Run([Step(0, body)], None, Normal);
    assert Control(loop, run) && run.steps[0].child == 0;
    OneAfter(loop, x, p, run, 0, body, v);
  }

  lemma {:induction false} BodyWrite(body: Node, x: string, u: Path)
    requires IsBody(body, x) && HasNode(body, u) && WritesLocal(At(body, u), x)
    ensures u == [1]
  {
    var run := EscapeRuns(body.inner[0], x);
    WriteStep(body, x, u);
    PlainSetWrite(body.inner[1], x, u[1..]);
  }

  lemma {:induction false} BreakingWrite(loop: Node, x: string, u: Path)
    requires IsBreaking(loop, x) && HasNode(loop, u) && WritesLocal(At(loop, u), x)
    ensures u == [0] + [1]
  {
    WriteStep(loop, x, u);
    BodyWrite(loop.inner[0], x, u[1..]);
  }

  lemma {:induction false} BreakingChosen(f: Node, b: Node, items: seq<Node>, x: string, i: nat)
    requires Frame(f, b, items, x) && i + 1 < |items| && IsBreaking(items[i], x) && IsName(items[i+1], x)
    ensures LocalsFollow.Chosen(f, x, In(i + 1, []), Some(In(i, [0] + [1])))
  {
    BreakingPath(items[i], x);
    forall q: Path | HasNode(items[i], q) && WritesLocal(At(items[i], q), x) ensures q == [0] + [1] {
      BreakingWrite(items[i], x, q);
    }
    UseChosen(f, b, items, x, i, [0] + [1]);
  }

  lemma {:induction false} BreakingPath(loop: Node, x: string)
    requires IsBreaking(loop, x)
    ensures var u := [0] + [1];
            Open(loop, u) && HasNode(loop, u) && LocalsSound.AlwaysChain(loop, u)
            && WritesLocal(At(loop, u), x)
  {
    var body := loop.inner[0];
    var run := PlainSetRuns(body.inner[1], x);
    assert ([0] + [1])[1..] == [1] && [1][1..] == [];
    assert Open(body, [1]) && LocalsSound.AlwaysChain(body, [1]) && At(body, [1]) == body.inner[1];
  }

  /** A write, such a loop after it, and a use after that. */
  ghost predicate IsSkipping(items: seq<Node>, i: nat, x: string) {
    i + 2 < |items| && IsPlainSet(items[i], x) && IsBreaking(items[i+1], x) && IsName(items[i+2], x)
  }

  lemma {:induction false} BreakingShows(b: Node, items: seq<Node>, x: string, runs: seq<Run>, w: Path)
    returns (run: Run)
    requires Is(b, CompoundStmt, items) && Prior(items, runs) && |runs| + 1 < |items|
    requires IsBreaking(items[|runs|], x) && IsName(items[|runs|+1], x) && Left(items, x, runs) == Some(w)
    ensures Shows(b, x, |runs| + 1, [], run, w)
  {
    run := BreakingRuns(items[|runs|], x, [0] + [|runs|], Some(w));
    PriorNext(items, x, runs, run);
    run := UseShows(b, items, x, runs + [run], w);
  }

  lemma {:induction false} SkippingShows(b: Node, items: seq<Node>, x: string, before: seq<Run>) returns (run: Run)
    requires Is(b, CompoundStmt, items) && Prior(items, before) && IsSkipping(items, |before|, x)
    ensures Shows(b, x, |before| + 2, [], run, In(|before|, []))
  {
    run := PlainSetRuns(items[|before|], x);
    WriteLeft(items, x, before, run);
    run := BreakingShows(b, items, x, before + [run], In(|before|, []));
  }

  /** A do loop left by a break before its write: the write is chosen all the same, and the one
      before the loop, which the use reads, is not listed. */
  lemma {:induction false} SkippedWriteChosen(f: Node, b: Node, items: seq<Node>, x: string, i: nat, before: seq<Run>)
    returns (run: Run)
    requires Frame(f, b, items, x) && IsSkipping(items, i, x) && |before| == i && Prior(items, before)
    ensures LocalsFollow.Chosen(f, x, In(i + 2, []), Some(In(i + 1, [0] + [1])))
    ensures Misses(f, b, x, i + 2, [], run, In(i, []))
  {
    var r, d, w := In(i + 2, []), In(i + 1, [0] + [1]), In(i, []);
    run := SkippingShows(b, items, x, before);
    UseReads(f, b, items, x, i + 2);
    BreakingChosen(f, b, items, x, i + 1);
    Apart(i, [], i + 1, [0] + [1]);
    Apart(i, [], i + 2, []);
    Overruled(f, x, r, d, w);
    FrameMissesBy(f, b, items, x, i + 2, [], d, run, w);
  }
}
