/** Following one local at a read (internal/cproject/locals.go:116-175), over the finished
    index, and what the answer is worth. */
module LocalsFollow {
  import opened Ast
  import opened Execution
  import opened LocalsRules
  import opened LocalsIndex
  import LocalsSound

  // ----- what the finished index says -----

  predicate Ascending(vs: seq<Path>) {
    forall i, j :: 0 <= i < j < |vs| ==> Before(vs[i], vs[j])
  }

  predicate InTree(f: Node, vs: seq<Path>) {
    forall i :: 0 <= i < |vs| ==> HasNode(f, vs[i])
  }

  lemma {:induction false} VisitedIndexed(f: Node, n: Node, p: Path)
    requires Indexed(f, p) && At(f, p) == n
    ensures forall q :: q in Visited(n, p) ==> Indexed(f, q)
    decreases n, |n.inner| + 1
  {
    if !(Inert(n) && p != []) { ChildrenIndexed(f, n, p, |n.inner|); }
  }

  lemma {:induction false} ChildrenIndexed(f: Node, n: Node, p: Path, k: nat)
    requires Indexed(f, p) && At(f, p) == n && k <= |n.inner| && !(Inert(n) && p != [])
    ensures forall q :: q in VisitedChildren(n, p, k) ==> Indexed(f, q)
    decreases n, k
  {
    if k > 0 {
      ChildrenIndexed(f, n, p, k - 1);
      AtExtend(f, p, k - 1);
      var c := p + [k-1];
      forall j | 0 < j < |c| ensures Enters(f, c, j) {
        if j == |p| { assert c[..j] == p; } else { assert c[..j] == p[..j]; assert Enters(f, p, j); }
      }
      VisitedIndexed(f, n.inner[k-1], c);
    }
  }

  lemma {:induction false} IndexedVisited(f: Node, n: Node, p: Path, u: Path)
    requires Indexed(f, p + u) && HasNode(f, p) && At(f, p) == n
    ensures p + u in Visited(n, p)
    decreases |u|
  {
    if u == [] {
      assert p + u == p;
    } else {
      AtSplit(f, p, u);
      AtExtend(f, p, u[0]);
      assert p + [u[0]] + u[1..] == p + u;
      if p != [] {
        assert Enters(f, p + u, |p|);
        assert (p + u)[..|p|] == p;
      }
      IndexedVisited(f, n.inner[u[0]], p + [u[0]], u[1..]);
      InChildren(n, p, |n.inner|, u[0], p + u);
    }
  }

  lemma {:induction false} InChildren(n: Node, p: Path, k: nat, i: nat, q: Path)
    requires i < k <= |n.inner| && q in Visited(n.inner[i], p + [i])
    ensures q in VisitedChildren(n, p, k)
  {
    if i < k - 1 { InChildren(n, p, k - 1, i, q); }
  }

  lemma {:induction false} VisitedAscends(n: Node, p: Path)
    ensures Ascending(Visited(n, p))
    decreases n, |n.inner| + 1
  {
    if !(Inert(n) && p != []) {
      ChildrenAscend(n, p, |n.inner|);
      forall q | q in VisitedChildren(n, p, |n.inner|) ensures Before(p, q) {
        BelowChildren(n, p, |n.inner|, q);
        assert q == p + q[|p|..] && p == p + [];
        BeforeBelow(p, [], q[|p|..]);
      }
      AscendJoin([p], VisitedChildren(n, p, |n.inner|));
    }
  }

  lemma {:induction false} ChildrenAscend(n: Node, p: Path, k: nat)
    requires k <= |n.inner|
    ensures Ascending(VisitedChildren(n, p, k))
    decreases n, k
  {
    if k > 0 {
      ChildrenAscend(n, p, k - 1);
      VisitedAscends(n.inner[k-1], p + [k-1]);
      forall a, b | a in VisitedChildren(n, p, k - 1) && b in Visited(n.inner[k-1], p + [k-1]) ensures Before(a, b) {
        BelowChildren(n, p, k - 1, a);
        BelowVisited(n.inner[k-1], p + [k-1], b);
        assert p + [a[|p|]] <= a;
        LocalsSound.PartBefore(p, a[|p|], k - 1, a, b);
      }
      AscendJoin(VisitedChildren(n, p, k - 1), Visited(n.inner[k-1], p + [k-1]));
    }
  }

  lemma {:induction false} AscendJoin(a: seq<Path>, b: seq<Path>)
    requires Ascending(a) && Ascending(b)
    requires forall p, q :: p in a && q in b ==> Before(p, q)
    ensures Ascending(a + b)
  {
  }

  /** The index numbers the visited nodes by their place in the walk. */
  ghost predicate NumberedBy(index: Index, vs: seq<Path>) {
    && (forall p :: p in index.order <==> p in vs)
    && (forall i :: 0 <= i < |vs| ==> index.order[vs[i]] == i)
    && (forall p :: p in vs ==> p in index.parent && index.parent[p] == ParentOf(p))
  }

  lemma {:induction false} NumberNext(index: Index, n: Node, init: seq<Path>, p: Path)
    requires NumberedBy(index, init) && forall i :: 0 <= i < |init| ==> init[i] != p
    ensures NumberedBy(NextIndex(index, n, p, |init|), init + [p])
  {
    var vs := init + [p];
    assert forall q :: q in vs <==> q in init || q == p;
    forall i | 0 <= i < |vs| ensures NextIndex(index, n, p, |init|).order[vs[i]] == i {
      if i < |init| { assert vs[i] == init[i]; }
    }
  }

  lemma {:induction false} OrderIs(f: Node, vs: seq<Path>)
    requires InTree(f, vs) && Ascending(vs)
    ensures NumberedBy(IndexOf(f, vs), vs)
  {
    if vs != [] {
      var init, p := vs[..|vs|-1], vs[|vs|-1];
      OrderIs(f, init);
      assert vs == init + [p];
      forall i | 0 <= i < |init| ensures init[i] != p {
        assert Before(vs[i], vs[|vs|-1]);
        BeforeIrreflexive(p);
      }
      NumberNext(IndexOf(f, init), At(f, p), init, p);
    }
  }

  predicate WriteList(f: Node, x: string, ws: seq<LocalWrite>, vs: seq<Path>) {
    && (forall i, j :: 0 <= i < j < |ws| ==> Before(ws[i].node, ws[j].node))
    && (forall i :: 0 <= i < |ws| ==> ws[i].node in vs && IsWriteRecord(f, x, ws[i]))
    && (forall p :: p in vs && HasNode(f, p) && WritesLocal(At(f, p), x) ==> Listed(ws, p))
  }

  predicate IsWriteRecord(f: Node, x: string, w: LocalWrite) {
    HasNode(f, w.node) && WritesLocal(At(f, w.node), x) && w.value == StoredValue(At(f, w.node), w.node)
  }

  predicate Listed(ws: seq<LocalWrite>, p: Path) {
    exists i :: 0 <= i < |ws| && ws[i].node == p
  }

  lemma {:induction false} WritesAre(f: Node, x: string, vs: seq<Path>)
    requires InTree(f, vs) && Ascending(vs)
    ensures WriteList(f, x, WritesIn(IndexOf(f, vs).writes, x), vs)
  {
    if vs != [] {
      var init, p := vs[..|vs|-1], vs[|vs|-1];
      WritesAre(f, x, init);
      var before := WritesIn(IndexOf(f, init).writes, x);
      assert WritesLocal(At(f, p), x) <==> Written(At(f, p)) == Some(x);
      LastOf(vs);
      assert forall q :: q in init ==> Before(q, p);
      WriteListNext(f, x, before, init, p);
    }
  }

  lemma {:induction false} WriteListKeeps(f: Node, x: string, ws: seq<LocalWrite>, init: seq<Path>, p: Path)
    requires WriteList(f, x, ws, init) && HasNode(f, p) && !WritesLocal(At(f, p), x)
    ensures WriteList(f, x, ws, init + [p])
  {
    assert forall q :: q in init + [p] <==> q in init || q == p;
  }

  lemma {:induction false} ListedStill(ws: seq<LocalWrite>, w: LocalWrite, q: Path)
    requires Listed(ws, q) || q == w.node
    ensures Listed(ws + [w], q)
  {
    if Listed(ws, q) {
      var i :| 0 <= i < |ws| && ws[i].node == q;
      assert (ws + [w])[i].node == q;
    } else { assert (ws + [w])[|ws|].node == q; }
  }

  lemma {:induction false} WriteListGrows(f: Node, x: string, ws: seq<LocalWrite>, init: seq<Path>, w: LocalWrite)
    requires WriteList(f, x, ws, init) && IsWriteRecord(f, x, w) && forall q :: q in init ==> Before(q, w.node)
    ensures WriteList(f, x, ws + [w], init + [w.node])
  {
    var after := ws + [w];
    assert forall q :: q in init + [w.node] <==> q in init || q == w.node;
    forall i | 0 <= i < |after| ensures after[i].node in init + [w.node] && IsWriteRecord(f, x, after[i]) {
      if i < |ws| { assert after[i] == ws[i]; }
    }
    forall i, j | 0 <= i < j < |after| ensures Before(after[i].node, after[j].node) {
      assert after[i] == ws[i];
      if j < |ws| { assert after[j] == ws[j]; }
    }
    forall q | q in init + [w.node] && HasNode(f, q) && WritesLocal(At(f, q), x) ensures Listed(after, q) {
      ListedStill(ws, w, q);
    }
  }

  lemma {:induction false} WriteListNext(f: Node, x: string, ws: seq<LocalWrite>, init: seq<Path>, p: Path)
    requires WriteList(f, x, ws, init) && HasNode(f, p) && forall q :: q in init ==> Before(q, p)
    ensures WriteList(f, x, if WritesLocal(At(f, p), x) then ws + [LocalWrite(p, StoredValue(At(f, p), p))]
            else ws, init + [p])
  {
    if WritesLocal(At(f, p), x) { WriteListGrows(f, x, ws, init, LocalWrite(p, StoredValue(At(f, p), p))); }
    else { WriteListKeeps(f, x, ws, init, p); }
  }

  lemma {:induction false} LastOf(vs: seq<Path>)
    requires vs != []
    ensures forall q :: q in vs <==> q in vs[..|vs|-1] || q == vs[|vs|-1]
  {
    assert vs == vs[..|vs|-1] + [vs[|vs|-1]];
  }

  predicate DeclaredIn(f: Node, x: string, vs: seq<Path>) {
    exists p :: p in vs && DeclaresAt(f, p, x)
  }

  predicate TakenIn(f: Node, x: string, vs: seq<Path>) {
    exists p :: p in vs && TakesAt(f, p, x)
  }

  lemma {:induction false} NamesAre(f: Node, x: string, vs: seq<Path>)
    requires InTree(f, vs)
    ensures x in IndexOf(f, vs).locals <==> DeclaredIn(f, x, vs)
    ensures x in IndexOf(f, vs).taken <==> TakenIn(f, x, vs)
  {
    if vs != [] {
      var init, p := vs[..|vs|-1], vs[|vs|-1];
      NamesAre(f, x, init);
      LastOf(vs);
      assert DeclaredIn(f, x, vs) <==> DeclaredIn(f, x, init) || DeclaresAt(f, p, x);
      assert TakenIn(f, x, vs) <==> TakenIn(f, x, init) || TakesAt(f, p, x);
    }
  }

  predicate DeclaresAt(f: Node, p: Path, x: string) {
    HasNode(f, p) && Declares(At(f, p)) && At(f, p).id == x
  }

  predicate TakesAt(f: Node, p: Path, x: string) {
    HasNode(f, p) && TakesAddress(At(f, p)) && LocalRef(At(f, p).inner[0]) == Some(x)
  }

  lemma {:induction false} LabelsAre(f: Node, vs: seq<Path>)
    requires InTree(f, vs)
    ensures forall k :: k in IndexOf(f, vs).labels <==> 0 <= k < |vs| && IsLabel(At(f, vs[k]))
  {
    if vs != [] {
      var init := vs[..|vs|-1];
      LabelsAre(f, init);
      forall k ensures k in IndexOf(f, vs).labels <==> 0 <= k < |vs| && IsLabel(At(f, vs[k])) {
        if 0 <= k < |init| { assert init[k] == vs[k]; }
      }
    }
  }

  // ----- the finished index of a function -----

  ghost predicate Complete(l: FunctionLocals)
    reads l
  {
    l.f.kind.FunctionDecl? && Index(l.parent, l.order, l.locals, l.writes, l.taken, l.labels) == FullIndex(l.f)
  }

  function FullIndex(f: Node): Index {
    IndexOf(f, Visited(f, []))
  }

  lemma {:induction false} VisitedFacts(f: Node)
    ensures InTree(f, Visited(f, [])) && Ascending(Visited(f, []))
    ensures forall p :: p in Visited(f, []) <==> Indexed(f, p)
  {
    VisitedIndexed(f, f, []);
    VisitedAscends(f, []);
    assert forall i :: 0 <= i < |Visited(f, [])| ==> Visited(f, [])[i] in Visited(f, []);
    forall p | Indexed(f, p) ensures p in Visited(f, []) {
      assert [] + p == p;
      IndexedVisited(f, f, [], p);
    }
  }

  lemma {:induction false} OrderFacts(f: Node)
    ensures forall p :: p in FullIndex(f).order <==> Indexed(f, p)
    ensures forall p :: Indexed(f, p) ==> p in FullIndex(f).parent && FullIndex(f).parent[p] == ParentOf(p)
    ensures forall p, q :: Indexed(f, p) && Indexed(f, q) ==>
            p in FullIndex(f).order && q in FullIndex(f).order
            && (FullIndex(f).order[p] < FullIndex(f).order[q] <==> Before(p, q))
  {
    VisitedFacts(f);
    var vs := Visited(f, []);
    OrderIs(f, vs);
    forall p, q | Indexed(f, p) && Indexed(f, q)
      ensures FullIndex(f).order[p] < FullIndex(f).order[q] <==> Before(p, q)
    {
      var i :| 0 <= i < |vs| && vs[i] == p;
      var j :| 0 <= j < |vs| && vs[j] == q;
      if i >= j {
        BeforeIrreflexive(p);
        if Before(p, q) && j < i { BeforeTransitive(p, q, p); }
      }
    }
  }

  lemma {:induction false} LabelNumber(f: Node, k: int)
    requires k in FullIndex(f).labels
    ensures 0 <= k && exists l ::
            Indexed(f, l) && IsLabel(At(f, l)) && l in FullIndex(f).order
            && FullIndex(f).order[l] == k
  {
    VisitedFacts(f);
    var vs := Visited(f, []);
    OrderIs(f, vs);
    LabelsAre(f, vs);
    assert vs[k] in vs;
  }

  lemma {:induction false} NumberLabel(f: Node, l: Path)
    requires Indexed(f, l) && IsLabel(At(f, l))
    ensures l in FullIndex(f).order && FullIndex(f).order[l] in FullIndex(f).labels
  {
    VisitedFacts(f);
    var vs := Visited(f, []);
    OrderIs(f, vs);
    LabelsAre(f, vs);
    var k: nat :| k < |vs| && vs[k] == l;
  }

  lemma {:induction false} LabelFacts(f: Node, w: Path, r: Path)
    requires Indexed(f, w) && Indexed(f, r)
    ensures var index := FullIndex(f);
            w in index.order && r in index.order &&
            (Unlabelled(f, w, r) <==> forall k :: k in index.labels ==> !(index.order[w] < k < index.order[r]))
  {
    OrderFacts(f);
    if Unlabelled(f, w, r) {
      forall k | k in FullIndex(f).labels ensures !(FullIndex(f).order[w] < k < FullIndex(f).order[r]) {
        LabelNumber(f, k);
      }
    }
    if forall k :: k in FullIndex(f).labels ==> !(FullIndex(f).order[w] < k < FullIndex(f).order[r]) {
      forall l: Path | Indexed(f, l) && IsLabel(At(f, l)) ensures !(Before(w, l) && Before(l, r)) { NumberLabel(f, l); }
    }
  }

  lemma {:induction false} IndexedParent(f: Node, p: Path)
    requires Indexed(f, p) && p != []
    ensures Indexed(f, p[..|p|-1])
  {
    LocalsSound.IndexedPrefix(f, p, |p| - 1);
  }

  // ----- the tests, walking up the parents -----

  /** The child of `parent` on the way to the read. */
  method ChildHolding(l: FunctionLocals, parent: Path, holds: set<Path>, ghost read: Path) returns (index: Option<nat>)
    requires HasNode(l.f, parent) && HasNode(l.f, read) && parent <= read
    requires forall p :: p in holds <==> p <= read
    ensures index == if |parent| < |read| then Some(read[|parent|]) else None
  {
    var inner := At(l.f, parent).inner;
    if |parent| < |read| {
      assert parent + read[|parent|..] == read;
      AtSplit(l.f, parent, read[|parent|..]);
    }
    for i := 0 to |inner|
      invariant |parent| < |read| ==> i <= read[|parent|]
    {
      if parent + [i] in holds {
        return Some(i);
      }
      assert |parent| < |read| && i == read[|parent|] ==> parent + [i] <= read;
    }
    return None;
  }

  method Dominates(l: FunctionLocals, write: Path, read: Path, holds: set<Path>) returns (yes: bool)
    requires Complete(l) && Indexed(l.f, write) && Indexed(l.f, read) && !(write <= read)
    requires forall p :: p in holds <==> p <= read
    ensures yes <==> LocalsRules.Dominates(l.f, write, read)
  {
    if At(l.f, write).kind.VarDecl? {
      return true;
    }
    OrderFacts(l.f);
    LabelFacts(l.f, write, read);
    for i := 0 to |l.labels|
      invariant forall j :: 0 <= j < i ==> !(l.order[write] < l.labels[j] < l.order[read])
    {
      if l.order[write] < l.labels[i] && l.labels[i] < l.order[read] {
        assert l.labels[i] in FullIndex(l.f).labels;
        return false;
      }
    }
    var child := write;
    while true
      invariant Indexed(l.f, child) && !(child <= read)
      invariant DominatesUp(l.f, write, read) <==> DominatesUp(l.f, child, read)
      decreases |child|
    {
      var parent := l.parent[child];
      if parent.None? {
        return false;
      }
      IndexedParent(l.f, child);
      var last := child[|child|-1];
      if parent.value in holds {
        var holding := ChildHolding(l, parent.value, holds, read);
        return holding.Some? && EvaluatedBefore(At(l.f, parent.value), last, holding.value);
      }
      if !AlwaysEvaluates(At(l.f, parent.value), last) {
        return false;
      }
      child := parent.value;
    }
  }

  /** Whether `q` stands in the part the loop runs again. */
  method InsideLoop(l: FunctionLocals, loop: Path, q: Path) returns (yes: bool)
    requires Complete(l) && Indexed(l.f, q) && HasNode(l.f, loop)
    ensures yes <==> Inside(l.f, loop, q)
  {
    OrderFacts(l.f);
    var n := Some(q);
    while n.Some?
      invariant n.Some? ==> n.value <= q && Indexed(l.f, n.value) && (Inside(l.f, loop, q) ==> |n.value| > |loop|)
      invariant n.None? ==> !Inside(l.f, loop, q)
      decreases if n.Some? then |n.value| + 1 else 0
    {
      var parent := l.parent[n.value];
      if parent == Some(loop) {
        return Repeated(At(l.f, loop), n.value[|n.value|-1]);
      }
      if parent.Some? {
        IndexedParent(l.f, n.value);
        assert parent.value == q[..|parent.value|];
        assert Inside(l.f, loop, q) ==> loop == q[..|loop|];
      }
      n := parent;
    }
    return false;
  }

  method BackEdge(l: FunctionLocals, write: Path, read: Path, dominating: Option<Path>) returns (yes: bool)
    requires Complete(l) && Indexed(l.f, write) && Indexed(l.f, read)
    requires dominating.Some? ==> Indexed(l.f, dominating.value)
    ensures yes <==> LocalsRules.BackEdge(l.f, write, read, dominating)
  {
    OrderFacts(l.f);
    var loop := l.parent[read];
    ghost var k: int := |read|;
    while loop.Some?
      invariant 0 <= k <= |read|
      invariant loop == if k == 0 then None else Some(read[..k-1])
      invariant forall j :: k <= j < |read| ==> !BackEdgeAt(l.f, write, read, dominating, j)
      decreases k
    {
      k := k - 1;
      LocalsSound.IndexedPrefix(l.f, read, k);
      if IsLoop(At(l.f, loop.value)) {
        var holdsRead := InsideLoop(l, loop.value, read);
        var holdsWrite := InsideLoop(l, loop.value, write);
        if holdsRead && holdsWrite {
          if dominating.None? {
            assert BackEdgeAt(l.f, write, read, dominating, k);
            return true;
          }
          var holdsDominating := InsideLoop(l, loop.value, dominating.value);
          if !holdsDominating {
            assert BackEdgeAt(l.f, write, read, dominating, k);
            return true;
          }
        }
      }
      assert k > 0 ==> read[..k][..k-1] == read[..k-1];
      loop := l.parent[loop.value];
    }
    return false;
  }

  // ----- the local's value at a read -----

  /** The writes collected, and whether the value before them is added as unknown. */
  datatype Reaching = Reaching(writes: seq<LocalWrite>, unknown: bool)

  /** The dominating write: the last that could be one. */
  ghost predicate Chosen(f: Node, x: string, r: Path, d: Option<Path>) {
    && (d.None? ==> forall w :: !Candidate(f, x, r, w))
    && (d.Some? ==> Candidate(f, x, r, d.value) && forall w :: Candidate(f, x, r, w) ==>
          w == d.value || Before(w, d.value))
  }

  /** A function's own local, neither static nor an array, whose address is not taken, that
      is written somewhere and is not already being followed. */
  ghost predicate Followable(f: Node, x: string, r: Path, active: set<string>) {
    && Indexed(f, r)
    && (exists p :: Indexed(f, p) && DeclaresAt(f, p, x))
    && (forall p :: Indexed(f, p) ==> !TakesAt(f, p, x))
    && x !in active
    && (exists w :: IsWrite(f, x, w))
  }

  /** The answer lists exactly the collected writes, in source order, each with its value. */
  ghost predicate Answers(f: Node, x: string, r: Path, d: Option<Path>, a: Reaching)
    requires HasNode(f, r)
  {
    && a.unknown == d.None?
    && (forall w :: Listed(a.writes, w) <==> Collected(f, x, r, d, w))
    && (forall i, j :: 0 <= i < j < |a.writes| ==> Before(a.writes[i].node, a.writes[j].node))
    && (forall i :: 0 <= i < |a.writes| ==> IsWriteRecord(f, x, a.writes[i]))
  }

  ghost predicate AllWrites(f: Node, x: string, ws: seq<LocalWrite>) {
    && (forall i, j :: 0 <= i < j < |ws| ==> Before(ws[i].node, ws[j].node))
    && (forall i :: 0 <= i < |ws| ==> IsWrite(f, x, ws[i].node) && IsWriteRecord(f, x, ws[i]))
    && (forall w :: IsWrite(f, x, w) ==> Listed(ws, w))
  }

  lemma {:induction false} NameFacts(f: Node, x: string)
    ensures x in FullIndex(f).locals <==> exists p :: Indexed(f, p) && DeclaresAt(f, p, x)
    ensures x in FullIndex(f).taken <==> !forall p :: Indexed(f, p) ==> !TakesAt(f, p, x)
    ensures AllWrites(f, x, WritesIn(FullIndex(f).writes, x))
  {
    VisitedFacts(f);
    NamesAre(f, x, Visited(f, []));
    WritesAre(f, x, Visited(f, []));
  }

  /** The nodes around the read. */
  method Holders(l: FunctionLocals, ref: Path) returns (holds: set<Path>)
    requires Complete(l) && Indexed(l.f, ref)
    ensures forall p :: p in holds <==> p <= ref
  {
    OrderFacts(l.f);
    holds := {};
    var n := Some(ref);
    while n.Some?
      invariant n.Some? ==> n.value <= ref && Indexed(l.f, n.value)
      invariant forall p :: p in holds <==> p <= ref && (n.Some? ==> |p| > |n.value|)
      decreases if n.Some? then |n.value| + 1 else 0
    {
      holds := holds + {n.value};
      assert forall p :: p <= ref && |p| == |n.value| ==> p == n.value;
      if n.value != [] { IndexedParent(l.f, n.value); }
      n := l.parent[n.value];
    }
  }

  /** The last write that dominates the read. */
  method Dominating(l: FunctionLocals, x: string, ref: Path, holds: set<Path>, writes: seq<LocalWrite>)
    returns (dominating: Option<Path>)
    requires Complete(l) && Indexed(l.f, ref) && AllWrites(l.f, x, writes)
    requires forall p :: p in holds <==> p <= ref
    ensures Chosen(l.f, x, ref, dominating)
  {
    OrderFacts(l.f);
    dominating := None;
    for i := 0 to |writes|
      invariant ChosenFrom(l.f, x, ref, writes[..i], dominating)
    {
      var w := writes[i].node;
      assert writes[..i+1] == writes[..i] + [writes[i]];
      ChooseNext(l.f, x, ref, writes[..i], dominating, writes[i]);
      if l.order[w] < l.order[ref] && w !in holds {
        var yes := Dominates(l, w, ref, holds);
        if yes { dominating := Some(w); }
      }
    }
    assert writes[..|writes|] == writes;
    forall w | Candidate(l.f, x, ref, w)
      ensures dominating.Some? && (w == dominating.value || Before(w, dominating.value))
    {
      assert Listed(writes, w);
    }
  }

  /** The last candidate among the writes seen so far. */
  ghost predicate ChosenFrom(f: Node, x: string, r: Path, seen: seq<LocalWrite>, d: Option<Path>) {
    && (d.Some? ==> Candidate(f, x, r, d.value) && Listed(seen, d.value))
    && forall i :: 0 <= i < |seen| && Candidate(f, x, r, seen[i].node) ==>
      d.Some? && (seen[i].node == d.value || Before(seen[i].node, d.value))
  }

  lemma {:induction false} ChooseNext(f: Node, x: string, r: Path, seen: seq<LocalWrite>, d: Option<Path>,
                                      w: LocalWrite)
    requires ChosenFrom(f, x, r, seen, d)
    requires forall k :: 0 <= k < |seen| ==> Before(seen[k].node, w.node)
    ensures ChosenFrom(f, x, r, seen + [w], if Candidate(f, x, r, w.node) then Some(w.node) else d)
  {
    ListedNext(seen, w);
  }

  method Reached(l: FunctionLocals, x: string, ref: Path, holds: set<Path>, write: LocalWrite, dominating: Option<Path>)
    returns (yes: bool)
    requires Complete(l) && Indexed(l.f, ref) && IsWrite(l.f, x, write.node) && Chosen(l.f, x, ref, dominating)
    requires forall p :: p in holds <==> p <= ref
    ensures yes <==> Collected(l.f, x, ref, dominating, write.node)
  {
    OrderFacts(l.f);
    var w := write.node;
    var position, at := l.order[w], l.order[ref];
    if w in holds { return false; }
    if dominating == Some(w) { return true; }
    if position < at && (dominating.None? || position > l.order[dominating.value]) { return true; }
    BeforeTotal(w, ref);
    if position > at {
      yes := BackEdge(l, w, ref, dominating);
      if Before(w, ref) { BeforeTransitive(w, ref, w); BeforeIrreflexive(w); }
      return;
    }
    return false;
  }

  method Collect(l: FunctionLocals, x: string, ref: Path, holds: set<Path>, writes: seq<LocalWrite>, d: Option<Path>)
    returns (reaching: seq<LocalWrite>)
    requires Complete(l) && Indexed(l.f, ref) && AllWrites(l.f, x, writes) && Chosen(l.f, x, ref, d)
    requires forall p :: p in holds <==> p <= ref
    ensures Answers(l.f, x, ref, d, Reaching(reaching, d.None?))
  {
    reaching := [];
    for i := 0 to |writes|
      invariant CollectedFrom(l.f, x, ref, d, writes[..i], reaching)
    {
      var yes := Reached(l, x, ref, holds, writes[i], d);
      assert writes[..i+1] == writes[..i] + [writes[i]];
      CollectNext(l.f, x, ref, d, writes[..i], reaching, writes[i]);
      if yes { reaching := reaching + [writes[i]]; }
    }
    assert writes[..|writes|] == writes;
  }

  /** The collected ones among the writes seen so far, in their order. */
  ghost predicate CollectedFrom(f: Node, x: string, r: Path, d: Option<Path>, seen: seq<LocalWrite>,
                                reaching: seq<LocalWrite>)
    requires HasNode(f, r)
  {
    && (forall w :: Listed(reaching, w) <==> Listed(seen, w) && Collected(f, x, r, d, w))
    && (forall k :: 0 <= k < |reaching| ==> IsWriteRecord(f, x, reaching[k]) && Listed(seen, reaching[k].node))
    && (forall a, b :: 0 <= a < b < |reaching| ==> Before(reaching[a].node, reaching[b].node))
  }

  lemma {:induction false} CollectNext(f: Node, x: string, r: Path, d: Option<Path>, seen: seq<LocalWrite>,
                                       reaching: seq<LocalWrite>, w: LocalWrite)
    requires HasNode(f, r) && CollectedFrom(f, x, r, d, seen, reaching) && IsWriteRecord(f, x, w)
    requires forall k :: 0 <= k < |seen| ==> Before(seen[k].node, w.node)
    ensures CollectedFrom(f, x, r, d, seen + [w], if Collected(f, x, r, d, w.node) then reaching + [w] else reaching)
  {
    ListedNext(reaching, w);
    ListedNext(seen, w);
    BeforeIrreflexive(w.node);
  }

  /** Indexing a function's body once. */
  method LocalsIndexOf(f: Node) returns (l: FunctionLocals)
    requires f.kind.FunctionDecl?
    ensures fresh(l) && l.f == f && Complete(l)
  {
    l := new FunctionLocals(f);
  }

  lemma {:induction false} NotWritten(f: Node, x: string, ws: seq<LocalWrite>)
    requires AllWrites(f, x, ws)
    ensures |ws| == 0 <==> !exists w :: IsWrite(f, x, w)
  {
    if exists w :: IsWrite(f, x, w) {
      var w :| IsWrite(f, x, w);
      assert Listed(ws, w);
    }
    if |ws| > 0 { assert IsWrite(f, x, ws[0].node); }
  }

  /** Whether the read is of a local that can be followed, and the local's writes. */
  method FollowedWrites(l: FunctionLocals, x: string, ref: Path, active: set<string>)
    returns (yes: bool, writes: seq<LocalWrite>)
    requires Complete(l) && HasNode(l.f, ref)
    ensures yes <==> Followable(l.f, x, ref, active)
    ensures yes ==> AllWrites(l.f, x, writes)
  {
    OrderFacts(l.f);
    NameFacts(l.f, x);
    writes := WritesIn(l.writes, x);
    NotWritten(l.f, x, writes);
    yes := ref in l.order && x in l.locals && x !in l.taken && x !in active && |writes| > 0;
  }

  method FollowLocal(l: FunctionLocals, ref: Path, active: set<string>)
    returns (result: Option<Reaching>)
    requires Complete(l) && HasNode(l.f, ref)
    ensures var x := LocalRef(At(l.f, ref));
            && (result.Some? <==> x.Some? && Followable(l.f, x.value, ref, active))
            && (result.Some? ==> exists d ::
                  Chosen(l.f, x.value, ref, d)
                  && Answers(l.f, x.value, ref, d, result.value))
  {
    var id := LocalRef(At(l.f, ref));
    if id.None? { return None; }
    var x := id.value;
    var yes, writes := FollowedWrites(l, x, ref, active);
    if !yes { return None; }
    var holds := Holders(l, ref);
    var d := Dominating(l, x, ref, holds, writes);
    var reaching := Collect(l, x, ref, holds, writes, d);
    result := Some(Reaching(reaching, d.None?));
  }

  lemma {:induction false} ListedNext(ws: seq<LocalWrite>, w: LocalWrite)
    ensures forall p :: Listed(ws + [w], p) <==> Listed(ws, p) || p == w.node
  {
    forall p ensures Listed(ws + [w], p) <==> Listed(ws, p) || p == w.node {
      if Listed(ws, p) {
        var i :| 0 <= i < |ws| && ws[i].node == p;
        assert (ws + [w])[i].node == p;
      }
      assert (ws + [w])[|ws|] == w;
    }
  }

  /** What the answer is worth: whatever a run leaves in the local at the read is a listed
      write, and a run that wrote nothing yet finds the unknown value in the answer. */
  lemma {:induction false} AnswerCoversRuns(f: Node, x: string, r: Path, d: Option<Path>, a: Reaching, body: nat,
                                            run: Run, v: Option<Path>)
    requires f.kind.FunctionDecl? && body < |f.inner| && r != [] && r[0] == body
    requires Indexed(f, r) && ReadsLocal(At(f, r), x)
    requires Structured(f) && Shaped(f) && Sequenced(f, x)
    requires Chosen(f, x, r, d) && Answers(f, x, r, d, a) && Trusted(f, x, r, d)
    requires Runs(f.inner[body], run) && Finds(f.inner[body], x, [body], run, None, r[1..], v)
    ensures v.None? ==> a.unknown
    ensures v.Some? ==> Listed(a.writes, v.value)
  {
    LocalsSound.ReachingWrites(f, x, r, d, body, run, v);
  }
}
