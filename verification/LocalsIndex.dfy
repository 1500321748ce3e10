/** The index of a function body and the following of one local (internal/cproject/locals.go):
    one walk numbers the nodes and gathers the writes, then a read asks for the writes that
    reach it. */
module LocalsIndex {
  import opened Ast
  import opened Execution
  import opened LocalsRules

  /** One write: its node, and the node of the value it stores when that is written out. */
  datatype LocalWrite = LocalWrite(node: Path, value: Option<Path>)

  /** The nodes the walk visits below `p`, in its order. */
  function Visited(n: Node, p: Path): seq<Path>
    decreases n, |n.inner| + 1
  {
    [p] + if Inert(n) && p != [] then [] else VisitedChildren(n, p, |n.inner|)
  }

  function VisitedChildren(n: Node, p: Path, k: nat): seq<Path>
    requires k <= |n.inner|
    decreases n, k
  {
    if k == 0 then [] else VisitedChildren(n, p, k - 1) + Visited(n.inner[k-1], p + [k-1])
  }

  function StoredValue(n: Node, p: Path): Option<Path> {
    if n.kind.VarDecl? then (match Initializer(n) case Some(i) => Some(p + [i]) case None => None)
    else if n.kind.BinaryOperator? then Some(p + [1])
    else None
  }

  predicate TakesAddress(n: Node) {
    n.kind.UnaryOperator? && |n.inner| == 1 && n.opcode.AddressOf? && LocalRef(n.inner[0]).Some?
  }

  function WritesIn(writes: map<string, seq<LocalWrite>>, x: string): seq<LocalWrite> {
    if x in writes then writes[x] else []
  }

  function AppendWrite(writes: map<string, seq<LocalWrite>>, x: string, w: LocalWrite): map<string, seq<LocalWrite>> {
    writes[x := WritesIn(writes, x) + [w]]
  }

  /** The local a node writes, if it writes one. */
  function Written(n: Node): Option<string> {
    if n.kind.VarDecl? then (if Declares(n) && Initializer(n).Some? then Some(n.id) else None)
    else if n.kind.BinaryOperator? then (if n.opcode.Assign? && |n.inner| == 2 then LocalRef(n.inner[0]) else None)
    else if n.kind.CompoundAssignOperator? then (if |n.inner| > 0 then LocalRef(n.inner[0]) else None)
    else if n.kind.UnaryOperator? && |n.inner| == 1 && (n.opcode.Increment? || n.opcode.Decrement?)
      then LocalRef(n.inner[0])
    else None
  }

  function NextLocals(locals: map<string, Path>, n: Node, p: Path): map<string, Path> {
    if Declares(n) then locals[n.id := p] else locals
  }

  function NextWrites(writes: map<string, seq<LocalWrite>>, n: Node, p: Path): map<string, seq<LocalWrite>> {
    match Written(n)
    case Some(x) => AppendWrite(writes, x, LocalWrite(p, StoredValue(n, p)))
    case None => writes
  }

  function NextTaken(taken: set<string>, n: Node): set<string> {
    if TakesAddress(n) then taken + {LocalRef(n.inner[0]).value} else taken
  }

  function NextLabels(labels: seq<nat>, n: Node, at: nat): seq<nat> {
    if IsLabel(n) then labels + [at] else labels
  }

  function ParentOf(p: Path): Option<Path> {
    if p == [] then None else Some(p[..|p|-1])
  }

  /** Everything the walk gathers. */
  datatype Index = Index(
    parent: map<Path, Option<Path>>,
    order: map<Path, nat>,
    locals: map<string, Path>,
    writes: map<string, seq<LocalWrite>>,
    taken: set<string>,
    labels: seq<nat>)

  function NextIndex(index: Index, n: Node, p: Path, at: nat): Index {
    Index(index.parent[p := ParentOf(p)], index.order[p := at], NextLocals(index.locals, n, p),
          NextWrites(index.writes, n, p), NextTaken(index.taken, n), NextLabels(index.labels, n, at))
  }

  /** What the index holds once the nodes `vs` are visited. */
  function IndexOf(f: Node, vs: seq<Path>): Index {
    if vs == [] || !HasNode(f, vs[|vs|-1]) then Index(map[], map[], map[], map[], {}, [])
    else NextIndex(IndexOf(f, vs[..|vs|-1]), At(f, vs[|vs|-1]), vs[|vs|-1], |vs| - 1)
  }

  class FunctionLocals {
    const f: Node
    var parent: map<Path, Option<Path>>
    var order: map<Path, nat>
    var locals: map<string, Path>
    var writes: map<string, seq<LocalWrite>>
    var taken: set<string>
    var labels: seq<nat>
    ghost var visited: seq<Path>

    ghost predicate Valid()
      reads this
    {
      Index(parent, order, locals, writes, taken, labels) == IndexOf(f, visited) && |order| == |visited|
    }

    constructor (f: Node)
      requires f.kind.FunctionDecl?
      ensures this.f == f && Valid() && visited == Visited(f, [])
    {
      this.f := f;
      parent, order, locals, writes, taken, labels := map[], map[], map[], map[], {}, [];
      visited := [];
      new;
      Visit([], f);
      assert visited == Visited(f, []);
    }

    /** Records one node: its place, and what its kind says of a local. */
    method Note(p: Path, n: Node)
      requires Valid() && HasNode(f, p) && At(f, p) == n
      requires AllBefore(visited, p)
      modifies this
      ensures Valid() && visited == old(visited) + [p]
    {
      OrderKeys(f, visited);
      if p in visited { AllBeforeOne(visited, p, p); BeforeIrreflexive(p); }
      parent := parent[p := ParentOf(p)];
      order := order[p := |order|];
      Gather(p, n);
      visited := visited + [p];
      assert visited[..|visited|-1] == old(visited);
    }

    method Gather(p: Path, n: Node)
      requires p in order
      modifies this`locals, this`writes, this`taken, this`labels
      ensures locals == old(NextLocals(locals, n, p))
      ensures writes == old(NextWrites(writes, n, p))
      ensures taken == old(NextTaken(taken, n))
      ensures labels == old(NextLabels(labels, n, order[p]))
    {
      if n.kind.VarDecl? {
        if Declares(n) {
          locals := locals[n.id := p];
          var value := Initializer(n);
          if value.Some? {
            writes := AppendWrite(writes, n.id, LocalWrite(p, Some(p + [value.value])));
          }
        }
      } else if n.kind.BinaryOperator? {
        if n.opcode.Assign? && |n.inner| == 2 {
          var id := LocalRef(n.inner[0]);
          if id.Some? { writes := AppendWrite(writes, id.value, LocalWrite(p, Some(p + [1]))); }
        }
      } else if n.kind.CompoundAssignOperator? {
        if |n.inner| > 0 {
          var id := LocalRef(n.inner[0]);
          if id.Some? { writes := AppendWrite(writes, id.value, LocalWrite(p, None)); }
        }
      } else if n.kind.UnaryOperator? {
        if |n.inner| == 1 {
          var id := LocalRef(n.inner[0]);
          if id.Some? {
            if n.opcode.Increment? || n.opcode.Decrement? {
              writes := AppendWrite(writes, id.value, LocalWrite(p, None));
            } else if n.opcode.AddressOf? {
              taken := taken + {id.value};
            }
          }
        }
      } else if IsLabel(n) {
        labels := labels + [order[p]];
      }
    }

    method Visit(p: Path, n: Node)
      requires Valid() && HasNode(f, p) && At(f, p) == n && AllBefore(visited, p)
      modifies this
      ensures Valid() && visited == old(visited) + Visited(n, p)
      decreases n, 2
    {
      ghost var start := visited;
      Note(p, n);
      if !(Inert(n) && p != []) { VisitChildren(p, n, start); }
    }

    method VisitChildren(p: Path, n: Node, ghost start: seq<Path>)
      requires Valid() && HasNode(f, p) && At(f, p) == n && AllBefore(start, p) && visited == start + [p]
      modifies this
      ensures Valid() && visited == start + ([p] + VisitedChildren(n, p, |n.inner|))
      decreases n, 1
    {
      var i := 0;
      while i < |n.inner|
        invariant i <= |n.inner|
        invariant Valid() && visited == start + ([p] + VisitedChildren(n, p, i))
      {
        VisitChild(p, n, i, start);
        i := i + 1;
      }
    }

    method VisitChild(p: Path, n: Node, i: nat, ghost start: seq<Path>)
      requires Valid() && HasNode(f, p) && At(f, p) == n && i < |n.inner| && AllBefore(start, p)
      requires visited == start + ([p] + VisitedChildren(n, p, i))
      modifies this
      ensures Valid() && visited == start + ([p] + VisitedChildren(n, p, i + 1))
      decreases n, 0
    {
      ghost var sofar := visited;
      NextChild(f, n, p, i, start, sofar);
      Visit(p + [i], n.inner[i]);
      OneMore(n, p, i, start, sofar, visited);
    }
  }

  /** Everything visited so far comes before `p` in preorder. */
  predicate AllBefore(vs: seq<Path>, p: Path) {
    vs == [] || (Before(vs[|vs|-1], p) && AllBefore(vs[..|vs|-1], p))
  }

  lemma {:induction false} AllBeforeOne(vs: seq<Path>, p: Path, q: Path)
    requires AllBefore(vs, p) && q in vs
    ensures Before(q, p)
  {
    if q != vs[|vs|-1] { AllBeforeOne(vs[..|vs|-1], p, q); }
  }

  lemma {:induction false} AllBeforeIntro(vs: seq<Path>, p: Path)
    requires forall q :: q in vs ==> Before(q, p)
    ensures AllBefore(vs, p)
  {
    if vs != [] { AllBeforeIntro(vs[..|vs|-1], p); }
  }

  lemma {:induction false} OneMore(n: Node, p: Path, i: nat, start: seq<Path>, sofar: seq<Path>, vs: seq<Path>)
    requires i < |n.inner| && sofar == start + ([p] + VisitedChildren(n, p, i))
    requires vs == sofar + Visited(n.inner[i], p + [i])
    ensures vs == start + ([p] + VisitedChildren(n, p, i + 1))
  {
  }

  lemma {:induction false} OrderKeys(f: Node, vs: seq<Path>)
    ensures forall p :: p in IndexOf(f, vs).order ==> p in vs
  {
    if vs != [] && HasNode(f, vs[|vs|-1]) {
      OrderKeys(f, vs[..|vs|-1]);
      assert vs == vs[..|vs|-1] + [vs[|vs|-1]];
    }
  }

  lemma {:induction false} BelowVisited(n: Node, p: Path, q: Path)
    requires q in Visited(n, p)
    ensures p <= q
    decreases n, |n.inner| + 1
  {
    if q != p { BelowChildren(n, p, |n.inner|, q); }
  }

  lemma {:induction false} BelowChildren(n: Node, p: Path, k: nat, q: Path)
    requires k <= |n.inner| && q in VisitedChildren(n, p, k)
    ensures |p| < |q| && p <= q && q[|p|] < k
    decreases n, k
  {
    if q in VisitedChildren(n, p, k - 1) {
      BelowChildren(n, p, k - 1, q);
    } else {
      BelowVisited(n.inner[k-1], p + [k-1], q);
    }
  }

  lemma {:induction false} EarlierVisited(n: Node, p: Path, i: nat, q: Path, before: seq<Path>)
    requires i < |n.inner| && q in before + ([p] + VisitedChildren(n, p, i))
    requires AllBefore(before, p)
    ensures Before(q, p + [i])
  {
    BeforeBelow(p, [], [i]);
    assert p + [] == p;
    if q in before {
      AllBeforeOne(before, p, q);
      BeforeTransitive(q, p, p + [i]);
    } else if q != p {
      BelowChildren(n, p, i, q);
      assert q == p + q[|p|..];
      BeforeBelow(p, q[|p|..], [i]);
    }
  }

  lemma {:induction false} AllEarlier(n: Node, p: Path, i: nat, before: seq<Path>)
    requires i < |n.inner| && AllBefore(before, p)
    ensures AllBefore(before + ([p] + VisitedChildren(n, p, i)), p + [i])
  {
    forall q | q in before + ([p] + VisitedChildren(n, p, i)) ensures Before(q, p + [i]) {
      EarlierVisited(n, p, i, q, before);
    }
    AllBeforeIntro(before + ([p] + VisitedChildren(n, p, i)), p + [i]);
  }

  lemma {:induction false} NextChild(f: Node, n: Node, p: Path, i: nat, start: seq<Path>, sofar: seq<Path>)
    requires HasNode(f, p) && At(f, p) == n && i < |n.inner| && AllBefore(start, p)
    requires sofar == start + ([p] + VisitedChildren(n, p, i))
    ensures HasNode(f, p + [i]) && At(f, p + [i]) == n.inner[i] && AllBefore(sofar, p + [i])
  {
    AtExtend(f, p, i);
    AllEarlier(n, p, i, start);
  }
}
