/** Which calls of a function the walk joins (internal/cproject/spellings.go:18-57,
    internal/cproject/resolve.go:525-563): the chains are told by where their heads stand, a chain's parts by
    the way down from its head, and the joins by the chains. */
module SpellingsWalk {
  import opened Spellings
  import opened SpellingsExact

  type Path = seq<nat>

  function Kids(t: Tree): seq<Tree> {
    match t
    case Or(left, right) => [left, right]
    case Paren(inner) => [inner]
    case If(condition, body, other) => [condition, body] + if other.Some? then [other.value] else []
    case Call(_, parts) => parts
    case Plain(parts) => parts
  }

  /** The piece of code the path leads to, if it leads to one. */
  function At(t: Tree, path: Path): Option<Tree>
    decreases |path|
  {
    if path == [] then Some(t) else if path[0] < |Kids(t)| then At(Kids(t)[path[0]], path[1..]) else None
  }

  // ----- where chains begin -----

  /** It is an operand of a ||, in parentheses or not; `o` says so of the whole. */
  predicate OnOr(t: Tree, path: Path, o: bool)
    decreases |path|
  {
    if path == [] then o
    else
      var up := At(t, path[..|path|-1]);
      up.Some? && (up.value.Or? || (up.value.Paren? && OnOr(t, path[..|path|-1], o)))
  }

  /** It is the else of an if; `i` says so of the whole. */
  predicate OnIf(t: Tree, path: Path, i: bool) {
    if path == [] then i
    else
      var up := At(t, path[..|path|-1]);
      up.Some? && up.value.If? && path[|path|-1] == 2
  }

  /** A || that is no operand of another, or an if that is no other's else. */
  predicate IsHead(t: Tree, path: Path, o: bool, i: bool) {
    match At(t, path)
    case None => false
    case Some(u) => (u.Or? && !OnOr(t, path, o)) || (u.If? && !OnIf(t, path, i))
  }

  predicate KidOr(t: Tree, o: bool) {
    t.Or? || (t.Paren? && o)
  }

  lemma {:induction false} OrBelow(t: Tree, k: nat, path: Path, o: bool)
    requires k < |Kids(t)|
    ensures OnOr(t, [k] + path, o) == OnOr(Kids(t)[k], path, KidOr(t, o))
    decreases |path|
  {
    var whole := [k] + path;
    if path == [] {
      assert whole[..0] == [];
    } else {
      var up := path[..|path|-1];
      assert whole[..|whole|-1] == [k] + up && ([k] + up)[1..] == up;
      OrBelow(t, k, up, o);
    }
  }

  lemma {:induction false} HeadBelow(t: Tree, k: nat, path: Path, o: bool, i: bool)
    requires k < |Kids(t)|
    ensures IsHead(t, [k] + path, o, i) ==
            IsHead(Kids(t)[k], path, KidOr(t, o), t.If? && k == 2)
  {
    var whole := [k] + path;
    assert whole[1..] == path;
    OrBelow(t, k, path, o);
    if path != [] {
      var up := path[..|path|-1];
      assert whole[..|whole|-1] == [k] + up && ([k] + up)[1..] == up;
    } else {
      assert whole[..0] == [];
    }
  }

  /** What is compared in the chain a head begins. */
  function Compared(s: Source, u: Tree): seq<Option<Read>>
    requires u.Or? || u.If?
  {
    if u.Or? then OrReads(s, Operands(u)) else ArmReads(s, Arms(u))
  }

  /** The group is that of a chain of the code. */
  ghost predicate IsChains(s: Source, t: Tree, o: bool, i: bool, g: seq<Option<Read>>) {
    exists path :: IsHead(t, path, o, i) && g == Compared(s, At(t, path).value)
  }

  /** What the walk was told fits where the code stands. */
  predicate Fits(t: Tree, joined: bool, o: bool, i: bool) {
    && (Strip(t).Or? ==> joined == o)
    && (t.If? ==> joined == i)
    && (t.Paren? && Strip(t).If? ==> !joined)
  }

  ghost predicate SomeKids(s: Source, t: Tree, o: bool, g: seq<Option<Read>>) {
    exists k :: 0 <= k < |Kids(t)| && IsChains(s, Kids(t)[k], KidOr(t, o), t.If? && k == 2, g)
  }

  lemma {:induction false} ChainsBelow(s: Source, t: Tree, o: bool, i: bool, g: seq<Option<Read>>)
    ensures IsChains(s, t, o, i, g) <==> (IsHead(t, [], o, i) && g == Compared(s, t)) || SomeKids(s, t, o, g)
  {
    if path :| IsHead(t, path, o, i) && g == Compared(s, At(t, path).value) {
      if path != [] { ChainDown(s, t, path, o, i, g); }
    }
    if IsHead(t, [], o, i) && g == Compared(s, t) {
      assert At(t, []).value == t;
    } else if k :| 0 <= k < |Kids(t)| && IsChains(s, Kids(t)[k], KidOr(t, o), t.If? && k == 2, g) {
      ChainUp(s, t, k, o, i, g);
    }
  }

  lemma {:induction false} ChainDown(s: Source, t: Tree, path: Path, o: bool, i: bool, g: seq<Option<Read>>)
    requires path != [] && IsHead(t, path, o, i) && g == Compared(s, At(t, path).value)
    ensures SomeKids(s, t, o, g)
  {
    assert path == [path[0]] + path[1..];
    HeadBelow(t, path[0], path[1..], o, i);
    assert IsChains(s, Kids(t)[path[0]], KidOr(t, o), t.If? && path[0] == 2, g);
  }

  lemma {:induction false} ChainUp(s: Source, t: Tree, k: nat, o: bool, i: bool, g: seq<Option<Read>>)
    requires k < |Kids(t)| && IsChains(s, Kids(t)[k], KidOr(t, o), t.If? && k == 2, g)
    ensures IsChains(s, t, o, i, g)
  {
    var path :| IsHead(Kids(t)[k], path, KidOr(t, o), t.If? && k == 2) && g == Compared(s, At(Kids(t)[k], path).value);
    HeadBelow(t, k, path, o, i);
    assert ([k] + path)[1..] == path && At(t, [k] + path) == At(Kids(t)[k], path);
  }

  lemma {:induction false} GroupsAre(s: Source, t: Tree, joined: bool, o: bool, i: bool, g: seq<Option<Read>>)
    requires Fits(t, joined, o, i)
    ensures g in Groups(s, t, joined) <==> IsChains(s, t, o, i, g)
    decreases t, 1
  {
    ChainsBelow(s, t, o, i, g);
    match t
    case Or(_, _) => OrGroupsAre(s, t, joined, o, i, g);
    case Paren(inner) =>
      assert Strip(t) == Strip(inner);
      GroupsAre(s, inner, joined, o, false, g);
      assert Kids(t)[0] == inner;
    case If(condition, body, other) => IfGroupsAre(s, t, joined, o, i, g);
    case Call(_, parts) => PartGroupsAre(s, t, parts, o, g);
    case Plain(parts) => PartGroupsAre(s, t, parts, o, g);
  }

  lemma {:induction false} PartGroupsAre(s: Source, t: Tree, parts: seq<Tree>, o: bool, g: seq<Option<Read>>)
    requires (t.Call? || t.Plain?) && parts == t.parts
    ensures g in GroupsIn(s, parts) <==> SomeKids(s, t, o, g)
    decreases t, 0
  {
    AllGroupsAre(s, t, parts, g);
    if k :| 0 <= k < |parts| && IsChains(s, parts[k], false, false, g) {
      assert IsChains(s, Kids(t)[k], false, false, g);
    }
  }

  lemma {:induction false} OrGroupsAre(s: Source, t: Tree, joined: bool, o: bool, i: bool, g: seq<Option<Read>>)
    requires t.Or? && Fits(t, joined, o, i)
    ensures g in Groups(s, t, joined) <==>
            (IsHead(t, [], o, i) && g == Compared(s, t)) || SomeKids(s, t, o, g)
    decreases t, 0
  {
    GroupsAre(s, t.left, InOr(t.left), true, false, g);
    GroupsAre(s, t.right, InOr(t.right), true, false, g);
    assert Kids(t)[0] == t.left && Kids(t)[1] == t.right;
    assert g in Groups(s, t, joined) <==> IsChains(s, Kids(t)[0], true, false, g)
                                          || IsChains(s, Kids(t)[1], true, false, g)
                                          || (!joined && g == Compared(s, t));
  }

  lemma {:induction false} IfGroupsAre(s: Source, t: Tree, joined: bool, o: bool, i: bool, g: seq<Option<Read>>)
    requires t.If? && Fits(t, joined, o, i)
    ensures g in Groups(s, t, joined) <==>
            || (IsHead(t, [], o, i) && g == Compared(s, t))
            || exists k :: 0 <= k < |Kids(t)| && IsChains(s, Kids(t)[k], false, k == 2, g)
    decreases t, 0
  {
    GroupsAre(s, t.condition, false, false, false, g);
    GroupsAre(s, t.body, false, false, false, g);
    assert Kids(t)[0] == t.condition && Kids(t)[1] == t.body;
    if t.other.Some? {
      GroupsAre(s, t.other.value, t.other.value.If?, false, true, g);
      assert Kids(t)[2] == t.other.value;
      assert g in Groups(s, t, joined) <==> IsChains(s, Kids(t)[0], false, false, g)
                                            || IsChains(s, Kids(t)[1], false, false, g)
                                            || IsChains(s, Kids(t)[2], false, true, g)
                                            || (!joined && g == Compared(s, t));
    } else {
      assert g in Groups(s, t, joined) <==> IsChains(s, Kids(t)[0], false, false, g)
                                            || IsChains(s, Kids(t)[1], false, false, g)
                                            || (!joined && g == Compared(s, t));
    }
  }

  lemma {:induction false} AllGroupsAre(s: Source, t: Tree, parts: seq<Tree>, g: seq<Option<Read>>)
    requires forall k :: 0 <= k < |parts| ==> parts[k] < t
    ensures g in GroupsIn(s, parts) <==> exists k :: 0 <= k < |parts| && IsChains(s, parts[k], false, false, g)
    decreases t, 0, |parts|
  {
    if parts != [] {
      var rest := parts[1..];
      GroupsAre(s, parts[0], false, false, false, g);
      AllGroupsAre(s, t, rest, g);
      if k :| 0 <= k < |rest| && IsChains(s, rest[k], false, false, g) { assert parts[k+1] == rest[k]; }
      if k :| 0 <= k < |parts| && IsChains(s, parts[k], false, false, g) {
        assert k > 0 ==> parts[k] == rest[k-1];
      }
    }
  }

  /** The groups compared in a function are those of its chains. */
  lemma {:induction false} GroupsExactly(s: Source, t: Tree, g: seq<Option<Read>>)
    ensures g in Groups(s, t, false) <==> IsChains(s, t, false, false, g)
  {
    GroupsAre(s, t, false, false, false, g);
  }

  // ----- what a chain is of -----

  /** From a || the path goes down through others and parentheses to what is none. */
  predicate LeafAt(t: Tree, path: Path, u: Tree)
    decreases |path|
  {
    if path == [] then u == t && !Strip(t).Or?
    else Strip(t).Or? && path[0] < |Kids(t)| && LeafAt(Kids(t)[path[0]], path[1..], u)
  }

  /** The operands of a chain are what such paths lead to; their calls are all of the chain's, in order. */
  lemma {:induction false} OperandsExactly(t: Tree, u: Tree)
    ensures u in Operands(t) <==> IsLeaf(t, u)
    ensures CallsIn(Operands(t)) == CallsOf(t)
    decreases t
  {
    OperandCalls(t);
    LeafKids(t, u);
    if t.Paren? && Strip(t).Or? {
      assert Operands(t) == Operands(t.inner) && Kids(t)[0] == t.inner;
      OperandsExactly(t.inner, u);
    } else if t.Or? {
      OperandsExactly(t.left, u);
      OperandsExactly(t.right, u);
      assert Operands(t) == Operands(t.left) + Operands(t.right);
      assert Kids(t)[0] == t.left && Kids(t)[1] == t.right;
    }
  }

  ghost predicate IsLeaf(t: Tree, u: Tree) {
    exists path :: LeafAt(t, path, u)
  }

  lemma {:induction false} LeafKids(t: Tree, u: Tree)
    ensures IsLeaf(t, u) <==>
            if Strip(t).Or? then exists k :: 0 <= k < |Kids(t)| && IsLeaf(Kids(t)[k], u) else u == t
  {
    if path :| LeafAt(t, path, u) {
      if path != [] { assert LeafAt(Kids(t)[path[0]], path[1..], u); }
    }
    if !Strip(t).Or? {
      assert LeafAt(t, [], t);
    } else if k :| 0 <= k < |Kids(t)| && IsLeaf(Kids(t)[k], u) {
      LeafBelow(t, k, u);
    }
  }

  lemma {:induction false} LeafBelow(t: Tree, k: nat, u: Tree)
    requires Strip(t).Or? && k < |Kids(t)|
    ensures IsLeaf(Kids(t)[k], u) ==> IsLeaf(t, u)
  {
    if path :| LeafAt(Kids(t)[k], path, u) {
      assert ([k] + path)[1..] == path;
      assert LeafAt(t, [k] + path, u);
    }
  }

  /** The else, `k` times over, if each is an if's. */
  function ElseIf(t: Tree, k: nat): (r: Option<Tree>)
    ensures r.Some? ==> r.value.If?
  {
    if !t.If? then None else if k == 0 then Some(t) else if t.other.Some? then ElseIf(t.other.value, k - 1) else None
  }

  /** The arms of a chain of ifs are the conditions and statements of its ifs. */
  lemma {:induction false} ArmsExactly(t: Tree, k: nat)
    requires t.If?
    ensures k < |Arms(t)| <==> ElseIf(t, k).Some?
    ensures k < |Arms(t)| ==> Arms(t)[k] == (ElseIf(t, k).value.condition, ElseIf(t, k).value.body)
    decreases k
  {
    if k > 0 && t.other.Some? && t.other.value.If? {
      ArmsExactly(t.other.value, k - 1);
      assert Arms(t)[1..] == Arms(t.other.value);
    }
  }

  /** What is compared are the parts that have one call given a literal, and can be read: as its text says. */
  lemma {:induction false} ReadExactly(s: Source, code: Tree, statement: Option<Tree>, r: Read)
    ensures Spelled(s, code, statement) == Some(r) <==>
            && CallsOf(code) == [r.call] && r.call in s.made
            && (code, statement) in s.texts && s.texts[(code, statement)] == Text(r.shape, r.words)
  {
    var found := CallsOf(code);
    if |found| == 1 { assert found == [found[0]]; }
  }

  // ----- what the walk joins -----

  /** In one of the groups `c` is read, and `d` is the first leading read it spells again. */
  ghost predicate JoinedIn(s: Source, groups: seq<seq<Option<Read>>>, c: Id, d: Id) {
    exists g, i: nat, j: nat :: g in groups && i < |g| && j < |g| && IsRead(g, i, d) && IsRead(g, j, c)
                                && Names(s, g, i, j, |g|)
  }

  /** What was joined stays, and joined now is what the groups say. */
  ghost predicate Precise(s: Source, groups: seq<seq<Option<Read>>>, before: map<Id, Id>, after: map<Id, Id>, c: Id) {
    && (c in before ==> c in after && after[c] == before[c])
    && (c in after && c !in before ==> JoinedIn(s, groups, c, after[c]))
    && forall d :: JoinedIn(s, groups, c, d) ==> c in after && after[c] == d
  }

  lemma {:induction false} JoinedInBoth(s: Source, a: seq<seq<Option<Read>>>, b: seq<seq<Option<Read>>>, c: Id, d: Id)
    ensures JoinedIn(s, a + b, c, d) <==> JoinedIn(s, a, c, d) || JoinedIn(s, b, c, d)
  {
  }

  lemma {:induction false} PreciseBoth(s: Source, a: seq<seq<Option<Read>>>, b: seq<seq<Option<Read>>>, x: map<Id, Id>,
                                       y: map<Id, Id>, z: map<Id, Id>, c: Id)
    requires Precise(s, a, x, y, c) && Precise(s, b, y, z, c)
    ensures Precise(s, a + b, x, z, c)
  {
    forall d ensures JoinedIn(s, a + b, c, d) <==> JoinedIn(s, a, c, d) || JoinedIn(s, b, c, d) {
      JoinedInBoth(s, a, b, c, d);
    }
  }

  ghost predicate Fresh(group: seq<Option<Read>>, same: map<Id, Id>) {
    forall k: nat, c: Id :: IsRead(group, k, c) ==> c !in same
  }

  lemma {:induction false} GroupPrecise(s: Source, same: map<Id, Id>, group: seq<Option<Read>>, c: Id)
    requires Apart(group) && Fresh(group, same)
    ensures Precise(s, [group], same, JoinGroup(s, same, group), c)
  {
    var r := JoinGroup(s, same, group);
    GroupExplains(s, same, group, c);
    forall k | 0 <= k < |group| && group[k].Some? ensures group[k].value.call !in same {
      assert IsRead(group, k, group[k].value.call);
    }
    if c in r && c !in same {
      var i: nat, j: nat :| i < j && IsRead(group, i, r[c]) && IsRead(group, j, c);
      GroupExactly(s, same, group, j);
      LeadsOrNamed(s, group, j);
      NamesAll(s, group, j);
      var k :| 0 <= k < |group| && Names(s, group, k, j, j);
      assert group in [group] && IsRead(group, k, r[c]);
    }
    forall d | JoinedIn(s, [group], c, d) ensures c in r && r[c] == d {
      var i: nat, j: nat :| i < |group| && j < |group| && IsRead(group, i, d) && IsRead(group, j, c)
        && Names(s, group, i, j, |group|);
      GroupExactly(s, same, group, j);
      LeadsOrNamed(s, group, j);
      NamesAll(s, group, j);
    }
  }

  /** A call compared in a chain was not joined in the part it stands in, whose only one it is. */
  lemma {:induction false} ReadsFresh(s: Source, pieces: seq<Tree>, group: seq<Option<Read>>, at: seq<nat>,
                                      same: map<Id, Id>)
    requires ReadOf(s, pieces, group, at) && FlatEach(s, pieces, same)
    ensures Fresh(group, same)
  {
    forall k: nat, c: Id | IsRead(group, k, c) ensures c !in same {
      var calls := CallsOf(pieces[at[k]]);
      assert calls == [c] && Flat(s, calls, same);
    }
  }

  lemma {:induction false} HeadPrecise(s: Source, t: Tree, same: map<Id, Id>, after: map<Id, Id>,
                                       group: seq<Option<Read>>, c: Id)
    requires (t.Or? || t.If?) && Once(CallsOf(t)) && Untouched(CallsOf(t), same) && after == Walk(s, t, true, same)
    requires group == Compared(s, t)
    ensures Precise(s, [group], after, JoinGroup(s, after, group), c)
  {
    WalkFlat(s, t, true, same);
    var pieces := PartPieces(t, true);
    PartCalls(t, true);
    PiecesApart(pieces);
    var at := if t.Or? then seq(|pieces|, k => k) else seq(|group|, k => 2 * k);
    if t.Or? { OrGroup(s, pieces); } else { IfGroup(s, t); ArmReadsOf(s, Arms(t)); }
    ReadsApart(s, pieces, group, at);
    ReadsFresh(s, pieces, group, at, after);
    GroupPrecise(s, after, group, c);
  }

  lemma {:induction false} WalkPrecise(s: Source, t: Tree, joined: bool, same: map<Id, Id>, c: Id)
    requires Once(CallsOf(t)) && Untouched(CallsOf(t), same)
    ensures Precise(s, Groups(s, t, joined), same, Walk(s, t, joined, same), c)
    decreases t, 1
  {
    match t
    case Or(left, right) =>
      var between := Walk(s, left, InOr(left), same);
      var after := Walk(s, right, InOr(right), between);
      var inside := Groups(s, left, InOr(left)) + Groups(s, right, InOr(right));
      OnceParts(CallsOf(left), CallsOf(right));
      UntouchedFirst(CallsOf(left), CallsOf(right), same);
      WalkFlat(s, left, InOr(left), same);
      UntouchedPart(CallsOf(left), CallsOf(right), same, between);
      WalkPrecise(s, left, InOr(left), same, c);
      WalkPrecise(s, right, InOr(right), between, c);
      PreciseBoth(s, Groups(s, left, InOr(left)), Groups(s, right, InOr(right)), same, between, after, c);
      Closes(s, t, joined, inside, same, after, c);
    case Paren(inner) => WalkPrecise(s, inner, joined, same, c);
    case If(_, _, _) => IfPrecise(s, t, joined, same, c);
    case Call(id, parts) =>
      OnceParts([id], CallsIn(parts));
      UntouchedFirst([id], CallsIn(parts), same);
      AllPrecise(s, t, parts, same, c);
    case Plain(parts) => AllPrecise(s, t, parts, same, c);
  }

  /** Behind its parts the head of a chain joins its group. */
  lemma {:induction false} Closes(s: Source, t: Tree, joined: bool, inside: seq<seq<Option<Read>>>, same: map<Id, Id>,
                                  after: map<Id, Id>, c: Id)
    requires (t.Or? || t.If?) && Once(CallsOf(t)) && Untouched(CallsOf(t), same) && after == Walk(s, t, true, same)
    requires Precise(s, inside, same, after, c)
    ensures Precise(s, inside + if joined then [] else [Compared(s, t)], same,
                    if joined then after else JoinGroup(s, after, Compared(s, t)), c)
  {
    if joined { assert inside + [] == inside; }
    else {
      HeadPrecise(s, t, same, after, Compared(s, t), c);
      PreciseBoth(s, inside, [Compared(s, t)], same, after, JoinGroup(s, after, Compared(s, t)), c);
    }
  }

  lemma {:induction false} IfPrecise(s: Source, t: Tree, joined: bool, same: map<Id, Id>, c: Id)
    requires t.If? && Once(CallsOf(t)) && Untouched(CallsOf(t), same)
    ensures Precise(s, Groups(s, t, joined), same, Walk(s, t, joined, same), c)
    decreases t, 0
  {
    var between := Walk(s, t.condition, false, same);
    var inside := Walk(s, t.body, false, between);
    var own := CallsOf(t.condition) + CallsOf(t.body);
    var others := if t.other.Some? then CallsOf(t.other.value) else [];
    assert CallsOf(t) == own + others;
    OnceParts(own, others);
    UntouchedFirst(own, others, same);
    OnceParts(CallsOf(t.condition), CallsOf(t.body));
    UntouchedFirst(CallsOf(t.condition), CallsOf(t.body), same);
    WalkFlat(s, t.condition, false, same);
    UntouchedPart(CallsOf(t.condition), CallsOf(t.body), same, between);
    ArmFlat(s, t, same);
    UntouchedPart(own, others, same, inside);
    WalkPrecise(s, t.condition, false, same, c);
    WalkPrecise(s, t.body, false, between, c);
    var groups, after := Groups(s, t.condition, false) + Groups(s, t.body, false), inside;
    PreciseBoth(s, Groups(s, t.condition, false), Groups(s, t.body, false), same, between, inside, c);
    if t.other.Some? {
      var other := t.other.value;
      WalkPrecise(s, other, other.If?, inside, c);
      after := Walk(s, other, other.If?, inside);
      PreciseBoth(s, groups, Groups(s, other, other.If?), same, inside, after, c);
      groups := groups + Groups(s, other, other.If?);
    } else { assert groups + [] == groups; }
    Closes(s, t, joined, groups, same, after, c);
  }

  lemma {:induction false} AllPrecise(s: Source, t: Tree, parts: seq<Tree>, same: map<Id, Id>, c: Id)
    requires Once(CallsIn(parts)) && Untouched(CallsIn(parts), same) && forall k :: 0 <= k < |parts| ==> parts[k] < t
    ensures Precise(s, GroupsIn(s, parts), same, WalkAll(s, parts, same), c)
    decreases t, 0, |parts|
  {
    if parts != [] {
      var first, rest := parts[0], parts[1..];
      var between := Walk(s, first, false, same);
      OnceParts(CallsOf(first), CallsIn(rest));
      UntouchedFirst(CallsOf(first), CallsIn(rest), same);
      WalkFlat(s, first, false, same);
      UntouchedPart(CallsOf(first), CallsIn(rest), same, between);
      WalkPrecise(s, first, false, same, c);
      AllPrecise(s, t, rest, between, c);
      PreciseBoth(s, Groups(s, first, false), GroupsIn(s, rest), same, between, WalkAll(s, rest, between), c);
    }
  }

  /** After a whole function is walked a call is another spelling of one exactly when in some chain of the
      function that is the first leading read it spells again. */
  lemma {:induction false} WalkExactly(s: Source, t: Tree, c: Id, d: Id)
    requires Once(CallsOf(t))
    ensures (c in Walk(s, t, false, map[]) && Walk(s, t, false, map[])[c] == d) <==>
            exists g, i: nat, j: nat :: IsChains(s, t, false, false, g) && i < |g| && j < |g|
                                        && IsRead(g, i, d) && IsRead(g, j, c) && Names(s, g, i, j, |g|)
  {
    WalkPrecise(s, t, false, map[], c);
    forall g ensures g in Groups(s, t, false) <==> IsChains(s, t, false, false, g) { GroupsExactly(s, t, g); }
    assert JoinedIn(s, Groups(s, t, false), c, d) <==>
           exists g, i: nat, j: nat :: IsChains(s, t, false, false, g) && i < |g| && j < |g|
                                       && IsRead(g, i, d) && IsRead(g, j, c) && Names(s, g, i, j, |g|);
  }
}
