/** Which calls are other spellings of an earlier call (internal/cproject/spellings.go:17-174,
    internal/cproject/resolve.go:525-570).  The text of a piece of code with its literals left
    out is given. */
module Spellings {

  datatype Option<+T> = None | Some(value: T)

  type Id = nat

  /** Code as far as it matters here: a `Call` is given a string literal; `Or` and `If` are the
      constructs whose parts are compared. */
  datatype Tree =
    | Or(left: Tree, right: Tree)
    | Paren(inner: Tree)
    | If(condition: Tree, body: Tree, other: Option<Tree>)
    | Call(id: Id, parts: seq<Tree>)
    | Plain(parts: seq<Tree>)

  /** The shape of a piece of code and the literals left out of it. */
  datatype Text = Text(shape: string, words: string)

  /** The function a call is made in and what it calls. */
  datatype Made = Made(from: string, target: string)

  /** What the source says: the text of a condition's or operand's code, with the statement it
      guards if it is an arm's; no text where the code cannot be read. */
  datatype Source = Source(texts: map<(Tree, Option<Tree>), Text>, made: map<Id, Made>)

  datatype Read = Read(call: Id, shape: string, words: string)

  function Strip(t: Tree): (r: Tree)
    ensures (r == t || r < t) && !r.Paren?
  {
    if t.Paren? then Strip(t.inner) else t
  }

  // ----- the calls in a piece of code -----

  function CallsOf(t: Tree): seq<Id>
    decreases t, 1
  {
    match t
    case Or(left, right) => CallsOf(left) + CallsOf(right)
    case Paren(inner) => CallsOf(inner)
    case If(condition, body, other) => CallsOf(condition) + CallsOf(body) + if other.Some? then CallsOf(other.value)
      else []
    case Call(id, parts) => [id] + CallsIn(parts)
    case Plain(parts) => CallsIn(parts)
  }

  function CallsIn(parts: seq<Tree>): seq<Id>
    decreases parts, 0
  {
    if parts == [] then [] else CallsOf(parts[0]) + CallsIn(parts[1..])
  }

  /** No call stands in a list twice. */
  predicate Once(calls: seq<Id>) {
    calls == [] || (calls[0] !in calls[1..] && Once(calls[1..]))
  }

  lemma {:induction false} OnceParts(a: seq<Id>, b: seq<Id>)
    requires Once(a + b)
    ensures Once(a) && Once(b) && forall c :: c in a ==> c !in b
  {
    if a == [] { assert a + b == b; }
    else {
      assert (a + b)[1..] == a[1..] + b;
      OnceParts(a[1..], b);
    }
  }

  // ----- chains -----

  /** The operands of a chain of ||, looking through parentheses. */
  function Operands(t: Tree): seq<Tree>
    decreases t
  {
    var inner := Strip(t);
    if inner.Or? then Operands(inner.left) + Operands(inner.right) else [t]
  }

  /** The arms of an if/else-if chain: condition and statement. */
  function Arms(t: Tree): seq<(Tree, Tree)>
    requires t.If?
  {
    [(t.condition, t.body)] + if t.other.Some? && t.other.value.If? then Arms(t.other.value) else []
  }

  /** The one call of a piece of code, if it has one only and can be read. */
  function Spelled(s: Source, code: Tree, statement: Option<Tree>): Option<Read> {
    var found := CallsOf(code);
    if |found| == 1 && (code, statement) in s.texts && found[0] in s.made then
      Some(Read(found[0], s.texts[(code, statement)].shape, s.texts[(code, statement)].words))
    else None
  }

  function OrReads(s: Source, operands: seq<Tree>): seq<Option<Read>> {
    if operands == [] then [] else [Spelled(s, operands[0], None)] + OrReads(s, operands[1..])
  }

  function ArmReads(s: Source, arms: seq<(Tree, Tree)>): seq<Option<Read>> {
    if arms == [] then [] else [Spelled(s, arms[0].0, Some(arms[0].1))] + ArmReads(s, arms[1..])
  }

  // ----- joining the reads of one group -----

  /** A later read is another spelling of the first one. */
  predicate Respells(s: Source, first: Read, later: Read) {
    && later.call != first.call && later.shape == first.shape && later.words != first.words
    && later.call in s.made && first.call in s.made && s.made[later.call] == s.made[first.call]
  }

  /** The reads from `j` on that are not joined yet and spell read `i` again, joined to it. */
  function JoinLater(s: Source, same: map<Id, Id>, group: seq<Option<Read>>, i: nat, j: nat): map<Id, Id>
    requires i < |group| && j <= |group|
    decreases |group| - j
  {
    if j == |group| || group[i].None? then same
    else
      var first, later := group[i].value, group[j];
      JoinLater(s, if later.Some? && later.value.call !in same && Respells(s, first, later.value)
        then same[later.value.call := first.call] else same,
                group, i, j + 1)
  }

  function JoinFrom(s: Source, same: map<Id, Id>, group: seq<Option<Read>>, i: nat): map<Id, Id>
    requires i <= |group|
    decreases |group| - i
  {
    if i == |group| then same
    else JoinFrom(s, if group[i].None? || group[i].value.call in same then same
      else JoinLater(s, same, group, i, i + 1), group, i + 1)
  }

  function JoinGroup(s: Source, same: map<Id, Id>, group: seq<Option<Read>>): map<Id, Id> {
    if |group| < 2 then same else JoinFrom(s, same, group, 0)
  }

  // ----- the walk -----

  /** What the walk makes of a tree.  Inside a chain whose head was met, `joined`, a || or an if
      starts no chain of its own. */
  function Walk(s: Source, t: Tree, joined: bool, same: map<Id, Id>): map<Id, Id>
    decreases t, 1
  {
    match t
    case Or(left, right) =>
      var after := Walk(s, right, InOr(right), Walk(s, left, InOr(left), same));
      if joined then after else JoinGroup(s, after, OrReads(s, Operands(t)))
    case Paren(inner) => Walk(s, inner, joined, same)
    case If(condition, body, other) =>
      var inside := Walk(s, body, false, Walk(s, condition, false, same));
      var after := if other.Some? then Walk(s, other.value, other.value.If?, inside) else inside;
      if joined then after else JoinGroup(s, after, ArmReads(s, Arms(t)))
    case Call(_, parts) => WalkAll(s, parts, same)
    case Plain(parts) => WalkAll(s, parts, same)
  }

  /** An operand that is a || itself belongs to the chain. */
  predicate InOr(t: Tree) {
    Strip(t).Or?
  }

  function WalkAll(s: Source, parts: seq<Tree>, same: map<Id, Id>): map<Id, Id>
    decreases parts, 0
  {
    if parts == [] then same else WalkAll(s, parts[1..], Walk(s, parts[0], false, same))
  }

  // ----- what joining a group gives -----

  predicate IsRead(group: seq<Option<Read>>, k: nat, c: Id) {
    k < |group| && group[k].Some? && group[k].value.call == c
  }

  /** The reads of a group are of different calls. */
  ghost predicate Apart(group: seq<Option<Read>>) {
    forall i: nat, j: nat, c: Id :: IsRead(group, i, c) && IsRead(group, j, c) ==> i == j
  }

  /** `c` was joined to `d`: two reads of the group, the later spelling the first again. */
  ghost predicate Paired(s: Source, group: seq<Option<Read>>, c: Id, d: Id, below: nat) {
    exists i: nat, j: nat :: i < below && i < j && IsRead(group, i, d) && IsRead(group, j, c)
      && Respells(s, group[i].value, group[j].value)
  }

  /** What was joined with the reads before `n` as first ones. */
  ghost predicate Joined(s: Source, base: map<Id, Id>, now: map<Id, Id>, group: seq<Option<Read>>, n: nat) {
    && (forall c :: c in base ==> c in now && now[c] == base[c])
    && forall c :: c in now && c !in base ==> Paired(s, group, c, now[c], n) && now[c] !in now
  }

  lemma {:induction false} LaterJoins(s: Source, same: map<Id, Id>, group: seq<Option<Read>>, i: nat, j: nat, c: Id)
    requires i < j <= |group| && group[i].Some?
    ensures var r := JoinLater(s, same, group, i, j);
            && (c in same ==> c in r && r[c] == same[c])
            && (c in r && c !in same ==> r[c] == group[i].value.call && exists k: nat ::
                  j <= k && IsRead(group, k, c)
                  && Respells(s, group[i].value, group[k].value))
    decreases |group| - j
  {
    if j < |group| {
      var first, later := group[i].value, group[j];
      var next := if later.Some? && later.value.call !in same && Respells(s, first, later.value)
        then same[later.value.call := first.call] else same;
      LaterJoins(s, next, group, i, j + 1, c);
      var r := JoinLater(s, same, group, i, j);
      if c in r && c !in same && c in next { assert IsRead(group, j, c); }
    }
  }

  lemma {:induction false} PairedMore(s: Source, group: seq<Option<Read>>, c: Id, d: Id, n: nat)
    requires Paired(s, group, c, d, n)
    ensures Paired(s, group, c, d, n + 1) && exists k: nat :: k < n && IsRead(group, k, d)
  {
    var i: nat, j: nat :| i < n && i < j && IsRead(group, i, d) && IsRead(group, j, c)
      && Respells(s, group[i].value, group[j].value);
    assert i < n + 1;
  }

  /** What a call joined before is joined to is not joined now. */
  lemma {:induction false} FirstStays(s: Source, base: map<Id, Id>, now: map<Id, Id>, group: seq<Option<Read>>, i: nat,
                                      c: Id)
    requires i < |group| && group[i].Some? && Apart(group) && Joined(s, base, now, group, i) && c in now && c !in base
    ensures now[c] !in JoinLater(s, now, group, i, i + 1)
  {
    PairedMore(s, group, c, now[c], i);
    LaterJoins(s, now, group, i, i + 1, now[c]);
  }

  lemma {:induction false} FirstJoinsAt(s: Source, base: map<Id, Id>, now: map<Id, Id>, group: seq<Option<Read>>,
                                        i: nat, c: Id)
    requires i < |group| && group[i].Some? && Apart(group) && Joined(s, base, now, group, i)
             && group[i].value.call !in now
    ensures var r := JoinLater(s, now, group, i, i + 1);
            && (c in base ==> c in r && r[c] == base[c])
            && (c in r && c !in base ==> Paired(s, group, c, r[c], i + 1) && r[c] !in r)
  {
    var r := JoinLater(s, now, group, i, i + 1);
    LaterJoins(s, now, group, i, i + 1, c);
    if c in now && c !in base {
      PairedMore(s, group, c, now[c], i);
      FirstStays(s, base, now, group, i, c);
    } else if c in r && c !in base {
      var first := group[i].value.call;
      assert IsRead(group, i, first);
      LaterJoins(s, now, group, i, i + 1, first);
    }
  }

  lemma {:induction false} FirstJoins(s: Source, base: map<Id, Id>, now: map<Id, Id>, group: seq<Option<Read>>, i: nat)
    requires i < |group| && Apart(group) && Joined(s, base, now, group, i)
    ensures Joined(s, base, if group[i].None? || group[i].value.call in now then now
            else JoinLater(s, now, group, i, i + 1), group, i + 1)
  {
    if group[i].None? || group[i].value.call in now {
      forall c | c in now && c !in base ensures Paired(s, group, c, now[c], i + 1) {
        PairedMore(s, group, c, now[c], i);
      }
    } else {
      forall c ensures var r := JoinLater(s, now, group, i, i + 1);
                       && (c in base ==> c in r && r[c] == base[c])
                       && (c in r && c !in base ==> Paired(s, group, c, r[c], i + 1) && r[c] !in r)
      {
        FirstJoinsAt(s, base, now, group, i, c);
      }
    }
  }

  lemma {:induction false} FromJoins(s: Source, base: map<Id, Id>, now: map<Id, Id>, group: seq<Option<Read>>, i: nat)
    requires i <= |group| && Apart(group) && Joined(s, base, now, group, i)
    ensures Joined(s, base, JoinFrom(s, now, group, i), group, |group|)
    decreases |group| - i
  {
    if i < |group| {
      FirstJoins(s, base, now, group, i);
      FromJoins(s, base, if group[i].None? || group[i].value.call in now then now
        else JoinLater(s, now, group, i, i + 1), group, i + 1);
    }
  }

  lemma {:induction false} GroupJoins(s: Source, same: map<Id, Id>, group: seq<Option<Read>>)
    requires Apart(group)
    ensures Joined(s, same, JoinGroup(s, same, group), group, |group|)
  {
    if |group| >= 2 { FromJoins(s, same, same, group, 0); }
  }

  // ----- what the walk gives -----

  /** Outside the calls of a piece of code nothing was joined. */
  ghost predicate Same(calls: seq<Id>, before: map<Id, Id>, after: map<Id, Id>) {
    forall c :: c !in calls ==> (c in before <==> c in after) && (c in before && c in after ==> before[c] == after[c])
  }

  ghost predicate Untouched(calls: seq<Id>, same: map<Id, Id>) {
    forall c :: c in calls ==> c !in same
  }

  /** A joined call is joined to another call of the code that is joined to none, made in the
      same function and of the same target. */
  ghost predicate Flat(s: Source, calls: seq<Id>, same: map<Id, Id>) {
    forall c :: c in calls && c in same ==> FlatAt(s, calls, same, c)
  }

  predicate FlatAt(s: Source, calls: seq<Id>, same: map<Id, Id>, c: Id)
    requires c in same
  {
    var d := same[c];
    d in calls && d !in same && d != c && c in s.made && d in s.made && s.made[c] == s.made[d]
  }

  /** Joins done in one part of the code do not disturb those done in another. */
  lemma {:induction false} FlatBoth(s: Source, a: seq<Id>, b: seq<Id>, before: map<Id, Id>, after: map<Id, Id>)
    requires Flat(s, a, before) && Same(b, before, after) && Flat(s, b, after) && forall c :: c in a ==> c !in b
    ensures Flat(s, a, after) && Flat(s, a + b, after)
  {
    forall c | c in a + b && c in after ensures FlatAt(s, a + b, after, c) {
      if c in a { assert FlatAt(s, a, before, c); } else { assert FlatAt(s, b, after, c); }
    }
    forall c | c in a && c in after ensures FlatAt(s, a, after, c) { assert FlatAt(s, a, before, c); }
  }

  lemma {:induction false} FlatNone(s: Source, calls: seq<Id>, same: map<Id, Id>)
    requires Untouched(calls, same)
    ensures Flat(s, calls, same)
  {
  }

  /** Pieces of code each flat in itself, with no call in two of them. */
  ghost predicate FlatEach(s: Source, pieces: seq<Tree>, same: map<Id, Id>) {
    forall k :: 0 <= k < |pieces| ==> Flat(s, CallsOf(pieces[k]), same)
  }

  ghost predicate ApartEach(pieces: seq<Tree>) {
    forall i, j, c :: 0 <= i < |pieces| && 0 <= j < |pieces| && c in CallsOf(pieces[i]) && c in CallsOf(pieces[j]) ==>
      i == j
  }

  /** Which pieces a group's reads are of. */
  ghost predicate ReadOf(s: Source, pieces: seq<Tree>, group: seq<Option<Read>>, at: seq<nat>) {
    && |at| == |group| && (forall i, j :: 0 <= i < j < |at| ==> at[i] < at[j])
    && forall k :: 0 <= k < |group| ==>
      at[k] < |pieces| && (group[k].Some? ==> CallsOf(pieces[at[k]]) == [group[k].value.call])
  }

  lemma {:induction false} SamePiece(at: seq<nat>, i: nat, j: nat)
    requires (forall k, l :: 0 <= k < l < |at| ==> at[k] < at[l]) && i < |at| && j < |at| && at[i] == at[j]
    ensures i == j
  {
  }

  lemma {:induction false} ReadsApart(s: Source, pieces: seq<Tree>, group: seq<Option<Read>>, at: seq<nat>)
    requires ReadOf(s, pieces, group, at) && ApartEach(pieces)
    ensures Apart(group)
  {
    forall i: nat, j: nat, c: Id | IsRead(group, i, c) && IsRead(group, j, c) ensures i == j {
      assert c in CallsOf(pieces[at[i]]) && c in CallsOf(pieces[at[j]]);
      SamePiece(at, i, j);
    }
  }

  /** A read is of the only call of its piece. */
  lemma {:induction false} ReadAlone(s: Source, pieces: seq<Tree>, group: seq<Option<Read>>, at: seq<nat>, p: nat,
                                     d: Id, k: nat)
    requires ReadOf(s, pieces, group, at) && ApartEach(pieces) && p < |pieces| && d in CallsOf(pieces[p])
             && IsRead(group, k, d)
    ensures CallsOf(pieces[p]) == [d]
  {
    assert d in CallsOf(pieces[at[k]]);
  }

  /** Two calls joined in one piece are no reads of the group. */
  lemma {:induction false} JoinedNoRead(s: Source, pieces: seq<Tree>, group: seq<Option<Read>>, at: seq<nat>,
                                        same: map<Id, Id>, p: nat, c: Id, k: nat)
    requires ReadOf(s, pieces, group, at) && ApartEach(pieces) && p < |pieces| && c in CallsOf(pieces[p]) && c in same
    requires FlatAt(s, CallsOf(pieces[p]), same, c)
    ensures !IsRead(group, k, same[c])
  {
    if IsRead(group, k, same[c]) { ReadAlone(s, pieces, group, at, p, same[c], k); }
  }

  ghost predicate Covers(calls: seq<Id>, pieces: seq<Tree>) {
    && (forall k :: 0 <= k < |pieces| ==> forall c :: c in CallsOf(pieces[k]) ==> c in calls)
    && forall c :: c in calls ==> exists k :: 0 <= k < |pieces| && c in CallsOf(pieces[k])
  }

  /** After its own joins a group's code is flat as a whole. */
  lemma {:induction false} GroupFlat(s: Source, calls: seq<Id>, pieces: seq<Tree>, group: seq<Option<Read>>,
                                     at: seq<nat>, same: map<Id, Id>)
    requires ReadOf(s, pieces, group, at) && ApartEach(pieces) && FlatEach(s, pieces, same) && Covers(calls, pieces)
    ensures Flat(s, calls, JoinGroup(s, same, group)) && Same(calls, same, JoinGroup(s, same, group))
  {
    var after := JoinGroup(s, same, group);
    ReadsApart(s, pieces, group, at);
    GroupJoins(s, same, group);
    forall c | c in after && c !in same ensures c in calls && FlatAt(s, calls, after, c) {
      NewFlat(s, calls, pieces, group, at, after, c);
    }
    forall c | c in calls && c in same ensures FlatAt(s, calls, after, c) {
      OldFlat(s, calls, pieces, group, at, same, after, c);
    }
  }

  lemma {:induction false} NewFlat(s: Source, calls: seq<Id>, pieces: seq<Tree>, group: seq<Option<Read>>, at: seq<nat>,
                                   after: map<Id, Id>, c: Id)
    requires ReadOf(s, pieces, group, at) && Covers(calls, pieces)
    requires c in after && Paired(s, group, c, after[c], |group|) && after[c] !in after
    ensures c in calls && FlatAt(s, calls, after, c)
  {
    var i: nat, j: nat :| i < j && IsRead(group, i, after[c]) && IsRead(group, j, c)
      && Respells(s, group[i].value, group[j].value);
    assert after[c] in CallsOf(pieces[at[i]]) && c in CallsOf(pieces[at[j]]);
  }

  lemma {:induction false} OldFlat(s: Source, calls: seq<Id>, pieces: seq<Tree>, group: seq<Option<Read>>, at: seq<nat>,
                                   same: map<Id, Id>, after: map<Id, Id>, c: Id)
    requires ReadOf(s, pieces, group, at) && ApartEach(pieces) && FlatEach(s, pieces, same) && Covers(calls, pieces)
    requires Joined(s, same, after, group, |group|) && c in calls && c in same
    ensures FlatAt(s, calls, after, c)
  {
    var p :| 0 <= p < |pieces| && c in CallsOf(pieces[p]);
    assert Flat(s, CallsOf(pieces[p]), same);
    assert FlatAt(s, CallsOf(pieces[p]), same, c);
    if same[c] in after {
      var j: nat :| IsRead(group, j, same[c]);
      JoinedNoRead(s, pieces, group, at, same, p, c, j);
    }
  }

  // ----- the pieces of a chain -----

  lemma {:induction false} CallsInBoth(a: seq<Tree>, b: seq<Tree>)
    ensures CallsIn(a + b) == CallsIn(a) + CallsIn(b)
  {
    if a == [] { assert a + b == b; }
    else {
      assert (a + b)[1..] == a[1..] + b;
      CallsInBoth(a[1..], b);
    }
  }

  lemma {:induction false} CallsInOne(t: Tree)
    ensures CallsIn([t]) == CallsOf(t)
  {
    assert [t][1..] == [];
  }

  lemma {:induction false} StripCalls(t: Tree)
    ensures CallsOf(Strip(t)) == CallsOf(t)
  {
    if t.Paren? { StripCalls(t.inner); }
  }

  lemma {:induction false} OperandCalls(t: Tree)
    ensures CallsIn(Operands(t)) == CallsOf(t)
    decreases t
  {
    var inner := Strip(t);
    StripCalls(t);
    if inner.Or? {
      OperandCalls(inner.left);
      OperandCalls(inner.right);
      CallsInBoth(Operands(inner.left), Operands(inner.right));
    } else {
      CallsInOne(t);
    }
  }

  /** Conditions and statements of a chain of ifs, and what stands after the last else. */
  function Pieces(t: Tree): seq<Tree>
    requires t.If?
  {
    [t.condition, t.body] + if t.other.None? then [] else if t.other.value.If? then Pieces(t.other.value)
      else [t.other.value]
  }

  lemma {:induction false} PieceCalls(t: Tree)
    requires t.If?
    ensures CallsIn(Pieces(t)) == CallsOf(t)
  {
    CallsInOne(t.condition);
    CallsInOne(t.body);
    CallsInBoth([t.condition], [t.body]);
    assert [t.condition] + [t.body] == [t.condition, t.body];
    if t.other.Some? {
      if t.other.value.If? { PieceCalls(t.other.value); CallsInBoth([t.condition, t.body], Pieces(t.other.value)); }
      else { CallsInOne(t.other.value); CallsInBoth([t.condition, t.body], [t.other.value]); }
    } else {
      assert [t.condition, t.body] + [] == [t.condition, t.body];
    }
  }

  lemma {:induction false} PieceIn(pieces: seq<Tree>, k: nat, c: Id)
    requires k < |pieces| && c in CallsOf(pieces[k])
    ensures c in CallsIn(pieces)
    decreases k
  {
    if k > 0 { PieceIn(pieces[1..], k - 1, c); }
  }

  lemma {:induction false} SomePiece(pieces: seq<Tree>, c: Id)
    requires c in CallsIn(pieces)
    ensures exists k :: 0 <= k < |pieces| && c in CallsOf(pieces[k])
  {
    if c !in CallsOf(pieces[0]) {
      SomePiece(pieces[1..], c);
      var k :| 0 <= k < |pieces[1..]| && c in CallsOf(pieces[1..][k]);
      assert pieces[k+1] == pieces[1..][k];
    }
  }

  lemma {:induction false} PiecesCover(pieces: seq<Tree>)
    ensures Covers(CallsIn(pieces), pieces)
  {
    forall k, c | 0 <= k < |pieces| && c in CallsOf(pieces[k]) ensures c in CallsIn(pieces) { PieceIn(pieces, k, c); }
    forall c | c in CallsIn(pieces) ensures exists k :: 0 <= k < |pieces| && c in CallsOf(pieces[k]) {
      SomePiece(pieces, c);
    }
  }

  lemma {:induction false} PiecesApart(pieces: seq<Tree>)
    requires Once(CallsIn(pieces))
    ensures ApartEach(pieces)
  {
    if pieces != [] {
      var rest := pieces[1..];
      OnceParts(CallsOf(pieces[0]), CallsIn(rest));
      PiecesApart(rest);
      forall i, j, c | 0 <= i < |pieces| && 0 <= j < |pieces| && c in CallsOf(pieces[i]) && c in CallsOf(pieces[j])
        ensures i == j
      {
        if i > 0 { assert pieces[i] == rest[i-1]; PieceIn(rest, i - 1, c); }
        if j > 0 { assert pieces[j] == rest[j-1]; PieceIn(rest, j - 1, c); }
      }
    }
  }

  lemma {:induction false} OrReadsOf(s: Source, operands: seq<Tree>)
    ensures |OrReads(s, operands)| == |operands|
    ensures forall k :: 0 <= k < |operands| ==> OrReads(s, operands)[k] == Spelled(s, operands[k], None)
  {
    if operands != [] { OrReadsOf(s, operands[1..]); }
  }

  lemma {:induction false} OrGroup(s: Source, operands: seq<Tree>)
    ensures ReadOf(s, operands, OrReads(s, operands), seq(|operands|, k => k))
  {
    OrReadsOf(s, operands);
    forall k | 0 <= k < |operands| && OrReads(s, operands)[k].Some?
      ensures CallsOf(operands[k]) == [OrReads(s, operands)[k].value.call]
    {
      SpelledIs(s, operands[k], None);
    }
  }

  lemma {:induction false} SpelledIs(s: Source, code: Tree, statement: Option<Tree>)
    requires Spelled(s, code, statement).Some?
    ensures CallsOf(code) == [Spelled(s, code, statement).value.call]
  {
    var found := CallsOf(code);
    assert found == [found[0]];
  }

  /** The condition of the arm `k` is the piece `2k`. */
  lemma {:induction false} ArmPiece(s: Source, t: Tree, k: nat)
    requires t.If? && k < |Arms(t)|
    ensures |ArmReads(s, Arms(t))| == |Arms(t)| && 2 * k < |Pieces(t)|
    ensures ArmReads(s, Arms(t))[k] == Spelled(s, Pieces(t)[2 * k], Some(Arms(t)[k].1))
    decreases k
  {
    ArmReadsOf(s, Arms(t));
    if k > 0 {
      ArmReadsOf(s, Arms(t.other.value));
      ArmPiece(s, t.other.value, k - 1);
      assert Arms(t)[1..] == Arms(t.other.value);
      assert Pieces(t)[2..] == Pieces(t.other.value);
    }
  }

  lemma {:induction false} ArmReadsOf(s: Source, arms: seq<(Tree, Tree)>)
    ensures |ArmReads(s, arms)| == |arms|
    ensures forall k :: 0 <= k < |arms| ==> ArmReads(s, arms)[k] == Spelled(s, arms[k].0, Some(arms[k].1))
  {
    if arms != [] { ArmReadsOf(s, arms[1..]); }
  }

  lemma {:induction false} IfGroup(s: Source, t: Tree)
    requires t.If?
    ensures ReadOf(s, Pieces(t), ArmReads(s, Arms(t)), seq(|Arms(t)|, k => 2 * k))
  {
    var group := ArmReads(s, Arms(t));
    ArmReadsOf(s, Arms(t));
    forall k | 0 <= k < |group|
      ensures 2 * k < |Pieces(t)| && (group[k].Some? ==> CallsOf(Pieces(t)[2 * k]) == [group[k].value.call])
    {
      ArmPiece(s, t, k);
      if group[k].Some? { SpelledIs(s, Pieces(t)[2 * k], Some(Arms(t)[k].1)); }
    }
  }

  // ----- the whole walk -----

  lemma {:induction false} SameBoth(a: seq<Id>, b: seq<Id>, x: map<Id, Id>, y: map<Id, Id>, z: map<Id, Id>)
    requires Same(a, x, y) && Same(b, y, z)
    ensures Same(a + b, x, z)
  {
    forall c | c !in a + b ensures (c in x <==> c in z) && (c in x && c in z ==> x[c] == z[c]) {
      assert c !in a && c !in b;
    }
  }

  lemma {:induction false} FlatEachKeeps(s: Source, pieces: seq<Tree>, b: seq<Id>, before: map<Id, Id>,
                                         after: map<Id, Id>)
    requires FlatEach(s, pieces, before) && Same(b, before, after) && forall c :: c in CallsIn(pieces) ==> c !in b
    ensures FlatEach(s, pieces, after)
  {
    forall k | 0 <= k < |pieces| ensures Flat(s, CallsOf(pieces[k]), after) {
      assert Flat(s, CallsOf(pieces[k]), before);
      forall c | c in CallsOf(pieces[k]) && c in after ensures FlatAt(s, CallsOf(pieces[k]), after, c) {
        PieceIn(pieces, k, c);
        assert FlatAt(s, CallsOf(pieces[k]), before, c);
        PieceIn(pieces, k, before[c]);
      }
    }
  }

  lemma {:induction false} FlatEachBoth(s: Source, a: seq<Tree>, b: seq<Tree>, same: map<Id, Id>)
    requires FlatEach(s, a, same) && FlatEach(s, b, same)
    ensures FlatEach(s, a + b, same)
  {
    forall k | 0 <= k < |a + b| ensures Flat(s, CallsOf((a + b)[k]), same) {
      if k >= |a| { assert (a + b)[k] == b[k - |a|]; }
    }
  }

  /** Two parts of the code walked one after the other. */
  lemma {:induction false} NextPart(s: Source, a: seq<Tree>, b: seq<Tree>, before: map<Id, Id>, between: map<Id, Id>,
                                    after: map<Id, Id>)
    requires Once(CallsIn(a) + CallsIn(b))
    requires FlatEach(s, a, between) && Same(CallsIn(a), before, between) && FlatEach(s, b, after)
             && Same(CallsIn(b), between, after)
    ensures FlatEach(s, a + b, after) && Same(CallsIn(a) + CallsIn(b), before, after)
  {
    OnceParts(CallsIn(a), CallsIn(b));
    SameBoth(CallsIn(a), CallsIn(b), before, between, after);
    FlatEachKeeps(s, a, CallsIn(b), between, after);
    FlatEachBoth(s, a, b, after);
  }

  lemma {:induction false} UntouchedPart(a: seq<Id>, b: seq<Id>, before: map<Id, Id>, between: map<Id, Id>)
    requires Once(a + b) && Untouched(a + b, before) && Same(a, before, between)
    ensures Once(a) && Once(b) && Untouched(a, before) && Untouched(b, between)
  {
    OnceParts(a, b);
    forall c | c in b ensures c !in between { assert c in a + b; }
    forall c | c in a ensures c !in before { assert c in a + b; }
  }

  /** The pieces of a part that is walked as a chain's. */
  function PartPieces(t: Tree, joined: bool): seq<Tree> {
    if !joined then [t] else if t.If? then Pieces(t) else Operands(t)
  }

  lemma {:induction false} PartCalls(t: Tree, joined: bool)
    ensures CallsIn(PartPieces(t, joined)) == CallsOf(t)
  {
    if !joined { CallsInOne(t); } else if t.If? { PieceCalls(t); } else { OperandCalls(t); }
  }

  /** Walking a part leaves each of its pieces flat and joins nothing outside it. */
  ghost predicate Walked(s: Source, t: Tree, joined: bool, before: map<Id, Id>, after: map<Id, Id>) {
    FlatEach(s, PartPieces(t, joined), after) && Same(CallsOf(t), before, after)
  }

  lemma {:induction false} WalkFlat(s: Source, t: Tree, joined: bool, same: map<Id, Id>)
    requires Once(CallsOf(t)) && Untouched(CallsOf(t), same) && (joined ==> t.If? || Strip(t).Or?)
    ensures Walked(s, t, joined, same, Walk(s, t, joined, same))
    decreases t, 2
  {
    match t
    case Or(left, right) => OrFlat(s, t, joined, same);
    case Paren(inner) =>
      WalkFlat(s, inner, joined, same);
      if joined { assert Operands(t) == Operands(inner); }
      else { OnePiece(s, inner, Walk(s, inner, false, same)); OnePiece(s, t, Walk(s, inner, false, same)); }
    case If(condition, body, other) => IfFlat(s, t, joined, same);
    case Call(id, parts) => PartsFlat(s, t, [id], parts, same);
    case Plain(parts) =>
      assert [] + CallsIn(parts) == CallsIn(parts);
      PartsFlat(s, t, [], parts, same);
  }

  lemma {:induction false} OnePiece(s: Source, t: Tree, same: map<Id, Id>)
    ensures FlatEach(s, [t], same) <==> Flat(s, CallsOf(t), same)
  {
    if FlatEach(s, [t], same) { assert Flat(s, CallsOf([t][0]), same); }
  }

  lemma {:induction false} OperandFlat(s: Source, t: Tree, same: map<Id, Id>)
    requires Once(CallsOf(t)) && Untouched(CallsOf(t), same)
    ensures FlatEach(s, Operands(t), Walk(s, t, InOr(t), same)) && Same(CallsOf(t), same, Walk(s, t, InOr(t), same))
    decreases t, 3
  {
    WalkFlat(s, t, InOr(t), same);
  }

  lemma {:induction false} OrFlat(s: Source, t: Tree, joined: bool, same: map<Id, Id>)
    requires t.Or? && Once(CallsOf(t)) && Untouched(CallsOf(t), same)
    ensures Walked(s, t, joined, same, Walk(s, t, joined, same))
    decreases t, 1
  {
    var left, right := t.left, t.right;
    var between := Walk(s, left, InOr(left), same);
    var after := Walk(s, right, InOr(right), between);
    OnceParts(CallsOf(left), CallsOf(right));
    OperandFlat(s, left, same);
    UntouchedPart(CallsOf(left), CallsOf(right), same, between);
    OperandFlat(s, right, between);
    OperandCalls(left);
    OperandCalls(right);
    NextPart(s, Operands(left), Operands(right), same, between, after);
    assert Operands(t) == Operands(left) + Operands(right);
    if !joined {
      HeadFlat(s, t, Operands(t), OrReads(s, Operands(t)), seq(|Operands(t)|, k => k), same,
        after) by { OrGroup(s, Operands(t)); OperandCalls(t); }
    }
  }

  /** The head of a chain joins its group. */
  lemma {:induction false} HeadFlat(s: Source, t: Tree, pieces: seq<Tree>, group: seq<Option<Read>>, at: seq<nat>,
                                    before: map<Id, Id>, after: map<Id, Id>)
    requires CallsIn(pieces) == CallsOf(t) && Once(CallsOf(t)) && ReadOf(s, pieces, group, at)
    requires FlatEach(s, pieces, after) && Same(CallsOf(t), before, after)
    ensures Walked(s, t, false, before, JoinGroup(s, after, group))
  {
    PiecesApart(pieces);
    PiecesCover(pieces);
    GroupFlat(s, CallsOf(t), pieces, group, at, after);
    OnePiece(s, t, JoinGroup(s, after, group));
    SameTwice(CallsOf(t), before, after, JoinGroup(s, after, group));
  }

  lemma {:induction false} SameTwice(a: seq<Id>, x: map<Id, Id>, y: map<Id, Id>, z: map<Id, Id>)
    requires Same(a, x, y) && Same(a, y, z)
    ensures Same(a, x, z)
  {
  }

  lemma {:induction false} ArmFlat(s: Source, t: Tree, same: map<Id, Id>)
    requires t.If? && Once(CallsOf(t.condition) + CallsOf(t.body))
             && Untouched(CallsOf(t.condition) + CallsOf(t.body), same)
    ensures var inside := Walk(s, t.body, false, Walk(s, t.condition, false, same));
            FlatEach(s, [t.condition, t.body], inside) && Same(CallsOf(t.condition) + CallsOf(t.body), same, inside)
    decreases t, 0
  {
    var condition, body := t.condition, t.body;
    var between := Walk(s, condition, false, same);
    OnceParts(CallsOf(condition), CallsOf(body));
    UntouchedFirst(CallsOf(condition), CallsOf(body), same);
    WalkFlat(s, condition, false, same);
    UntouchedPart(CallsOf(condition), CallsOf(body), same, between);
    WalkFlat(s, body, false, between);
    CallsInOne(condition);
    CallsInOne(body);
    NextPart(s, [condition], [body], same, between, Walk(s, body, false, between));
    assert [condition] + [body] == [condition, body];
  }

  lemma {:induction false} UntouchedFirst(a: seq<Id>, b: seq<Id>, same: map<Id, Id>)
    requires Untouched(a + b, same)
    ensures Untouched(a, same) && Untouched(b, same)
  {
    forall c | c in a ensures c !in same { assert c in a + b; }
    forall c | c in b ensures c !in same { assert c in a + b; }
  }

  lemma {:induction false} ArmCalls(condition: Tree, body: Tree)
    ensures CallsIn([condition, body]) == CallsOf(condition) + CallsOf(body)
  {
    CallsInOne(condition);
    CallsInOne(body);
    CallsInBoth([condition], [body]);
    assert [condition] + [body] == [condition, body];
  }

  lemma {:induction false} IfFlat(s: Source, t: Tree, joined: bool, same: map<Id, Id>)
    requires t.If? && Once(CallsOf(t)) && Untouched(CallsOf(t), same)
    ensures Walked(s, t, joined, same, Walk(s, t, joined, same))
    decreases t, 1
  {
    var own := CallsOf(t.condition) + CallsOf(t.body);
    var inside := Walk(s, t.body, false, Walk(s, t.condition, false, same));
    ArmCalls(t.condition, t.body);
    PieceCalls(t);
    if t.other.Some? {
      var other := t.other.value;
      assert CallsOf(t) == own + CallsOf(other);
      OnceParts(own, CallsOf(other));
      UntouchedFirst(own, CallsOf(other), same);
      ArmFlat(s, t, same);
      UntouchedPart(own, CallsOf(other), same, inside);
      WalkFlat(s, other, other.If?, inside);
      PartCalls(other, other.If?);
      NextPart(s, [t.condition, t.body], PartPieces(other, other.If?), same, inside, Walk(s, other, other.If?, inside));
      assert Pieces(t) == [t.condition, t.body] + PartPieces(other, other.If?);
    } else {
      assert CallsOf(t) == own + [] == own;
      ArmFlat(s, t, same);
      assert Pieces(t) == [t.condition, t.body] + [] == [t.condition, t.body];
    }
    var after := if t.other.Some? then Walk(s, t.other.value, t.other.value.If?, inside) else inside;
    assert FlatEach(s, Pieces(t), after) && Same(CallsOf(t), same, after);
    if !joined {
      IfGroup(s, t);
      HeadFlat(s, t, Pieces(t), ArmReads(s, Arms(t)), seq(|Arms(t)|, k => 2 * k), same, after);
    }
  }

  lemma {:induction false} PartsFlat(s: Source, t: Tree, own: seq<Id>, parts: seq<Tree>, same: map<Id, Id>)
    requires CallsOf(t) == own + CallsIn(parts) && Once(CallsOf(t)) && Untouched(CallsOf(t), same)
    requires (t.Call? || t.Plain?) && parts == t.parts
    ensures Walked(s, t, false, same, WalkAll(s, parts, same))
    decreases t, 1
  {
    OnceParts(own, CallsIn(parts));
    UntouchedFirst(own, CallsIn(parts), same);
    AllFlat(s, t, parts, same);
    FlatNone(s, own, same);
    FlatBoth(s, own, CallsIn(parts), same, WalkAll(s, parts, same));
    OnePiece(s, t, WalkAll(s, parts, same));
    forall c | c !in CallsOf(t) ensures c !in CallsIn(parts) { assert c !in own + CallsIn(parts); }
  }

  lemma {:induction false} AllFlat(s: Source, t: Tree, parts: seq<Tree>, same: map<Id, Id>)
    requires Once(CallsIn(parts)) && Untouched(CallsIn(parts), same) && forall k :: 0 <= k < |parts| ==> parts[k] < t
    ensures Flat(s, CallsIn(parts), WalkAll(s, parts, same)) && Same(CallsIn(parts), same, WalkAll(s, parts, same))
    decreases t, 0, |parts|
  {
    if parts != [] {
      var first, rest := parts[0], parts[1..];
      var between := Walk(s, first, false, same);
      OnceParts(CallsOf(first), CallsIn(rest));
      UntouchedFirst(CallsOf(first), CallsIn(rest), same);
      WalkFlat(s, first, false, same);
      OnePiece(s, first, between);
      UntouchedPart(CallsOf(first), CallsIn(rest), same, between);
      AllFlat(s, t, rest, between);
      FlatBoth(s, CallsOf(first), CallsIn(rest), between, WalkAll(s, rest, between));
      SameBoth(CallsOf(first), CallsIn(rest), same, between, WalkAll(s, rest, between));
    }
  }

  // ----- what a joined call and the first one have in common -----

  /** The groups of reads compared in a tree. */
  function Groups(s: Source, t: Tree, joined: bool): seq<seq<Option<Read>>>
    decreases t, 1
  {
    match t
    case Or(left, right) => Groups(s, left, InOr(left)) + Groups(s, right, InOr(right)) + if joined then []
      else [OrReads(s, Operands(t))]
    case Paren(inner) => Groups(s, inner, joined)
    case If(condition, body, other) =>
      Groups(s, condition, false) + Groups(s, body, false)
        + (if other.Some? then Groups(s, other.value, other.value.If?) else [])
      + if joined then [] else [ArmReads(s, Arms(t))]
    case Call(_, parts) => GroupsIn(s, parts)
    case Plain(parts) => GroupsIn(s, parts)
  }

  function GroupsIn(s: Source, parts: seq<Tree>): seq<seq<Option<Read>>>
    decreases parts, 0
  {
    if parts == [] then [] else Groups(s, parts[0], false) + GroupsIn(s, parts[1..])
  }

  /** In some group the first read was of `d`, and a later one of `c` spells it again. */
  ghost predicate Explained(s: Source, groups: seq<seq<Option<Read>>>, c: Id, d: Id) {
    exists g :: g in groups && Paired(s, g, c, d, |g|)
  }

  /** What was joined stays, and what is joined now is explained. */
  ghost predicate Explains(s: Source, groups: seq<seq<Option<Read>>>, before: map<Id, Id>, after: map<Id, Id>, c: Id) {
    && (c in before ==> c in after && after[c] == before[c])
    && (c in after && c !in before ==> Explained(s, groups, c, after[c]))
  }

  lemma {:induction false} ExplainsBoth(s: Source, a: seq<seq<Option<Read>>>, b: seq<seq<Option<Read>>>, x: map<Id, Id>,
                                        y: map<Id, Id>, z: map<Id, Id>, c: Id)
    requires Explains(s, a, x, y, c) && Explains(s, b, y, z, c)
    ensures Explains(s, a + b, x, z, c)
  {
    if c in z && c !in x {
      if c in y {
        var g :| g in a && Paired(s, g, c, y[c], |g|);
        assert g in a + b;
      } else {
        var g :| g in b && Paired(s, g, c, z[c], |g|);
        assert g in a + b;
      }
    }
  }

  lemma {:induction false} FromPaired(s: Source, same: map<Id, Id>, group: seq<Option<Read>>, i: nat, c: Id)
    requires i <= |group|
    ensures var r := JoinFrom(s, same, group, i);
            && (c in same ==> c in r && r[c] == same[c])
            && (c in r && c !in same ==> Paired(s, group, c, r[c], |group|))
    decreases |group| - i
  {
    if i < |group| {
      var next := if group[i].None? || group[i].value.call in same then same else JoinLater(s, same, group, i, i + 1);
      FromPaired(s, next, group, i + 1, c);
      if group[i].Some? && group[i].value.call !in same {
        LaterJoins(s, same, group, i, i + 1, c);
        if c in next && c !in same {
          var k: nat :| i + 1 <= k && IsRead(group, k, c) && Respells(s, group[i].value, group[k].value);
          assert IsRead(group, i, next[c]);
        }
      }
    }
  }

  lemma {:induction false} GroupExplains(s: Source, same: map<Id, Id>, group: seq<Option<Read>>, c: Id)
    ensures Explains(s, [group], same, JoinGroup(s, same, group), c)
  {
    if |group| >= 2 { FromPaired(s, same, group, 0, c); }
    assert group in [group];
  }

  lemma {:induction false} WalkExplains(s: Source, t: Tree, joined: bool, same: map<Id, Id>, c: Id)
    ensures Explains(s, Groups(s, t, joined), same, Walk(s, t, joined, same), c)
    decreases t, 1
  {
    match t
    case Or(left, right) =>
      var between := Walk(s, left, InOr(left), same);
      var after := Walk(s, right, InOr(right), between);
      WalkExplains(s, left, InOr(left), same, c);
      WalkExplains(s, right, InOr(right), between, c);
      ExplainsBoth(s, Groups(s, left, InOr(left)), Groups(s, right, InOr(right)), same, between, after, c);
      var inside := Groups(s, left, InOr(left)) + Groups(s, right, InOr(right));
      if joined { assert inside + [] == inside; }
      else {
        GroupExplains(s, after, OrReads(s, Operands(t)), c);
        ExplainsBoth(s, inside, [OrReads(s, Operands(t))], same, after, Walk(s, t, joined, same), c);
      }
    case Paren(inner) => WalkExplains(s, inner, joined, same, c);
    case If(_, _, _) => IfExplains(s, t, joined, same, c);
    case Call(_, parts) => AllExplain(s, t, parts, same, c);
    case Plain(parts) => AllExplain(s, t, parts, same, c);
  }

  lemma {:induction false} IfExplains(s: Source, t: Tree, joined: bool, same: map<Id, Id>, c: Id)
    requires t.If?
    ensures Explains(s, Groups(s, t, joined), same, Walk(s, t, joined, same), c)
    decreases t, 0
  {
    var between := Walk(s, t.condition, false, same);
    var inside := Walk(s, t.body, false, between);
    WalkExplains(s, t.condition, false, same, c);
    WalkExplains(s, t.body, false, between, c);
    ExplainsBoth(s, Groups(s, t.condition, false), Groups(s, t.body, false), same, between, inside, c);
    var groups, after := Groups(s, t.condition, false) + Groups(s, t.body, false), inside;
    if t.other.Some? {
      var other := t.other.value;
      WalkExplains(s, other, other.If?, inside, c);
      after := Walk(s, other, other.If?, inside);
      ExplainsBoth(s, groups, Groups(s, other, other.If?), same, inside, after, c);
      groups := groups + Groups(s, other, other.If?);
    } else { assert groups + [] == groups; }
    if joined { assert groups + [] == groups; }
    else {
      GroupExplains(s, after, ArmReads(s, Arms(t)), c);
      ExplainsBoth(s, groups, [ArmReads(s, Arms(t))], same, after, JoinGroup(s, after, ArmReads(s, Arms(t))), c);
    }
  }

  lemma {:induction false} AllExplain(s: Source, t: Tree, parts: seq<Tree>, same: map<Id, Id>, c: Id)
    requires forall k :: 0 <= k < |parts| ==> parts[k] < t
    ensures Explains(s, GroupsIn(s, parts), same, WalkAll(s, parts, same), c)
    decreases t, 0, |parts|
  {
    if parts != [] {
      var between := Walk(s, parts[0], false, same);
      WalkExplains(s, parts[0], false, same, c);
      AllExplain(s, t, parts[1..], between, c);
      ExplainsBoth(s, Groups(s, parts[0], false), GroupsIn(s, parts[1..]), same, between, WalkAll(s, parts, same), c);
    }
  }

  /** After a whole function is walked every call that is another spelling names a call that is
      none, in the same function and of the same target, whatever chains stand inside each
      other; in some group its code is written the same but for the words it is given. */
  lemma {:induction false} SpellingsFlat(s: Source, t: Tree, c: Id)
    requires Once(CallsOf(t)) && c in Walk(s, t, false, map[])
    ensures c in CallsOf(t) && FlatAt(s, CallsOf(t), Walk(s, t, false, map[]), c)
    ensures Explained(s, Groups(s, t, false), c, Walk(s, t, false, map[])[c])
  {
    WalkFlat(s, t, false, map[]);
    OnePiece(s, t, Walk(s, t, false, map[]));
    WalkExplains(s, t, false, map[], c);
  }

  // ----- joining in place -----

  class Joiner {
    const s: Source
    var same: map<Id, Id>

    constructor (s: Source)
      ensures this.s == s && same == map[]
    {
      this.s, same := s, map[];
    }

    /** Gives each later read of a group the first read's call. */
    method JoinSpellings(group: seq<Option<Read>>)
      modifies this
      ensures same == JoinFrom(s, old(same), group, 0)
    {
      for i := 0 to |group|
        invariant JoinFrom(s, same, group, i) == JoinFrom(s, old(same), group, 0)
      {
        if group[i].Some? && group[i].value.call !in same {
          var first := group[i].value;
          ghost var goal := JoinLater(s, same, group, i, i + 1);
          for j := i + 1 to |group|
            invariant JoinLater(s, same, group, i, j) == goal
          {
            if group[j].Some? && group[j].value.call !in same && Respells(s, first, group[j].value) {
              same := same[group[j].value.call := first.call];
            }
          }
        }
      }
    }

    method JoinReads(group: seq<Option<Read>>)
      modifies this
      ensures same == JoinGroup(s, old(same), group)
    {
      if |group| >= 2 { JoinSpellings(group); }
    }

    /** Walks code, joining each chain once what stands in it is walked. */
    method WalkCode(t: Tree, joined: bool)
      modifies this
      ensures same == Walk(s, t, joined, old(same))
      decreases t
    {
      match t {
        case Or(left, right) =>
          WalkCode(left, InOr(left));
          WalkCode(right, InOr(right));
          if !joined { JoinReads(OrReads(s, Operands(t))); }
        case Paren(inner) => WalkCode(inner, joined);
        case If(condition, body, other) =>
          WalkCode(condition, false);
          WalkCode(body, false);
          if other.Some? { WalkCode(other.value, other.value.If?); }
          if !joined { JoinReads(ArmReads(s, Arms(t))); }
        case Call(_, parts) => WalkParts(parts);
        case Plain(parts) => WalkParts(parts);
      }
    }

    method WalkParts(parts: seq<Tree>)
      modifies this
      ensures same == WalkAll(s, parts, old(same))
      decreases parts
    {
      var left := parts;
      while left != []
        invariant forall x :: x in left ==> x in parts
        invariant WalkAll(s, left, same) == WalkAll(s, parts, old(same))
        decreases |left|
      {
        assert left[0] in parts;
        WalkCode(left[0], false);
        left := left[1..];
      }
    }
  }
}
