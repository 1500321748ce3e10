/** Exactly which reads of a group are joined, and to which (internal/cproject/spellings.go:132-150): a read
    leads unless it spells an earlier leading one again, and then it is joined to the first such. */
module SpellingsExact {
  import opened Spellings

  predicate MadeAs(s: Source, c: Id, m: Made) {
    c in s.made && s.made[c] == m
  }

  /** Two calls of one target in one function, written the same but for what their literals say. */
  lemma {:induction false} RespellsExactly(s: Source, first: Read, later: Read)
    ensures Respells(s, first, later) <==>
            && first.call != later.call && first.shape == later.shape && first.words != later.words
            && exists m :: MadeAs(s, first.call, m) && MadeAs(s, later.call, m)
  {
    if Respells(s, first, later) { assert MadeAs(s, first.call, s.made[later.call]); }
  }

  predicate SpellsAgain(s: Source, group: seq<Option<Read>>, i: nat, j: nat)
    requires i < |group| && j < |group|
  {
    group[i].Some? && group[j].Some? && Respells(s, group[i].value, group[j].value)
  }

  /** The read is no other spelling of an earlier leading one. */
  predicate Leads(s: Source, group: seq<Option<Read>>, j: nat)
    requires j < |group|
    decreases j
  {
    group[j].Some? && forall i :: 0 <= i < j ==> !(Leads(s, group, i) && SpellsAgain(s, group, i, j))
  }

  /** The read `i`, one of the first `n`, is the first leading one that `j` spells again. */
  predicate Names(s: Source, group: seq<Option<Read>>, i: nat, j: nat, n: nat)
    requires i < |group| && j < |group|
  {
    && i < n && i < j && Leads(s, group, i) && SpellsAgain(s, group, i, j)
    && forall k :: 0 <= k < i ==> !(Leads(s, group, k) && SpellsAgain(s, group, k, j))
  }

  /** Of the group's reads exactly those are joined that spell a leading one of the first `n` again, each
      to the first such. */
  ghost predicate JoinedTo(s: Source, group: seq<Option<Read>>, now: map<Id, Id>, n: nat) {
    forall j :: 0 <= j < |group| && group[j].Some? ==> JoinedAt(s, group, now, n, j)
  }

  ghost predicate JoinedAt(s: Source, group: seq<Option<Read>>, now: map<Id, Id>, n: nat, j: nat)
    requires j < |group| && group[j].Some?
  {
    && (group[j].value.call in now <==> exists i :: 0 <= i < |group| && Names(s, group, i, j, n))
    && forall i :: 0 <= i < |group| && Names(s, group, i, j, n) && group[j].value.call in now ==>
         now[group[j].value.call] == group[i].value.call
  }

  /** One leading read joins the later ones that spell it again and are joined to none. */
  lemma {:induction false} LaterExactly(s: Source, same: map<Id, Id>, group: seq<Option<Read>>, i: nat, j: nat, k: nat)
    requires i < j <= |group| && k < |group| && group[i].Some? && group[k].Some? && Apart(group)
    ensures var r, c := JoinLater(s, same, group, i, j), group[k].value.call;
            && (c in r <==> c in same || (j <= k && SpellsAgain(s, group, i, k)))
            && (c in same ==> r[c] == same[c]) && (c in r && c !in same ==> r[c] == group[i].value.call)
    decreases |group| - j
  {
    if j < |group| {
      var first, later := group[i].value, group[j];
      var next := if later.Some? && later.value.call !in same && Respells(s, first, later.value)
        then same[later.value.call := first.call] else same;
      if later.Some? && later.value.call == group[k].value.call {
        assert IsRead(group, j, group[k].value.call) && IsRead(group, k, group[k].value.call);
      }
      LaterExactly(s, next, group, i, j + 1, k);
    }
  }

  lemma {:induction false} JoinsOne(s: Source, group: seq<Option<Read>>, now: map<Id, Id>, n: nat, m: nat, j: nat)
    requires n < |group| && m == n + 1 && j < |group| && group[j].Some? && Apart(group) && JoinedTo(s, group, now, n)
    ensures var next := if group[n].None? || group[n].value.call in now then now
            else JoinLater(s, now, group, n, n + 1);
            JoinedAt(s, group, next, m, j)
  {
    var c := group[j].value.call;
    assert JoinedAt(s, group, now, n, j);
    NamesMore(s, group, n, m, j);
    if group[n].Some? {
      assert JoinedAt(s, group, now, n, n);
      LeadsOrNamed(s, group, n);
      if group[n].value.call !in now { LaterExactly(s, now, group, n, n + 1, j); }
    }
    if i :| 0 <= i < |group| && Names(s, group, i, j, n) { assert c in now && Names(s, group, i, j, m); }
    else {
      assert c !in now && forall i :: 0 <= i < |group| && i != n ==> !Names(s, group, i, j, m);
    }
  }

  /** A read leads, or names the first leading read it spells again. */
  lemma {:induction false} LeadsOrNamed(s: Source, group: seq<Option<Read>>, j: nat)
    requires j < |group| && group[j].Some?
    ensures Leads(s, group, j) <==> !exists i :: 0 <= i < |group| && Names(s, group, i, j, j)
  {
    if !Leads(s, group, j) { var i := FirstLeader(s, group, j, j); }
  }

  lemma {:induction false} FirstLeader(s: Source, group: seq<Option<Read>>, j: nat, n: nat) returns (i: nat)
    requires n <= j < |group| && exists k :: 0 <= k < n && Leads(s, group, k) && SpellsAgain(s, group, k, j)
    ensures i < n && Names(s, group, i, j, n)
  {
    if k :| 0 <= k < n - 1 && Leads(s, group, k) && SpellsAgain(s, group, k, j) {
      i := FirstLeader(s, group, j, n - 1);
    } else {
      i := n - 1;
    }
  }

  /** With one more read to lead, a read names what it named before, or else that one. */
  lemma {:induction false} NamesMore(s: Source, group: seq<Option<Read>>, n: nat, m: nat, j: nat)
    requires n < |group| && m == n + 1 && j < |group|
    ensures forall i :: 0 <= i < |group| && i != n ==> (Names(s, group, i, j, m) <==> Names(s, group, i, j, n))
    ensures Names(s, group, n, j, m) <==>
            n < j && Leads(s, group, n) && SpellsAgain(s, group, n, j)
            && !exists i :: 0 <= i < |group| && Names(s, group, i, j, n)
  {
    if n < j && (exists k :: 0 <= k < n && Leads(s, group, k) && SpellsAgain(s, group, k, j)) {
      var i := FirstLeader(s, group, j, n);
    }
  }

  lemma {:induction false} FromExactly(s: Source, group: seq<Option<Read>>, now: map<Id, Id>, n: nat)
    requires n <= |group| && Apart(group) && JoinedTo(s, group, now, n)
    ensures JoinedTo(s, group, JoinFrom(s, now, group, n), |group|)
    decreases |group| - n
  {
    if n < |group| {
      var next := if group[n].None? || group[n].value.call in now then now else JoinLater(s, now, group, n, n + 1);
      forall j | 0 <= j < |group| && group[j].Some? ensures JoinedAt(s, group, next, n + 1, j) {
        JoinsOne(s, group, now, n, n + 1, j);
      }
      FromExactly(s, group, next, n + 1);
    }
  }

  /** Where none of a group's calls was joined before, joining the group joins exactly the reads that do
      not lead, each to the first leading read it spells again. */
  lemma {:induction false} GroupExactly(s: Source, same: map<Id, Id>, group: seq<Option<Read>>, j: nat)
    requires Apart(group) && j < |group| && group[j].Some?
    requires forall k :: 0 <= k < |group| && group[k].Some? ==> group[k].value.call !in same
    ensures var r, c := JoinGroup(s, same, group), group[j].value.call;
            && (c in r <==> !Leads(s, group, j))
            && forall i :: 0 <= i < |group| && Names(s, group, i, j, |group|) && c in r ==> r[c] == group[i].value.call
  {
    LeadsOrNamed(s, group, j);
    if |group| >= 2 {
      assert JoinedTo(s, group, same, 0);
      FromExactly(s, group, same, 0);
      assert JoinedAt(s, group, JoinGroup(s, same, group), |group|, j);
      NamesAll(s, group, j);
    }
  }

  lemma {:induction false} NamesAll(s: Source, group: seq<Option<Read>>, j: nat)
    requires j < |group|
    ensures forall i :: 0 <= i < |group| ==> (Names(s, group, i, j, |group|) <==> Names(s, group, i, j, j))
  {
  }
}
