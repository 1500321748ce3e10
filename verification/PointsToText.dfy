/** What the text of a program tells: that the walks record exactly what its constructs say and the
    entries of the initializer lists that are read (internal/cproject/resolve.go:417-670, 1165-1230). */
module PointsToText {
  import opened PointsTo

  // ----- the nodes of a tree -----

  function Nodes(e: Expr): set<Expr>
    decreases e, |Children(e)| + 1
  {
    {e} + if e.Sizeof? then {} else NodesTo(e, |Children(e)|)
  }

  function NodesTo(e: Expr, n: nat): set<Expr>
    requires n <= |Children(e)|
    decreases e, n
  {
    if n == 0 then {} else NodesTo(e, n - 1) + Nodes(Children(e)[n-1])
  }

  lemma {:induction false} ChildNodes(e: Expr, k: nat, n: nat)
    requires k < n <= |Children(e)|
    ensures Nodes(Children(e)[k]) <= NodesTo(e, n)
  {
    if k < n - 1 { ChildNodes(e, k, n - 1); }
  }

  lemma {:induction false} SubNodes(e: Expr, k: nat)
    requires k < |Children(e)| && !e.Sizeof?
    ensures Nodes(Children(e)[k]) <= Nodes(e)
  {
    ChildNodes(e, k, |Children(e)|);
  }

  lemma {:induction false} NodesFrom(e: Expr, n: nat, x: Expr) returns (k: nat)
    requires n <= |Children(e)| && x in NodesTo(e, n)
    ensures k < n && x in Nodes(Children(e)[k])
  {
    if x in Nodes(Children(e)[n-1]) { return n - 1; }
    k := NodesFrom(e, n - 1, x);
  }

  /** The nodes of a tree with those under a sizeof, which are not evaluated. */
  function Text(e: Expr): set<Expr>
    decreases e, |Children(e)| + 1
  {
    {e} + TextTo(e, |Children(e)|)
  }

  function TextTo(e: Expr, n: nat): set<Expr>
    requires n <= |Children(e)|
    decreases e, n
  {
    if n == 0 then {} else TextTo(e, n - 1) + Text(Children(e)[n-1])
  }

  lemma {:induction false} TextFrom(e: Expr, n: nat, x: Expr) returns (k: nat)
    requires n <= |Children(e)| && x in TextTo(e, n)
    ensures k < n && x in Text(Children(e)[k])
  {
    if x in Text(Children(e)[n-1]) { return n - 1; }
    k := TextFrom(e, n - 1, x);
  }

  lemma {:induction false} ChildText(e: Expr, k: nat, n: nat)
    requires k < n <= |Children(e)|
    ensures Text(Children(e)[k]) <= TextTo(e, n)
  {
    if k < n - 1 { ChildText(e, k, n - 1); }
  }

  lemma {:induction false} NodesText(e: Expr, x: Expr)
    requires x in Nodes(e)
    ensures x in Text(e)
    decreases e
  {
    if x != e {
      var k := NodesFrom(e, |Children(e)|, x);
      NodesText(Children(e)[k], x);
      ChildText(e, k, |Children(e)|);
    }
  }

  // ----- the lists that are read -----

  /** A list with the lists that are its entries, theirs and so on. */
  function ListsIn(list: Expr): set<Expr>
    requires IsList(list)
    decreases list, |list.values| + 1
  {
    {list} + ListsTo(list, |list.values|)
  }

  function ListsTo(list: Expr, n: nat): set<Expr>
    requires IsList(list) && n <= |list.values|
    decreases list, n
  {
    if n == 0 then {}
    else
      var inner := Unwrap(list.values[n-1]);
      ListsTo(list, n - 1) + if IsList(inner) then ListsIn(inner) else {}
  }

  /** The lists under no other list, and those read with them: what stands in a list but is no entry
      of it, a compound literal under a call, say, is not read. */
  function Read(e: Expr): set<Expr>
    decreases e, |Children(e)| + 1
  {
    if IsList(e) then ListsIn(e) else ReadTo(e, |Children(e)|)
  }

  function ReadTo(e: Expr, n: nat): set<Expr>
    requires n <= |Children(e)|
    decreases e, n
  {
    if n == 0 then {} else ReadTo(e, n - 1) + Read(Children(e)[n-1])
  }

  /** Of a table only the list that is its whole initializer is read. */
  function ListsRead(code: Code): set<Expr> {
    match code.owner
    case Body(_) => Read(code.tree)
    case Table(_) => if IsList(Unwrap(code.tree)) then ListsIn(Unwrap(code.tree)) else {}
  }

  lemma {:induction false} ListsAreLists(list: Expr, m: Expr)
    requires IsList(list) && m in ListsIn(list)
    ensures IsList(m)
    decreases list, |list.values| + 1
  {
    if m != list { ListsToAreLists(list, |list.values|, m); }
  }

  lemma {:induction false} ListsToAreLists(list: Expr, n: nat, m: Expr)
    requires IsList(list) && n <= |list.values| && m in ListsTo(list, n)
    ensures IsList(m)
    decreases list, n
  {
    var inner := Unwrap(list.values[n-1]);
    if m in ListsTo(list, n - 1) { ListsToAreLists(list, n - 1, m); } else { ListsAreLists(inner, m); }
  }

  lemma {:induction false} ReadLists(e: Expr, m: Expr)
    requires m in Read(e)
    ensures IsList(m)
    decreases e, |Children(e)| + 1
  {
    if IsList(e) { ListsAreLists(e, m); } else { ReadToLists(e, |Children(e)|, m); }
  }

  lemma {:induction false} ReadToLists(e: Expr, n: nat, m: Expr)
    requires n <= |Children(e)| && m in ReadTo(e, n)
    ensures IsList(m)
    decreases e, n
  {
    if m in ReadTo(e, n - 1) { ReadToLists(e, n - 1, m); } else { ReadLists(Children(e)[n-1], m); }
  }

  lemma {:induction false} ReadFrom(e: Expr, n: nat, m: Expr) returns (k: nat)
    requires n <= |Children(e)| && m in ReadTo(e, n)
    ensures k < n && m in Read(Children(e)[k])
  {
    if m in Read(Children(e)[n-1]) { return n - 1; }
    k := ReadFrom(e, n - 1, m);
  }

  lemma {:induction false} ChildRead(e: Expr, k: nat, n: nat)
    requires k < n <= |Children(e)|
    ensures Read(Children(e)[k]) <= ReadTo(e, n)
  {
    if k < n - 1 { ChildRead(e, k, n - 1); }
  }

  /** What reading one entry itself tells: only names of functions count, elements only in a table. */
  function EntryFacts(p: Program, owner: Owner, list: Expr, k: nat): seq<Fact>
    requires IsList(list) && k < |list.values|
  {
    var value := list.values[k];
    if IsList(Unwrap(value)) || Designator(value).None? then []
    else
      match list
      case Items(_, _) => if owner.Table? then StoreFacts(p, owner, Global(owner.name), value) else []
      case Rows(members, _) => if k < |members| && members[k].Some? then StoreFacts(p, owner, members[k].value, value)
        else []
  }

  lemma {:induction false} EntryAdds(p: Program, owner: Owner, list: Expr, k: nat, log: seq<Fact>)
    requires IsList(list) && k < |list.values| && !IsList(Unwrap(list.values[k]))
    ensures Entry(p, owner, list, k, log) == log + EntryFacts(p, owner, list, k)
  {
  }

  // ----- nothing is lost -----

  lemma {:induction false} CallingGrows(p: Program, direct: Option<string>, args: seq<Expr>, n: nat, log: seq<Fact>,
                                        x: Fact)
    requires n <= |args|
    ensures x in Calling(p, direct, args, n, log) <==> x in log || x in Calling(p, direct, args, n, [])
  {
    if n > 0 { CallingGrows(p, direct, args, n - 1, log, x); }
  }

  /** What a construct tells does not depend on what was recorded before. */
  lemma {:induction false} RecordingGrows(p: Program, owner: Owner, e: Expr, log: seq<Fact>, x: Fact)
    ensures x in Recording(p, owner, e, log) <==> x in log || x in NodeFacts(p, owner, e)
  {
    if e.Call? { CallingGrows(p, DirectOf(p, e.callee), e.args, |e.args|, log, x); }
  }

  lemma {:induction false} ListingGrows(p: Program, owner: Owner, list: Expr, n: nat, log: seq<Fact>, x: Fact)
    requires IsList(list) && n <= |list.values| && x in log
    ensures x in Listing(p, owner, list, n, log)
    decreases list, n
  {
    if n > 0 {
      ListingGrows(p, owner, list, n - 1, log, x);
      var inner := Unwrap(list.values[n-1]);
      if IsList(inner) { ListingGrows(p, owner, inner, |inner.values|, Listing(p, owner, list, n - 1, log), x); }
    }
  }

  /** Nothing recorded is lost. */
  lemma {:induction false} WalkingGrows(p: Program, owner: Owner, e: Expr, inList: bool, log: seq<Fact>, x: Fact)
    requires x in log
    ensures x in Walking(p, owner, e, inList, log)
    decreases e, |Walked(e)| + 1
  {
    if IsList(e) && !inList {
      ListingGrows(p, owner, e, |e.values|, log, x);
      WalkingToGrows(p, owner, e, inList, |Walked(e)|, Listing(p, owner, e, |e.values|, log), x);
    } else {
      RecordingGrows(p, owner, e, log, x);
      WalkingToGrows(p, owner, e, inList, |Walked(e)|, Recording(p, owner, e, log), x);
    }
  }

  lemma {:induction false} WalkingToGrows(p: Program, owner: Owner, e: Expr, inList: bool, n: nat, log: seq<Fact>,
                                          x: Fact)
    requires n <= |Walked(e)| && x in log
    ensures x in WalkingTo(p, owner, e, inList, n, log)
    decreases e, n
  {
    if n > 0 {
      WalkedBelow(e);
      WalkingToGrows(p, owner, e, inList, n - 1, log, x);
      WalkingGrows(p, owner, Walked(e)[n-1], inList || IsList(e), WalkingTo(p, owner, e, inList, n - 1, log), x);
    }
  }

  /** Nothing acts in an expression that just names a function. */
  lemma {:induction false} NamingNodes(e: Expr, node: Expr)
    requires Designator(e).Some? && node in Text(e)
    ensures node.Cast? || node.Deref? || node.AddressOf? || node.Named?
    ensures SlotOf(node).None? && ArrayOf(node).None? && (node.AddressOf? ==> SlotOf(node.inner).None?)
    decreases e
  {
    if node == e {
      NamingSlot(e);
      if e.AddressOf? { NamingSlot(e.inner); }
    } else {
      var k := TextFrom(e, |Children(e)|, node);
      NamingNodes(Children(e)[k], node);
    }
  }

  lemma {:induction false} NamingSlot(e: Expr)
    requires Designator(e).Some?
    ensures SlotOf(e).None? && ArrayOf(e).None?
  {
    if e.Cast? || e.Deref? { NamingSlot(e.inner); }
  }

  lemma {:induction false} VariableNodes(e: Expr, node: Expr)
    requires IsVariable(e) && node in Text(e)
    ensures node.Cast? || node.Variable?
    decreases e
  {
    if node != e {
      var k := TextFrom(e, |Children(e)|, node);
      VariableNodes(Children(e)[k], node);
    }
  }

  lemma {:induction false} WalkedParts(e: Expr, x: Expr)
    requires x in Children(e) && Designator(x).None?
    ensures x in Walked(e) || (e.Assign? && x == e.left && IsVariable(x))
  {
    match e
    case Call(callee, args) => UnnamedParts([callee], x);
    case Assign(_, right) => UnnamedParts([right], x);
    case Declare(_, init) => UnnamedParts([init], x);
    case Rows(_, values) => UnnamedParts(values, x);
    case Items(_, values) => UnnamedParts(values, x);
    case _ =>
  }

  lemma {:induction false} NamingLists(e: Expr)
    requires Designator(e).Some? || IsVariable(e)
    ensures Read(e) == {}
    decreases e
  {
    if e.Cast? || e.Deref? || e.AddressOf? {
      NamingLists(e.inner);
      assert ReadTo(e, 0) == {} && ReadTo(e, 1) == ReadTo(e, 0) + Read(e.inner);
    }
  }

  // ----- what is said is recorded -----

  /** A part that is not walked says nothing. */
  lemma {:induction false} Unwalked(p: Program, owner: Owner, e: Expr, k: nat, node: Expr)
    requires k < |Children(e)| && Children(e)[k] !in Walked(e) && node in Text(Children(e)[k])
    ensures NodeFacts(p, owner, node) == []
  {
    var x := Children(e)[k];
    if Designator(x).Some? { NamingNodes(x, node); }
    else {
      WalkedParts(e, x);
      assert e.Assign? && x == e.left && IsVariable(x);
      VariableNodes(x, node);
    }
  }

  lemma {:induction false} FactsCover(p: Program, owner: Owner, e: Expr, inList: bool, log: seq<Fact>, node: Expr,
                                      fact: Fact)
    requires node in Text(e) && fact in NodeFacts(p, owner, node)
    ensures fact in Walking(p, owner, e, inList, log)
    decreases e, |Walked(e)| + 1
  {
    var own := if IsList(e) && !inList then Listing(p, owner, e, |e.values|, log) else Recording(p, owner, e, log);
    if node == e {
      RecordingGrows(p, owner, e, log, fact);
      WalkingToGrows(p, owner, e, inList, |Walked(e)|, own, fact);
    } else {
      var k := TextFrom(e, |Children(e)|, node);
      var x := Children(e)[k];
      if x in Walked(e) {
        var j :| 0 <= j < |Walked(e)| && Walked(e)[j] == x;
        FactsCoverTo(p, owner, e, inList, |Walked(e)|, own, j, node, fact);
      } else {
        Unwalked(p, owner, e, k, node);
      }
    }
  }

  lemma {:induction false} FactsCoverTo(p: Program, owner: Owner, e: Expr, inList: bool, n: nat, log: seq<Fact>, j: nat,
                                        node: Expr, fact: Fact)
    requires j < n <= |Walked(e)| && node in Text(Walked(e)[j]) && fact in NodeFacts(p, owner, node)
    ensures fact in WalkingTo(p, owner, e, inList, n, log)
    decreases e, n
  {
    WalkedBelow(e);
    var before, x := WalkingTo(p, owner, e, inList, n - 1, log), Walked(e)[n-1];
    if j == n - 1 { FactsCover(p, owner, x, inList || IsList(e), before, node, fact); }
    else {
      FactsCoverTo(p, owner, e, inList, n - 1, log, j, node, fact);
      WalkingGrows(p, owner, x, inList || IsList(e), before, fact);
    }
  }

  lemma {:induction false} EntryGrows(p: Program, owner: Owner, list: Expr, k: nat, log: seq<Fact>, fact: Fact)
    requires IsList(list) && k < |list.values| && fact in log
    ensures fact in Entry(p, owner, list, k, log)
  {
    var inner := Unwrap(list.values[k]);
    if IsList(inner) {
      ListingGrows(p, owner, inner, |inner.values|, log, fact);
    } else {
      EntryAdds(p, owner, list, k, log);
    }
  }

  /** What the entries of a list and of the lists read with it tell is recorded. */
  lemma {:induction false} ListingCovers(p: Program, owner: Owner, list: Expr, n: nat, log: seq<Fact>, m: Expr, j: nat,
                                         fact: Fact)
    requires IsList(list) && n <= |list.values| && IsList(m) && j < |m.values| && fact in EntryFacts(p, owner, m, j)
    requires (m == list && j < n) || m in ListsTo(list, n)
    ensures fact in Listing(p, owner, list, n, log)
    decreases list, n
  {
    var before := Listing(p, owner, list, n - 1, log);
    if (m == list && j < n - 1) || m in ListsTo(list, n - 1) {
      ListingCovers(p, owner, list, n - 1, log, m, j, fact);
      EntryGrows(p, owner, list, n - 1, before, fact);
    } else if m == list && j == n - 1 {
      EntryAdds(p, owner, list, n - 1, before);
    } else {
      var inner := Unwrap(list.values[n-1]);
      ListingCovers(p, owner, inner, |inner.values|, before, m, j, fact);
    }
  }

  lemma {:induction false} ListCovers(p: Program, owner: Owner, list: Expr, log: seq<Fact>, m: Expr, j: nat, fact: Fact)
    requires IsList(list) && m in ListsIn(list) && IsList(m) && j < |m.values| && fact in EntryFacts(p, owner, m, j)
    ensures fact in Listing(p, owner, list, |list.values|, log)
  {
    ListingCovers(p, owner, list, |list.values|, log, m, j, fact);
  }

  lemma {:induction false} ReadCovers(p: Program, owner: Owner, e: Expr, log: seq<Fact>, m: Expr, j: nat, fact: Fact)
    requires m in Read(e) && IsList(m) && j < |m.values| && fact in EntryFacts(p, owner, m, j)
    ensures fact in Walking(p, owner, e, false, log)
    decreases e, |Walked(e)| + 1
  {
    if IsList(e) {
      ListCovers(p, owner, e, log, m, j, fact);
      WalkingToGrows(p, owner, e, false, |Walked(e)|, Listing(p, owner, e, |e.values|, log), fact);
    } else {
      var k := ReadFrom(e, |Children(e)|, m);
      var x := Children(e)[k];
      if Designator(x).Some? || IsVariable(x) { NamingLists(x); }
      else { WalkedParts(e, x); }
      var i :| 0 <= i < |Walked(e)| && Walked(e)[i] == x;
      ReadCoversTo(p, owner, e, |Walked(e)|, Recording(p, owner, e, log), i, m, j, fact);
    }
  }

  lemma {:induction false} ReadCoversTo(p: Program, owner: Owner, e: Expr, n: nat, log: seq<Fact>, i: nat, m: Expr,
                                        j: nat, fact: Fact)
    requires !IsList(e) && i < n <= |Walked(e)| && m in Read(Walked(e)[i]) && IsList(m) && j < |m.values|
             && fact in EntryFacts(p, owner, m, j)
    ensures fact in WalkingTo(p, owner, e, false, n, log)
    decreases e, n
  {
    WalkedBelow(e);
    var before, x := WalkingTo(p, owner, e, false, n - 1, log), Walked(e)[n-1];
    if i == n - 1 { ReadCovers(p, owner, x, before, m, j, fact); }
    else {
      ReadCoversTo(p, owner, e, n - 1, log, i, m, j, fact);
      WalkingGrows(p, owner, x, false, before, fact);
    }
  }

  lemma {:induction false} ReadingGrows(p: Program, code: Code, log: seq<Fact>, x: Fact)
    requires x in log
    ensures x in Reading(p, code, log)
  {
    if code.owner.Body? { WalkingGrows(p, code.owner, code.tree, false, log, x); }
    else {
      var list := Unwrap(code.tree);
      if IsList(list) { ListingGrows(p, code.owner, list, |list.values|, log, x); }
    }
  }

  /** A plain initializer of a table is found stored. */
  function TableFacts(p: Program, code: Code): seq<Fact> {
    if code.owner.Body? || IsList(Unwrap(code.tree)) then []
      else StoreFacts(p, code.owner, Global(code.owner.name), code.tree)
  }

  // ----- what is recorded is said -----

  /** A construct of a body, an entry of a list that is read, or a table's plain initializer says so. */
  ghost predicate Says(p: Program, code: Code, fact: Fact) {
    || (code.owner.Body? && SaidBy(p, code.owner, code.tree, fact))
    || ListSays(p, code.owner, ListsRead(code), fact)
    || fact in TableFacts(p, code)
  }

  ghost predicate SaidBy(p: Program, owner: Owner, e: Expr, fact: Fact) {
    exists n :: n in Text(e) && fact in NodeFacts(p, owner, n)
  }

  ghost predicate ListSays(p: Program, owner: Owner, lists: set<Expr>, fact: Fact) {
    exists m, j :: m in lists && IsList(m) && 0 <= j < |m.values| && fact in EntryFacts(p, owner, m, j)
  }

  ghost predicate Told(p: Program, fact: Fact) {
    exists c :: 0 <= c < |p.code| && Says(p, p.code[c], fact)
  }

  lemma {:induction false} ListingSays(p: Program, owner: Owner, list: Expr, n: nat, log: seq<Fact>, fact: Fact)
    requires IsList(list) && n <= |list.values| && fact in Listing(p, owner, list, n, log)
    ensures fact in log || (exists j :: 0 <= j < n && fact in EntryFacts(p, owner, list, j))
            || ListSays(p, owner, ListsTo(list, n), fact)
    decreases list, n
  {
    if n > 0 {
      var before, inner := Listing(p, owner, list, n - 1, log), Unwrap(list.values[n-1]);
      if fact in before { ListingSays(p, owner, list, n - 1, log, fact); }
      else if IsList(inner) {
        ListingSays(p, owner, inner, |inner.values|, before, fact);
        if !ListSays(p, owner, ListsTo(inner, |inner.values|), fact) { assert inner in ListsIn(inner); }
      }
      else { EntryAdds(p, owner, list, n - 1, before); }
    }
  }

  lemma {:induction false} ListSaysAll(p: Program, owner: Owner, list: Expr, log: seq<Fact>, fact: Fact)
    requires IsList(list) && fact in Listing(p, owner, list, |list.values|, log) && fact !in log
    ensures ListSays(p, owner, ListsIn(list), fact)
  {
    ListingSays(p, owner, list, |list.values|, log, fact);
    if !ListSays(p, owner, ListsTo(list, |list.values|), fact) { assert list in ListsIn(list); }
  }

  lemma {:induction false} WalkedChild(e: Expr, x: Expr) returns (k: nat)
    requires x in Walked(e)
    ensures k < |Children(e)| && Children(e)[k] == x
  {
    match e {
      case Call(callee, _) => UnnamedParts([callee], x);
      case Assign(_, right) => UnnamedParts([right], x);
      case Declare(_, init) => UnnamedParts([init], x);
      case Rows(_, values) => UnnamedParts(values, x);
      case Items(_, values) => UnnamedParts(values, x);
      case _ =>
    }
    assert x in Children(e);
    k :| 0 <= k < |Children(e)| && Children(e)[k] == x;
  }

  lemma {:induction false} WalkingSays(p: Program, owner: Owner, e: Expr, inList: bool, log: seq<Fact>, fact: Fact)
    requires fact in Walking(p, owner, e, inList, log) && fact !in log
    ensures SaidBy(p, owner, e, fact) || (!inList && ListSays(p, owner, Read(e), fact))
    decreases e, |Walked(e)| + 1
  {
    var own := if IsList(e) && !inList then Listing(p, owner, e, |e.values|, log) else Recording(p, owner, e, log);
    if fact in own {
      if IsList(e) && !inList { ListSaysAll(p, owner, e, log, fact); }
      else { RecordingGrows(p, owner, e, log, fact); assert e in Text(e); }
    } else {
      WalkingToSays(p, owner, e, inList, |Walked(e)|, own, fact);
    }
  }

  lemma {:induction false} WalkingToSays(p: Program, owner: Owner, e: Expr, inList: bool, n: nat, log: seq<Fact>,
                                         fact: Fact)
    requires n <= |Walked(e)| && fact in WalkingTo(p, owner, e, inList, n, log) && fact !in log
    ensures SaidBy(p, owner, e, fact) || (!inList && ListSays(p, owner, Read(e), fact))
    decreases e, n
  {
    WalkedBelow(e);
    var before, x := WalkingTo(p, owner, e, inList, n - 1, log), Walked(e)[n-1];
    if fact in before { WalkingToSays(p, owner, e, inList, n - 1, log, fact); }
    else {
      WalkingSays(p, owner, x, inList || IsList(e), before, fact);
      var k := WalkedChild(e, x);
      ChildText(e, k, |Children(e)|);
      if !IsList(e) { ChildRead(e, k, |Children(e)|); }
    }
  }

  lemma {:induction false} ReadingSays(p: Program, code: Code, log: seq<Fact>, fact: Fact)
    requires fact in Reading(p, code, log) && fact !in log
    ensures Says(p, code, fact)
  {
    if code.owner.Body? { WalkingSays(p, code.owner, code.tree, false, log, fact); }
    else if IsList(Unwrap(code.tree)) { ListSaysAll(p, code.owner, Unwrap(code.tree), log, fact); }
  }

  lemma {:induction false} FactsTold(p: Program, n: nat, fact: Fact)
    requires n <= |p.code| && fact in AllFacts(p, n)
    ensures Told(p, fact)
  {
    if fact in AllFacts(p, n - 1) {
      FactsTold(p, n - 1, fact);
    } else {
      ReadingSays(p, p.code[n-1], AllFacts(p, n - 1), fact);
    }
  }

  lemma {:induction false} SaidRead(p: Program, code: Code, log: seq<Fact>, fact: Fact)
    requires Says(p, code, fact)
    ensures fact in Reading(p, code, log)
  {
    if code.owner.Body? && SaidBy(p, code.owner, code.tree, fact) {
      var n :| n in Text(code.tree) && fact in NodeFacts(p, code.owner, n);
      FactsCover(p, code.owner, code.tree, false, log, n, fact);
    } else if ListSays(p, code.owner, ListsRead(code), fact) {
      var m, j :| m in ListsRead(code) && IsList(m) && 0 <= j < |m.values| && fact in EntryFacts(p, code.owner, m, j);
      if code.owner.Body? { ReadCovers(p, code.owner, code.tree, log, m, j, fact); }
      else { ListCovers(p, code.owner, Unwrap(code.tree), log, m, j, fact); }
    }
  }

  lemma {:induction false} FoundLater(p: Program, m: nat, n: nat, fact: Fact)
    requires m <= n <= |p.code| && fact in AllFacts(p, m)
    ensures fact in AllFacts(p, n)
  {
    if m < n {
      FoundLater(p, m, n - 1, fact);
      ReadingGrows(p, p.code[n-1], AllFacts(p, n - 1), fact);
    }
  }

  lemma {:induction false} SaidFound(p: Program, c: nat, fact: Fact)
    requires c < |p.code| && Says(p, p.code[c], fact)
    ensures fact in Find(p).facts
  {
    SaidRead(p, p.code[c], AllFacts(p, c), fact);
    FoundLater(p, c + 1, |p.code|, fact);
  }

  /** The walks record exactly what the text tells. */
  lemma {:induction false} FoundTold(p: Program, fact: Fact)
    ensures fact in Find(p).facts <==> Told(p, fact)
  {
    if fact in Find(p).facts { FactsTold(p, |p.code|, fact); }
    if Told(p, fact) {
      var c :| 0 <= c < |p.code| && Says(p, p.code[c], fact);
      SaidFound(p, c, fact);
    }
  }
}
