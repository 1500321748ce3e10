/** When a slot is uncertain and what its candidates are, on the constructs of the text
    (internal/cproject/resolve.go:1069-1110, 1382-1460, 1569-1610, 1665-1726): the index gives a
    slot up only for an escape or for a value it cannot name, and then always. */
module PointsToExact {
  import opened PointsTo
  import opened PointsToText
  import opened PointsToRuns
  import opened PointsToLimits
  import opened PointsToValues

  // ----- what is put into a slot -----

  /** The slot an entry of a list that is read fills. */
  predicate Fills(owner: Owner, list: Expr, k: nat, key: Key)
    requires IsList(list) && k < |list.values|
  {
    match list
    case Items(_, _) => owner.Table? && key == Global(owner.name)
    case Rows(members, _) => k < |members| && members[k] == Some(key)
  }

  ghost predicate Assigns(code: Code, key: Key, value: Expr) {
    code.owner.Body? && exists left :: Assign(left, value) in Text(code.tree) && SlotOf(left) == Some(key)
  }

  ghost predicate Declares(code: Code, key: Key, value: Expr) {
    code.owner.Body? && Declare(key, value) in Text(code.tree) && !IsList(Unwrap(value))
  }

  ghost predicate Enters(code: Code, key: Key, value: Expr) {
    exists list, j ::
      && list in ListsRead(code) && IsList(list) && 0 <= j < |list.values|
      && list.values[j] == value && Fills(code.owner, list, j, key) && Designator(value).Some?
  }

  /** The value is the whole initializer of a table. */
  predicate Starts(code: Code, key: Key, value: Expr) {
    code.owner.Table? && key == Global(code.owner.name) && code.tree == value && !IsList(Unwrap(value))
  }

  /** A construct of the code puts the value into the slot. */
  ghost predicate Puts(code: Code, key: Key, value: Expr) {
    || (!key.Param? && Assigns(code, key, value))
    || Declares(code, key, value) || Enters(code, key, value) || Starts(code, key, value)
  }

  // ----- what the index makes of a value -----

  /** The value names a function that is known. */
  ghost predicate Names(p: Program, value: Expr, ref: Ref) {
    exists name :: Designator(value) == Some(name) && TargetOf(p, name) == Known(ref)
  }

  ghost predicate Nameable(p: Program, value: Expr) {
    exists ref :: Names(p, value, ref)
  }

  /** The value is a parameter of the function whose body this is. */
  predicate Forwards(owner: Owner, value: Expr) {
    Unwrap(value).Parameter? && owner == Body(Unwrap(value).fn)
  }

  /** The value is read from the slot itself: orig->free for copy->free. */
  ghost predicate ReadsItself(key: Key, value: Expr) {
    match Unwrap(value)
    case Field(_, member, _) => member == Some(key)
    case Element(base, _) => exists isArray :: Unwrap(base) == Variable(key, isArray)
    case Deref(x) => SlotOf(x) == Some(key)
    case _ => false
  }

  /** The index cannot say what the value is. */
  ghost predicate Doubtful(p: Program, owner: Owner, key: Key, value: Expr) {
    !IsNull(value) && !Nameable(p, value) && !Forwards(owner, value) && !ReadsItself(key, value)
  }

  lemma {:induction false} NamesNot(p: Program, key: Key, value: Expr)
    requires Designator(value).Some? || Unwrap(value).Parameter?
    ensures !IsNull(value) && !Keeps(key, value) && !ReadsItself(key, value)
    decreases value
  {
    UnwrapStrip(value);
    if Designator(value).Some? { NamingSlot(Unwrap(value)); }
    if value.Cast? { NamesNot(p, key, value.inner); }
  }

  lemma {:induction false} KeepsExactly(key: Key, value: Expr)
    ensures Keeps(key, value) <==> ReadsItself(key, value)
  {
    var from := Unwrap(value);
    if from.Element? && Unwrap(from.base).Variable? {
      assert Unwrap(from.base) == Variable(Unwrap(from.base).key, Unwrap(from.base).isArray);
    }
  }

  /** What storing a value tells, by what the value is. */
  lemma {:induction false} StoreExactly(p: Program, owner: Owner, key: Key, value: Expr)
    ensures forall k, ref :: Stores(k, Function(ref)) in StoreFacts(p, owner, key, value) <==>
                             k == key && Names(p, value, ref)
    ensures forall k, f, i :: Stores(k, ParameterOf(f, i)) in StoreFacts(p, owner, key, value) <==>
                              k == key && Unwrap(value) == Parameter(f, i) && owner == Body(f)
    ensures forall k :: Stores(k, Unknown) in StoreFacts(p, owner, key, value) <==>
                        k == key && Doubtful(p, owner, key, value)
  {
    KeepsExactly(key, value);
    if Designator(value).Some? || Unwrap(value).Parameter? { NamesNot(p, key, value); }
    if Designator(value).Some? { assert !Forwards(owner, value) by { UnwrapStrip(value); } }
    if Designator(value).Some? && TargetOf(p, Designator(value).value).Known? {
      assert Names(p, value, TargetOf(p, Designator(value).value).ref);
    }
  }

  lemma {:induction false} UnwrapStrip(e: Expr)
    ensures Strip(Unwrap(e)) == Strip(e)
  {
    if e.Cast? { UnwrapStrip(e.inner); }
  }

  // ----- what one construct stores -----

  /** The address of the slot is taken, or the slot is an array and handed to a call; an array that
      cannot be written does not count. */
  ghost predicate Exposes(p: Program, code: Code, key: Key) {
    code.owner.Body? && exists x ::
      && (AddressOf(x) in Text(code.tree) || (ArrayOf(x).Some? && Handed(code, x)))
      && SlotOf(x) == Some(key) && !(ArrayOf(x).Some? && ArrayOf(x).value in p.constants)
  }

  ghost predicate Handed(code: Code, x: Expr) {
    exists call :: call in Text(code.tree) && call.Call? && x in call.args
  }

  /** A parameter is assigned in the code. */
  ghost predicate Overwrites(code: Code, key: Key) {
    key.Param? && exists right :: Assigns(code, key, right) && !IsNull(right)
  }

  lemma {:induction false} EscapeExactly(p: Program, x: Expr, fact: Fact)
    ensures fact in EscapeFacts(p, x) <==>
            && fact.Stores? && fact.what == Unknown && SlotOf(x) == Some(fact.key)
            && !(ArrayOf(x).Some? && ArrayOf(x).value in p.constants)
  {
  }

  lemma {:induction false} CallFrom(p: Program, direct: Option<string>, args: seq<Expr>, n: nat, fact: Fact)
    returns (k: nat)
    requires n <= |args| && fact in Calling(p, direct, args, n, [])
    ensures k < n && fact in ArgumentFacts(p, direct, args[k], k + 1)
  {
    if fact in ArgumentFacts(p, direct, args[n-1], n) { return n - 1; }
    k := CallFrom(p, direct, args, n - 1, fact);
  }

  /** The slot is stored into by an escape, by writing a parameter, or by a value put there. */
  ghost predicate IsStored(p: Program, code: Code, key: Key, what: Stored) {
    || (exists value :: Puts(code, key, value) && Stands(p, code.owner, key, value, what))
    || (what == Unknown && (Exposes(p, code, key) || Overwrites(code, key)))
  }

  /** What a value put into the slot stands for. */
  ghost predicate Stands(p: Program, owner: Owner, key: Key, value: Expr, what: Stored) {
    match what
    case Function(ref) => Names(p, value, ref)
    case ParameterOf(f, i) => Unwrap(value) == Parameter(f, i) && owner == Body(f)
    case Unknown => Doubtful(p, owner, key, value)
  }

  lemma {:induction false} StoreStands(p: Program, owner: Owner, into: Key, value: Expr, key: Key, what: Stored)
    ensures Stores(key, what) in StoreFacts(p, owner, into, value) <==>
            key == into && Stands(p, owner, key, value, what)
  {
    StoreExactly(p, owner, into, value);
  }

  lemma {:induction false} NodeTells(p: Program, code: Code, n: Expr, key: Key, what: Stored)
    requires code.owner.Body? && n in Text(code.tree) && Stores(key, what) in NodeFacts(p, code.owner, n)
    ensures IsStored(p, code, key, what)
  {
    var fact := Stores(key, what);
    match n
    case Call(callee, args) =>
      var k := CallFrom(p, DirectOf(p, callee), args, |args|, fact);
      EscapeExactly(p, args[k], fact);
      assert Handed(code, args[k]);
    case Assign(left, right) =>
      assert n == Assign(left, right);
      assert Assigns(code, SlotOf(left).value, right);
      StoreStands(p, code.owner, SlotOf(left).value, right, key, what);
    case Declare(into, init) => StoreStands(p, code.owner, into, init, key, what);
    case AddressOf(x) => EscapeExactly(p, x, fact); assert AddressOf(x) in Text(code.tree);
    case _ =>
  }

  lemma {:induction false} CodeTells(p: Program, code: Code, key: Key, what: Stored)
    requires Says(p, code, Stores(key, what))
    ensures IsStored(p, code, key, what)
  {
    var fact := Stores(key, what);
    if code.owner.Body? && SaidBy(p, code.owner, code.tree, fact) {
      var n :| n in Text(code.tree) && fact in NodeFacts(p, code.owner, n);
      NodeTells(p, code, n, key, what);
    } else if ListSays(p, code.owner, ListsRead(code), fact) {
      var list, j :| list in ListsRead(code) && IsList(list) && 0 <= j < |list.values|
                     && fact in EntryFacts(p, code.owner, list, j);
      StoreStands(p, code.owner, key, list.values[j], key, what);
      assert Enters(code, key, list.values[j]);
    } else {
      StoreStands(p, code.owner, Global(code.owner.name), code.tree, key, what);
    }
  }

  lemma {:induction false} PutSays(p: Program, code: Code, key: Key, value: Expr, what: Stored)
    requires Puts(code, key, value) && Stands(p, code.owner, key, value, what)
    ensures Says(p, code, Stores(key, what))
  {
    var fact := Stores(key, what);
    StoreStands(p, code.owner, key, value, key, what);
    if !key.Param? && Assigns(code, key, value) {
      var left :| Assign(left, value) in Text(code.tree) && SlotOf(left) == Some(key);
      assert fact in NodeFacts(p, code.owner, Assign(left, value));
    } else if Declares(code, key, value) {
      assert fact in NodeFacts(p, code.owner, Declare(key, value));
    } else if Enters(code, key, value) {
      var list, j :| list in ListsRead(code) && IsList(list) && 0 <= j < |list.values|
                     && list.values[j] == value && Fills(code.owner, list, j, key) && Designator(value).Some?;
      UnwrapStrip(value);
      assert fact in EntryFacts(p, code.owner, list, j);
    }
  }

  lemma {:induction false} ExposedSays(p: Program, code: Code, key: Key)
    requires Exposes(p, code, key)
    ensures Says(p, code, Stores(key, Unknown))
  {
    var fact := Stores(key, Unknown);
    var x :| (AddressOf(x) in Text(code.tree) || (ArrayOf(x).Some? && Handed(code, x)))
             && SlotOf(x) == Some(key) && !(ArrayOf(x).Some? && ArrayOf(x).value in p.constants);
    EscapeExactly(p, x, fact);
    if AddressOf(x) in Text(code.tree) { assert fact in NodeFacts(p, code.owner, AddressOf(x)); }
    else {
      var call :| call in Text(code.tree) && call.Call? && x in call.args;
      var j :| 0 <= j < |call.args| && call.args[j] == x;
      CallRecorded(p, DirectOf(p, call.callee), call.args, j, |call.args|, fact);
      assert fact in NodeFacts(p, code.owner, call);
    }
  }

  lemma {:induction false} OverwrittenSays(p: Program, code: Code, key: Key)
    requires Overwrites(code, key)
    ensures Says(p, code, Stores(key, Unknown))
  {
    var right :| Assigns(code, key, right) && !IsNull(right);
    var left :| Assign(left, right) in Text(code.tree) && SlotOf(left) == Some(key);
    assert Stores(key, Unknown) in NodeFacts(p, code.owner, Assign(left, right));
  }

  lemma {:induction false} CodeStores(p: Program, code: Code, key: Key, what: Stored)
    ensures Says(p, code, Stores(key, what)) <==> IsStored(p, code, key, what)
  {
    if Says(p, code, Stores(key, what)) { CodeTells(p, code, key, what); }
    if value :| Puts(code, key, value) && Stands(p, code.owner, key, value, what) {
      PutSays(p, code, key, value, what);
    }
    if what == Unknown && Exposes(p, code, key) { ExposedSays(p, code, key); }
    if what == Unknown && Overwrites(code, key) { OverwrittenSays(p, code, key); }
  }

  /** What is found stored in a slot is what some code stores there. */
  lemma {:induction false} StoresExactly(p: Program, key: Key, what: Stored)
    ensures Stores(key, what) in Find(p).facts <==>
            exists c :: 0 <= c < |p.code| && IsStored(p, p.code[c], key, what)
  {
    FoundTold(p, Stores(key, what));
    forall c | 0 <= c < |p.code| ensures Says(p, p.code[c], Stores(key, what)) <==> IsStored(p, p.code[c], key, what) {
      CodeStores(p, p.code[c], key, what);
    }
  }

  // ----- what is passed to a parameter -----

  /** Whatever the conditions, the callee is the one function. */
  predicate Picks(p: Program, e: Expr, f: string)
    decreases e, 1
  {
    Chooses(p, e, f) ||
    match Designator(e)
    case Some(name) => TargetOf(p, name) == Known(Own(f)) || TargetOf(p, name) == Alternatives([f])
    case None => false
  }

  predicate Chooses(p: Program, e: Expr, f: string)
    decreases e, 0
  {
    var r := Strip(e);
    r.Conditional?
    && if Unwrap(r.test).Number? then Picks(p, if Unwrap(r.test).zero then r.no else r.yes, f)
       else Picks(p, r.yes, f) && Picks(p, r.no, f)
  }

  /** The call is one of the function: its name, or a choice of it. */
  predicate Calls(p: Program, callee: Expr, f: string) {
    match Designator(callee)
    case Some(name) => TargetOf(p, name) == Known(Own(f))
    case None => Chooses(p, callee, f)
  }

  lemma {:induction false} ChoosesExactly(p: Program, e: Expr, f: string)
    ensures ConditionalCallees(e).Some? ==> ConditionalCallees(e).value != []
    ensures Chooses(p, e, f) <==>
            ConditionalCallees(e).Some? && AllResolveTo(p, ConditionalCallees(e).value, Own(f))
    decreases e, 0
  {
    var r := Strip(e);
    if r.Conditional? {
      if Unwrap(r.test).Number? { PicksExactly(p, if Unwrap(r.test).zero then r.no else r.yes, f); }
      else {
        PicksExactly(p, r.yes, f);
        PicksExactly(p, r.no, f);
        var yes, no := BranchNames(r.yes), BranchNames(r.no);
        if yes.Some? && no.Some? { AllResolveBoth(p, yes.value, no.value, f); }
      }
    }
  }

  lemma {:induction false} AllResolveBoth(p: Program, a: seq<string>, b: seq<string>, f: string)
    ensures AllResolveTo(p, a + b, Own(f)) <==> AllResolveTo(p, a, Own(f)) && AllResolveTo(p, b, Own(f))
  {
    assert a == (a + b)[..|a|] && b == (a + b)[|a|..];
    if AllResolveTo(p, a + b, Own(f)) {
      forall k | 0 <= k < |b| ensures TargetOf(p, b[k]) == Known(Own(f)) || TargetOf(p, b[k]) == Alternatives([f]) {
        assert (a + b)[|a| + k] == b[k];
      }
    }
  }

  lemma {:induction false} PicksExactly(p: Program, e: Expr, f: string)
    ensures BranchNames(e).Some? ==> BranchNames(e).value != []
    ensures Picks(p, e, f) <==> BranchNames(e).Some? && AllResolveTo(p, BranchNames(e).value, Own(f))
    decreases e, 1
  {
    ChoosesExactly(p, e, f);
    if Designator(e).Some? {
      var name := Designator(e).value;
      assert BranchNames(e) == Some([name]) && [name][0] == name;
      assert AllResolveTo(p, [name], Own(f)) <==>
             TargetOf(p, name) == Known(Own(f)) || TargetOf(p, name) == Alternatives([f]);
    }
  }

  lemma {:induction false} FirstResolved(p: Program, names: seq<string>, f: string)
    requires names != [] && AllResolveTo(p, names, Own(f))
    ensures TargetOf(p, names[0]) == Known(Own(f)) || TargetOf(p, names[0]) == Alternatives([f])
  {
  }

  lemma {:induction false} DirectChoice(p: Program, callee: Expr, f: string)
    requires Designator(callee).None?
    ensures DirectOf(p, callee) == Some(f) <==> Chooses(p, callee, f)
  {
    ChoosesExactly(p, callee, f);
    if ConditionalCallees(callee).Some? {
      var names := ConditionalCallees(callee).value;
      if Chooses(p, callee, f) { FirstResolved(p, names, f); }
      var first := TargetOf(p, names[0]);
      if first.Alternatives? && |first.fs| == 1 { assert first.fs == [first.fs[0]]; }
    }
  }

  lemma {:induction false} DirectExactly(p: Program, callee: Expr, f: string)
    ensures DirectOf(p, callee) == Some(f) <==> Calls(p, callee, f)
  {
    if Designator(callee).None? { DirectChoice(p, callee, f); }
  }

  /** Some call of the function hands the value to its parameter. */
  ghost predicate PassesTo(p: Program, f: string, position: nat, value: Expr) {
    exists c, call :: 0 <= c < |p.code| && CallPasses(p, p.code[c], call, f, position, value)
  }

  ghost predicate CallPasses(p: Program, code: Code, call: Expr, f: string, position: nat, value: Expr) {
    && code.owner.Body? && call in Text(code.tree) && call.Call? && Calls(p, call.callee, f)
    && 1 <= position <= |call.args| && call.args[position-1] == value
  }

  /** What the index makes of a value that is passed. */
  ghost predicate Means(p: Program, value: Expr, passed: Passed) {
    match passed
    case NullPassed => IsNull(value)
    case FunctionPassed(ref) => Names(p, value, ref)
    case UnknownPassed => !IsNull(value) && !Nameable(p, value)
  }

  lemma {:induction false} PassedMeans(p: Program, value: Expr, passed: Passed)
    ensures PassedOf(p, value) == passed <==> Means(p, value, passed)
  {
    if Designator(value).Some? {
      NamesNot(p, Global(""), value);
      var name := Designator(value).value;
      if TargetOf(p, name).Known? { assert Names(p, value, TargetOf(p, name).ref); }
    }
  }

  lemma {:induction false} StoredOnly(p: Program, owner: Owner, key: Key, value: Expr, fact: Fact)
    requires fact in StoreFacts(p, owner, key, value)
    ensures fact.Stores?
  {
  }

  lemma {:induction false} EntryStores(p: Program, owner: Owner, list: Expr, k: nat, fact: Fact)
    requires IsList(list) && k < |list.values| && fact in EntryFacts(p, owner, list, k)
    ensures fact.Stores?
  {
    var value := list.values[k];
    match list
    case Items(_, _) => StoredOnly(p, owner, Global(owner.name), value, fact);
    case Rows(members, _) => StoredOnly(p, owner, members[k].value, value, fact);
  }

  lemma {:induction false} NodePasses(p: Program, owner: Owner, n: Expr, fact: Fact)
    requires fact in NodeFacts(p, owner, n) && fact.Passes?
    ensures n.Call?
  {
    match n
    case Assign(left, right) => if SlotOf(left).Some? { StoredOnly(p, owner, SlotOf(left).value, right, fact); }
    case Declare(key, init) => StoredOnly(p, owner, key, init, fact);
    case _ =>
  }

  lemma {:induction false} PassedSaid(p: Program, code: Code, fact: Fact)
    requires Says(p, code, fact) && fact.Passes?
    ensures code.owner.Body? && SaidBy(p, code.owner, code.tree, fact)
  {
    if list, j :| list in ListsRead(code) && IsList(list) && 0 <= j < |list.values|
                  && fact in EntryFacts(p, code.owner, list, j) {
      EntryStores(p, code.owner, list, j, fact);
    }
    if fact in TableFacts(p, code) { StoredOnly(p, code.owner, Global(code.owner.name), code.tree, fact); }
  }

  lemma {:induction false} SaidPasses(p: Program, code: Code, f: string, position: nat, passed: Passed)
    returns (call: Expr, value: Expr)
    requires Says(p, code, Passes(f, position, passed))
    ensures CallPasses(p, code, call, f, position, value) && Means(p, value, passed)
  {
    var fact := Passes(f, position, passed);
    PassedSaid(p, code, fact);
    call :| call in Text(code.tree) && fact in NodeFacts(p, code.owner, call);
    NodePasses(p, code.owner, call, fact);
    var k := CallFrom(p, DirectOf(p, call.callee), call.args, |call.args|, fact);
    value := call.args[k];
    DirectExactly(p, call.callee, f);
    PassedMeans(p, value, passed);
  }

  lemma {:induction false} PassesSaid(p: Program, code: Code, call: Expr, f: string, position: nat, value: Expr,
                                      passed: Passed)
    requires CallPasses(p, code, call, f, position, value) && Means(p, value, passed)
    ensures Says(p, code, Passes(f, position, passed))
  {
    var fact := Passes(f, position, passed);
    DirectExactly(p, call.callee, f);
    PassedMeans(p, value, passed);
    CallRecorded(p, Some(f), call.args, position - 1, |call.args|, fact);
    assert fact in NodeFacts(p, code.owner, call);
  }

  lemma {:induction false} PassesExactly(p: Program, f: string, position: nat, passed: Passed)
    ensures Passes(f, position, passed) in Find(p).facts <==>
            exists value :: PassesTo(p, f, position, value) && Means(p, value, passed)
  {
    var fact := Passes(f, position, passed);
    FoundTold(p, fact);
    if Told(p, fact) {
      var c :| 0 <= c < |p.code| && Says(p, p.code[c], fact);
      var call, value := SaidPasses(p, p.code[c], f, position, passed);
      assert PassesTo(p, f, position, value);
    }
    if value :| PassesTo(p, f, position, value) && Means(p, value, passed) {
      var c, call :| 0 <= c < |p.code| && CallPasses(p, p.code[c], call, f, position, value);
      PassesSaid(p, p.code[c], call, f, position, value, passed);
    }
  }

  // ----- functions used as values -----

  /** The part only says what is called, compared or counted. */
  predicate Silent(e: Expr, k: nat)
    requires k < |Children(e)|
  {
    Designator(Children(e)[k]).Some? && ((e.Call? && k == 0) || e.Compare? || e.AsNumber?)
  }

  /** The name stands at the place, on the way to which no part is silent. */
  predicate Used(e: Expr, place: seq<nat>, name: string)
    decreases |place|
  {
    if place == [] then e == Named(name)
    else
      place[0] < |Children(e)| && !Silent(e, place[0]) && Used(Children(e)[place[0]], place[1..], name)
  }

  ghost predicate UsesFunction(p: Program, e: Expr, f: string) {
    exists place, name :: Used(e, place, name) && Fn(Own(f)) in NamedValues(p, name)
  }

  lemma {:induction false} VisitedExactly(e: Expr, x: Expr)
    ensures x in Visited(e) <==> exists k :: 0 <= k < |Children(e)| && Children(e)[k] == x && !Silent(e, k)
  {
    match e
    case Call(_, _) => CalleeVisited(e, x);
    case Compare(left, right) =>
      UnnamedParts([left, right], x);
      assert Children(e)[0] == left && Children(e)[1] == right;
    case AsNumber(inner) =>
      UnnamedParts([inner], x);
      assert Children(e)[0] == inner;
    case _ =>
  }

  lemma {:induction false} CalleeVisited(e: Expr, x: Expr)
    requires e.Call?
    ensures x in Visited(e) <==> exists k :: 0 <= k < |Children(e)| && Children(e)[k] == x && !Silent(e, k)
  {
    UnnamedParts([e.callee], x);
    assert Visited(e) == Unnamed([e.callee]) + e.args;
    if x in e.args {
      var k :| 0 <= k < |e.args| && e.args[k] == x;
      assert Children(e)[k+1] == x && !Silent(e, k + 1);
    } else if x in Unnamed([e.callee]) {
      assert Children(e)[0] == x && !Silent(e, 0);
    }
    if k :| 0 <= k < |Children(e)| && Children(e)[k] == x && !Silent(e, k) {
      if k > 0 { assert x == e.args[k-1]; }
    }
  }

  lemma {:induction false} UsedEscapes(p: Program, e: Expr, place: seq<nat>, name: string, f: string)
    requires Used(e, place, name) && Fn(Own(f)) in NamedValues(p, name)
    ensures f in EscapesOf(p, e)
    decreases |place|
  {
    if place == [] { NamedEscapes(p, name); }
    else {
      var x := Children(e)[place[0]];
      UsedEscapes(p, x, place[1..], name, f);
      VisitedExactly(e, x);
      SubEscapes(p, e, x);
    }
  }

  lemma {:induction false} EscapesUsed(p: Program, e: Expr, f: string) returns (place: seq<nat>, name: string)
    requires f in EscapesOf(p, e)
    ensures Used(e, place, name) && Fn(Own(f)) in NamedValues(p, name)
    decreases e, |Visited(e)| + 1
  {
    if f in Naming(p, e) { return [], e.name; }
    EscapingToGrows(p, e, |Visited(e)|, {} + Naming(p, e), f);
    place, name := EscapesUsedTo(p, e, |Visited(e)|, f);
  }

  lemma {:induction false} EscapesUsedTo(p: Program, e: Expr, n: nat, f: string) returns (place: seq<nat>, name: string)
    requires n <= |Visited(e)| && f in EscapingTo(p, e, n, {})
    ensures Used(e, place, name) && Fn(Own(f)) in NamedValues(p, name)
    decreases e, n
  {
    VisitedBelow(e);
    var x := Visited(e)[n-1];
    EscapingGrows(p, x, EscapingTo(p, e, n - 1, {}), f);
    if f in EscapingTo(p, e, n - 1, {}) { place, name := EscapesUsedTo(p, e, n - 1, f); }
    else {
      place, name := EscapesUsed(p, x, f);
      VisitedExactly(e, x);
      var k :| 0 <= k < |Children(e)| && Children(e)[k] == x && !Silent(e, k);
      var rest := place;
      place := [k] + rest;
      assert place[1..] == rest;
    }
  }

  /** The program uses the function as a value. */
  ghost predicate Escapes(p: Program, f: string) {
    exists c :: 0 <= c < |p.code| && UsesFunction(p, p.code[c].tree, f)
  }

  lemma {:induction false} EscapesExactly(p: Program, f: string)
    ensures f in Find(p).escaped <==> Escapes(p, f)
  {
    if f in Find(p).escaped {
      var c := EscapedFrom(p, |p.code|, f);
      var place, name := EscapesUsed(p, p.code[c].tree, f);
    }
    if Escapes(p, f) {
      var c :| 0 <= c < |p.code| && UsesFunction(p, p.code[c].tree, f);
      var place, name :| Used(p.code[c].tree, place, name) && Fn(Own(f)) in NamedValues(p, name);
      UsedEscapes(p, p.code[c].tree, place, name, f);
      EscapedAt(p, c, f);
    }
  }

  // ----- the answer -----

  ghost predicate PutSomewhere(p: Program, c: int, key: Key, value: Expr) {
    0 <= c < |p.code| && Puts(p.code[c], key, value)
  }

  /** A parameter may hold what no call of its function names. */
  ghost predicate Open(p: Program, f: string, position: nat) {
    Escapes(p, f) || exists value :: PassesTo(p, f, position, value) && !IsNull(value) && !Nameable(p, value)
  }

  /** The parameter is put into the slot, in its own function. */
  ghost predicate Carries(p: Program, key: Key, f: string, position: nat) {
    exists c, value ::
      PutSomewhere(p, c, key, value) && Unwrap(value) == Parameter(f, position) && p.code[c].owner == Body(f)
  }

  ghost predicate GivenUp(p: Program, key: Key) {
    || (exists c :: 0 <= c < |p.code| && (Exposes(p, p.code[c], key) || Overwrites(p.code[c], key)))
    || (exists c, value :: PutSomewhere(p, c, key, value) && Doubtful(p, p.code[c].owner, key, value))
    || (key.Param? && Open(p, key.f, key.position))
    || (exists f, position :: Carries(p, key, f, position) && Open(p, f, position))
  }

  ghost predicate PassesName(p: Program, f: string, position: nat, ref: Ref) {
    exists value :: PassesTo(p, f, position, value) && Names(p, value, ref)
  }

  ghost predicate Given(p: Program, key: Key, ref: Ref) {
    || (exists c, value :: PutSomewhere(p, c, key, value) && Names(p, value, ref))
    || (key.Param? && PassesName(p, key.f, key.position, ref))
    || (exists f, position :: Carries(p, key, f, position) && PassesName(p, f, position, ref))
  }

  lemma {:induction false} OpenExactly(p: Program, f: string, position: nat)
    ensures UncertainJoin(Find(p), f, position) <==> Open(p, f, position)
  {
    EscapesExactly(p, f);
    PassesExactly(p, f, position, UnknownPassed);
  }

  lemma {:induction false} CarriesExactly(p: Program, key: Key, f: string, position: nat)
    ensures Feeds(Find(p), f, position, key) <==> Carries(p, key, f, position)
  {
    var what := ParameterOf(f, position);
    StoresExactly(p, key, what);
    if Feeds(Find(p), f, position, key) {
      var c :| 0 <= c < |p.code| && IsStored(p, p.code[c], key, what);
      var value :| Puts(p.code[c], key, value) && Stands(p, p.code[c].owner, key, value, what);
      assert PutSomewhere(p, c, key, value);
    }
    if c, value :| PutSomewhere(p, c, key, value) && Unwrap(value) == Parameter(f, position)
                   && p.code[c].owner == Body(f) {
      assert Stands(p, p.code[c].owner, key, value, what);
      assert IsStored(p, p.code[c], key, what);
    }
  }

  lemma {:induction false} UnknownExactly(p: Program, key: Key)
    ensures Stores(key, Unknown) in Find(p).facts <==>
            || (exists c :: 0 <= c < |p.code| && (Exposes(p, p.code[c], key) || Overwrites(p.code[c], key)))
            || (exists c, value :: PutSomewhere(p, c, key, value) && Doubtful(p, p.code[c].owner, key, value))
  {
    StoresExactly(p, key, Unknown);
    if c :| 0 <= c < |p.code| && IsStored(p, p.code[c], key, Unknown) {
      if value :| Puts(p.code[c], key, value) && Stands(p, p.code[c].owner, key, value, Unknown) {
        assert PutSomewhere(p, c, key, value);
      }
    }
    if c, value :| PutSomewhere(p, c, key, value) && Doubtful(p, p.code[c].owner, key, value) {
      assert Stands(p, p.code[c].owner, key, value, Unknown);
      assert IsStored(p, p.code[c], key, Unknown);
    }
  }

  lemma {:induction false} NamedExactly(p: Program, key: Key, ref: Ref)
    ensures Stores(key, Function(ref)) in Find(p).facts <==>
            exists c, value :: PutSomewhere(p, c, key, value) && Names(p, value, ref)
  {
    StoresExactly(p, key, Function(ref));
    if c :| 0 <= c < |p.code| && IsStored(p, p.code[c], key, Function(ref)) {
      var value :| Puts(p.code[c], key, value) && Stands(p, p.code[c].owner, key, value, Function(ref));
      assert PutSomewhere(p, c, key, value);
    }
    if c, value :| PutSomewhere(p, c, key, value) && Names(p, value, ref) {
      assert Stands(p, p.code[c].owner, key, value, Function(ref));
      assert IsStored(p, p.code[c], key, Function(ref));
    }
  }

  /** A slot is uncertain exactly when the text gives it up. */
  lemma {:induction false} UncertainExactly(p: Program, key: Key)
    ensures Uncertain(Find(p), key) <==> GivenUp(p, key)
  {
    UnknownExactly(p, key);
    if key.Param? { OpenExactly(p, key.f, key.position); }
    forall f, position
      ensures Feeds(Find(p), f, position, key) <==> Carries(p, key, f, position)
      ensures UncertainJoin(Find(p), f, position) <==> Open(p, f, position)
    {
      CarriesExactly(p, key, f, position);
      OpenExactly(p, f, position);
    }
  }

  /** Its candidates are exactly the functions the text names for it. */
  lemma {:induction false} CandidatesExactly(p: Program, key: Key, ref: Ref)
    ensures CanHold(Find(p), key, ref) <==> Given(p, key, ref)
  {
    NamedExactly(p, key, ref);
    if key.Param? { PassesExactly(p, key.f, key.position, FunctionPassed(ref)); }
    forall f, position
      ensures Feeds(Find(p), f, position, key) <==> Carries(p, key, f, position)
      ensures IsPassed(Find(p), f, position, ref) <==> PassesName(p, f, position, ref)
    {
      CarriesExactly(p, key, f, position);
      PassesExactly(p, f, position, FunctionPassed(ref));
    }
  }

  // ----- what gives a slot up -----

  /** The function f is `g = h = NULL`. */
  function Chain(g: string, h: string, f: string): Program {
    Program([Code(Body(f), ChainTree(g, h))], map[], {})
  }

  function ChainTree(g: string, h: string): Expr {
    Assign(Variable(Global(g), false), Assign(Variable(Global(h), false), Number(true)))
  }

  /** In some state the value is something, and it names no known function. */
  ghost predicate MayBeElse(p: Program, value: Expr) {
    !Nameable(p, value) && exists s, v :: Leads(p, s, value, v)
  }

  lemma {:induction false} NamesLead(p: Program, value: Expr)
    requires Nameable(p, value)
    ensures !IsNull(value)
  {
    NamesNot(p, Global(""), value);
  }

  /** A value that is stored or passed is given up when it may be something it does not name, or is
      always null and not written as one. */
  lemma {:induction false} ElseExactly(p: Program, value: Expr)
    ensures !IsNull(value) && !Nameable(p, value) <==>
            MayBeElse(p, value) || (Nowhere(p, value) && !IsNull(value) && !Nameable(p, value))
  {
    if !Nowhere(p, value) { var s, v := ElseLeads(p, value); }
    if s, v :| Leads(p, s, value, v) {
      if IsNull(value) { NowhereInert(p, s, value); }
    }
  }

  /** Putting a null that is not written as one gives a slot up, though no run puts anything there. */
  lemma {:induction false} HiddenNullGivesUp(p: Program, c: nat, key: Key, value: Expr)
    requires c < |p.code| && Puts(p.code[c], key, value) && Nowhere(p, value)
    requires !IsNull(value) && !Nameable(p, value) && !ReadsItself(key, value)
    ensures Uncertain(Find(p), key) && forall s :: Values(p, s, value) <= {Inert}
  {
    assert !Unwrap(value).Parameter? by { UnwrapNowhere(p, value); }
    assert PutSomewhere(p, c, key, value) && Doubtful(p, p.code[c].owner, key, value);
    UncertainExactly(p, key);
    NowhereExactly(p, value);
  }

  lemma {:induction false} UnwrapNowhere(p: Program, e: Expr)
    requires Nowhere(p, e)
    ensures Nowhere(p, Unwrap(e))
  {
    if e.Cast? { UnwrapNowhere(p, e.inner); }
  }

  lemma {:induction false} ChainText(g: string, h: string)
    ensures Text(ChainTree(g, h)) == {ChainTree(g, h), Variable(Global(g), false), ChainTree(g, h).right,
                                      Variable(Global(h), false), Number(true)}
    ensures Read(ChainTree(g, h)) == {}
  {
    var tree := ChainTree(g, h);
    LeafText(tree.left);
    LeafText(tree.right.left);
    LeafText(tree.right.right);
    AssignText(tree.right);
    AssignText(tree);
  }

  lemma {:induction false} LeafText(e: Expr)
    requires e.Variable? || e.Number?
    ensures Text(e) == {e} && Read(e) == {}
  {
    assert TextTo(e, 0) == {} && ReadTo(e, 0) == {};
  }

  lemma {:induction false} AssignText(e: Expr)
    requires e.Assign?
    ensures Text(e) == {e} + Text(e.left) + Text(e.right)
    ensures Read(e) == Read(e.left) + Read(e.right)
  {
    assert TextTo(e, 0) == {} && TextTo(e, 1) == Text(e.left) && TextTo(e, 2) == TextTo(e, 1) + Text(e.right);
    assert ReadTo(e, 0) == {} && ReadTo(e, 1) == Read(e.left) && ReadTo(e, 2) == ReadTo(e, 1) + Read(e.right);
  }

  lemma {:induction false} ChainKeeps(g: string, h: string, f: string)
    requires g != h
    ensures !GivenUp(Chain(g, h, f), Global(h))
  {
    var p, code, key := Chain(g, h, f), Code(Body(f), ChainTree(g, h)), Global(h);
    ChainText(g, h);
    assert forall value :: Assigns(code, key, value) ==> value == Number(true);
    assert forall value :: !Declares(code, key, value) && !Enters(code, key, value) && !Starts(code, key, value);
    assert !Exposes(p, code, key);
    assert forall value :: Puts(code, key, value) ==> IsNull(value);
    assert forall c, value :: PutSomewhere(p, c, key, value) ==> IsNull(value) && !Unwrap(value).Parameter?;
  }

  /** In `g = h = NULL` the value of `h = NULL` gives g up, and h stays certain. */
  lemma {:induction false} ChainedNull(g: string, h: string, f: string)
    requires g != h
    ensures Uncertain(Find(Chain(g, h, f)), Global(g)) && !Uncertain(Find(Chain(g, h, f)), Global(h))
  {
    var p, tree := Chain(g, h, f), ChainTree(g, h);
    ChainText(g, h);
    assert Assigns(p.code[0], Global(g), tree.right);
    HiddenNullGivesUp(p, 0, Global(g), tree.right);
    UncertainExactly(p, Global(h));
    ChainKeeps(g, h, f);
  }

  // ----- nulls tell nothing -----

  /** The code of a function stores and passes nothing but nulls, takes no address and uses no
      function as a value. */
  ghost predicate OnlyNulls(p: Program, code: Code) {
    code.owner.Body? && AllNulls(code.tree) && forall f :: !UsesFunction(p, code.tree, f)
  }

  ghost predicate AllNulls(e: Expr) {
    forall n :: n in Text(e) ==> NullsIn(n)
  }

  predicate NullsIn(n: Expr) {
    match n
    case Assign(_, right) => IsNull(right)
    case Declare(_, init) => IsNull(init)
    case Call(_, args) => forall x :: x in args ==> IsNull(x)
    case AddressOf(_) => false
    case _ => !IsList(n)
  }

  function More(p: Program, code: Code): Program {
    p.(code := p.code + [code])
  }

  lemma {:induction false} NoLists(e: Expr)
    requires AllNulls(e)
    ensures Read(e) == {}
    decreases e
  {
    assert e in Text(e);
    if m :| m in ReadTo(e, |Children(e)|) {
      var k := ReadFrom(e, |Children(e)|, m);
      ChildText(e, k, |Children(e)|);
      NoLists(Children(e)[k]);
    }
  }

  lemma {:induction false} NullSlot(e: Expr)
    requires IsNull(e)
    ensures ArrayOf(e).None? && Designator(e).None? && !Unwrap(e).Parameter?
  {
    if e.Cast? { NullSlot(e.inner); }
  }

  lemma {:induction false} NullAssigned(code: Code, key: Key, value: Expr)
    requires AllNulls(code.tree) && Assigns(code, key, value)
    ensures IsNull(value)
  {
    var left :| Assign(left, value) in Text(code.tree) && SlotOf(left) == Some(key);
    assert NullsIn(Assign(left, value));
  }

  lemma {:induction false} NullHanded(code: Code, x: Expr)
    requires AllNulls(code.tree) && Handed(code, x)
    ensures ArrayOf(x).None?
  {
    var call :| call in Text(code.tree) && call.Call? && x in call.args;
    assert NullsIn(call);
    NullSlot(x);
  }

  lemma {:induction false} NullNode(code: Code, n: Expr)
    requires AllNulls(code.tree) && n in Text(code.tree)
    ensures !n.AddressOf?
  {
    assert NullsIn(n);
  }

  lemma {:induction false} NullShown(p: Program, code: Code, key: Key)
    requires AllNulls(code.tree)
    ensures !Exposes(p, code, key) && !Overwrites(code, key)
  {
    forall n | n in Text(code.tree) ensures !n.AddressOf? { NullNode(code, n); }
    forall x | Handed(code, x) ensures ArrayOf(x).None? { NullHanded(code, x); }
    forall right | Assigns(code, key, right) ensures IsNull(right) { NullAssigned(code, key, right); }
  }

  lemma {:induction false} NullPut(code: Code, key: Key, value: Expr)
    requires code.owner.Body? && AllNulls(code.tree) && Puts(code, key, value)
    ensures IsNull(value) && Designator(value).None? && !Unwrap(value).Parameter?
  {
    NoLists(code.tree);
    if Assigns(code, key, value) { NullAssigned(code, key, value); }
    else { assert NullsIn(Declare(key, value)); }
    NullSlot(value);
  }

  lemma {:induction false} SameChoice(p: Program, q: Program, e: Expr, f: string)
    requires p.resolve == q.resolve
    ensures Chooses(p, e, f) <==> Chooses(q, e, f)
    decreases e, 0
  {
    var r := Strip(e);
    if r.Conditional? {
      if Unwrap(r.test).Number? { SamePick(p, q, if Unwrap(r.test).zero then r.no else r.yes, f); }
      else {
        SamePick(p, q, r.yes, f);
        SamePick(p, q, r.no, f);
      }
    }
  }

  lemma {:induction false} SamePick(p: Program, q: Program, e: Expr, f: string)
    requires p.resolve == q.resolve
    ensures Picks(p, e, f) <==> Picks(q, e, f)
    decreases e, 1
  {
    SameChoice(p, q, e, f);
  }

  lemma {:induction false} SameNames(p: Program, q: Program, value: Expr)
    requires p.resolve == q.resolve
    ensures forall ref :: Names(p, value, ref) <==> Names(q, value, ref)
    ensures Nameable(p, value) <==> Nameable(q, value)
  {
    assert forall ref :: Names(p, value, ref) ==> Names(q, value, ref);
    assert forall ref :: Names(q, value, ref) ==> Names(p, value, ref);
  }

  lemma {:induction false} SamePasses(p: Program, code: Code, f: string, position: nat, value: Expr)
    requires OnlyNulls(p, code) && !IsNull(value)
    ensures PassesTo(More(p, code), f, position, value) <==> PassesTo(p, f, position, value)
  {
    var q := More(p, code);
    forall c, call | 0 <= c < |p.code|
      ensures CallPasses(q, q.code[c], call, f, position, value) <==> CallPasses(p, p.code[c], call, f, position, value)
    {
      if call.Call? { SameChoice(p, q, call.callee, f); }
    }
    forall call ensures !CallPasses(q, code, call, f, position, value) { NullCall(q, code, call, f, position, value); }
  }

  lemma {:induction false} NullCall(q: Program, code: Code, call: Expr, f: string, position: nat, value: Expr)
    requires AllNulls(code.tree) && !IsNull(value)
    ensures !CallPasses(q, code, call, f, position, value)
  {
    if call in Text(code.tree) && call.Call? {
      assert NullsIn(call);
      assert forall x :: x in call.args ==> IsNull(x);
    }
  }

  lemma {:induction false} SameEscapes(p: Program, code: Code, f: string)
    requires OnlyNulls(p, code)
    ensures Escapes(More(p, code), f) <==> Escapes(p, f)
  {
    var q := More(p, code);
    forall e ensures UsesFunction(q, e, f) <==> UsesFunction(p, e, f) {
      assert forall name :: NamedValues(q, name) == NamedValues(p, name);
    }
    if c :| 0 <= c < |p.code| && UsesFunction(p, p.code[c].tree, f) { assert q.code[c] == p.code[c]; }
  }

  lemma {:induction false} SameOpen(p: Program, code: Code, f: string, position: nat)
    requires OnlyNulls(p, code)
    ensures Open(More(p, code), f, position) <==> Open(p, f, position)
  {
    SameEscapes(p, code, f);
    forall value | !IsNull(value)
      ensures PassesTo(More(p, code), f, position, value) <==> PassesTo(p, f, position, value)
      ensures Nameable(More(p, code), value) <==> Nameable(p, value)
    {
      SamePasses(p, code, f, position, value);
      SameNames(p, More(p, code), value);
    }
  }

  lemma {:induction false} SamePassed(p: Program, code: Code, f: string, position: nat, ref: Ref)
    requires OnlyNulls(p, code)
    ensures PassesName(More(p, code), f, position, ref) <==> PassesName(p, f, position, ref)
  {
    forall value | Names(p, value, ref) || Names(More(p, code), value, ref)
      ensures PassesTo(More(p, code), f, position, value) <==> PassesTo(p, f, position, value)
      ensures Names(More(p, code), value, ref) <==> Names(p, value, ref)
    {
      SameNames(p, More(p, code), value);
      NamesLead(p, value);
      SamePasses(p, code, f, position, value);
    }
  }

  lemma {:induction false} SamePuts(p: Program, code: Code, key: Key, c: int, value: Expr)
    requires OnlyNulls(p, code) && (!IsNull(value) || Unwrap(value).Parameter? || Designator(value).Some?)
    ensures PutSomewhere(More(p, code), c, key, value) <==> PutSomewhere(p, c, key, value)
  {
    if Puts(code, key, value) { NullPut(code, key, value); }
  }

  lemma {:induction false} SameCarries(p: Program, code: Code, key: Key, f: string, position: nat)
    requires OnlyNulls(p, code)
    ensures Carries(More(p, code), key, f, position) <==> Carries(p, key, f, position)
  {
    forall c, value | Unwrap(value).Parameter?
      ensures PutSomewhere(More(p, code), c, key, value) <==> PutSomewhere(p, c, key, value)
    {
      SamePuts(p, code, key, c, value);
    }
  }

  lemma {:induction false} SameShown(p: Program, code: Code, key: Key)
    requires OnlyNulls(p, code)
    ensures (exists c :: 0 <= c < |p.code| && (Exposes(p, p.code[c], key) || Overwrites(p.code[c], key)))
            <==> (exists c :: 0 <= c <= |p.code| && (Exposes(More(p, code), More(p, code).code[c], key)
                                                     || Overwrites(More(p, code).code[c], key)))
  {
    var q := More(p, code);
    NullShown(p, code, key);
    assert forall x :: Exposes(q, x, key) <==> Exposes(p, x, key);
    if c :| 0 <= c < |p.code| && (Exposes(p, p.code[c], key) || Overwrites(p.code[c], key)) {
      assert q.code[c] == p.code[c];
    }
  }

  lemma {:induction false} SameDoubt(p: Program, code: Code, key: Key)
    requires OnlyNulls(p, code)
    ensures (exists c, value :: PutSomewhere(p, c, key, value) && Doubtful(p, p.code[c].owner, key, value))
            <==> (exists c, value :: PutSomewhere(More(p, code), c, key, value)
                                     && Doubtful(More(p, code), More(p, code).code[c].owner, key, value))
  {
    var q := More(p, code);
    forall c, value | !IsNull(value)
      ensures PutSomewhere(q, c, key, value) <==> PutSomewhere(p, c, key, value)
      ensures forall owner :: Doubtful(q, owner, key, value) <==> Doubtful(p, owner, key, value)
    {
      SamePuts(p, code, key, c, value);
      SameNames(p, q, value);
    }
  }

  lemma {:induction false} SameGivenUp(p: Program, code: Code, key: Key)
    requires OnlyNulls(p, code)
    ensures GivenUp(More(p, code), key) <==> GivenUp(p, key)
  {
    var q := More(p, code);
    SameShown(p, code, key);
    SameDoubt(p, code, key);
    forall f, position
      ensures Carries(q, key, f, position) <==> Carries(p, key, f, position)
      ensures Open(q, f, position) <==> Open(p, f, position)
    {
      SameCarries(p, code, key, f, position);
      SameOpen(p, code, f, position);
    }
  }

  lemma {:induction false} SameGiven(p: Program, code: Code, key: Key, ref: Ref)
    requires OnlyNulls(p, code)
    ensures Given(More(p, code), key, ref) <==> Given(p, key, ref)
  {
    var q := More(p, code);
    forall c, value | Names(p, value, ref) || Names(q, value, ref)
      ensures PutSomewhere(q, c, key, value) <==> PutSomewhere(p, c, key, value)
      ensures Names(q, value, ref) <==> Names(p, value, ref)
    {
      SameNames(p, q, value);
      SamePuts(p, code, key, c, value);
    }
    forall f, position
      ensures Carries(q, key, f, position) <==> Carries(p, key, f, position)
      ensures PassesName(q, f, position, ref) <==> PassesName(p, f, position, ref)
    {
      SameCarries(p, code, key, f, position);
      SamePassed(p, code, f, position, ref);
    }
  }

  /** Code that stores and passes nothing but nulls changes no slot's answer. */
  lemma {:induction false} NullsAddNothing(p: Program, code: Code, key: Key)
    requires OnlyNulls(p, code)
    ensures Uncertain(Find(More(p, code)), key) <==> Uncertain(Find(p), key)
    ensures forall ref :: CanHold(Find(More(p, code)), key, ref) <==> CanHold(Find(p), key, ref)
  {
    UncertainExactly(p, key);
    UncertainExactly(More(p, code), key);
    SameGivenUp(p, code, key);
    forall ref ensures CanHold(Find(More(p, code)), key, ref) <==> CanHold(Find(p), key, ref) {
      CandidatesExactly(p, key, ref);
      CandidatesExactly(More(p, code), key, ref);
      SameGiven(p, code, key, ref);
    }
  }
}
