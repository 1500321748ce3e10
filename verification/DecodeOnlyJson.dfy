/** Whatever the decoder reads or passes over is one whole JSON value (internal/cproject/decode.go:474-896):
    no other tokens are accepted, and none are left out. */
module DecodeOnlyJson {
  import opened DecodeTree
  import opened DecodeJson

  // ----- one token after another -----

  /** The tokens are those of the value and what is left. */
  predicate Took(st: State, j: Json, after: State) {
    ValueOk(j) && st.tokens == Print(j, after.tokens)
  }

  /** The tokens are those of a value, of more members, of the end of the object and what is left. */
  predicate TookMembers(st: State, value: Json, more: Fields, after: State) {
    ValueOk(value) && FieldsOk(more) && st.tokens == Print(value, PrintMore(more, after.tokens))
  }

  predicate TookItems(st: State, value: Json, more: Elements, after: State) {
    ValueOk(value) && ElementsOk(more) && st.tokens == Print(value, PrintRest(more, after.tokens))
  }

  lemma {:induction false} TookToken(st: State)
    requires st.tokens != [] && IsLeaf(st.tokens[0])
    ensures Took(st, Leaf(st.tokens[0]), Advance(st))
  {
  }

  lemma {:induction false} TookEmpty(st: State, open: Token, close: Token)
    requires Open(st, open, close).Ok? && Open(st, open, close).value
    ensures st.tokens == [open, close] + Open(st, open, close).st.tokens
  {
    assert st.tokens == [open] + ([close] + Advance(Advance(st)).tokens);
  }

  lemma {:induction false} TookObject(st: State, value: Json, more: Fields, after: State)
    requires Open(st, OpenObject, CloseObject).Ok? && !Open(st, OpenObject, CloseObject).value
    requires ReadKey(Open(st, OpenObject, CloseObject).st).Ok?
    requires TookMembers(ReadKey(Open(st, OpenObject, CloseObject).st).st, value, more, after)
    ensures Took(st, Object(Field(ReadKey(Open(st, OpenObject, CloseObject).st).value, value, more)), after)
  {
    var inside := Open(st, OpenObject, CloseObject).st;
    var f := Field(ReadKey(inside).value, value, more);
    TookKey(inside);
    assert inside.tokens == PrintFields(f, after.tokens);
    assert st.tokens == [OpenObject] + inside.tokens;
  }

  lemma {:induction false} TookKey(st: State)
    requires ReadKey(st).Ok?
    ensures st.tokens == [Text(ReadKey(st).value), Colon] + ReadKey(st).st.tokens
  {
  }

  lemma {:induction false} TookList(st: State, value: Json, more: Elements, after: State)
    requires Open(st, OpenList, CloseList).Ok? && !Open(st, OpenList, CloseList).value
    requires TookItems(Open(st, OpenList, CloseList).st, value, more, after)
    ensures Took(st, Array(Element(value, more)), after)
  {
    assert st.tokens == [OpenList] + Open(st, OpenList, CloseList).st.tokens;
  }

  /** The last member. */
  lemma {:induction false} TookLast(st: State, value: Json, at: State)
    requires Took(st, value, at) && More(at, CloseObject).Ok? && !More(at, CloseObject).value
    ensures TookMembers(st, value, NoFields, More(at, CloseObject).st)
  {
    assert at.tokens == [CloseObject] + More(at, CloseObject).st.tokens;
  }

  /** A member and those after it. */
  lemma {:induction false} TookNext(st: State, value: Json, at: State, next: Json, more: Fields, after: State)
    requires Took(st, value, at) && More(at, CloseObject).Ok? && More(at, CloseObject).value
    requires ReadKey(More(at, CloseObject).st).Ok?
    requires TookMembers(ReadKey(More(at, CloseObject).st).st, next, more, after)
    ensures TookMembers(st, value, Field(ReadKey(More(at, CloseObject).st).value, next, more), after)
  {
    var inside := More(at, CloseObject).st;
    var f := Field(ReadKey(inside).value, next, more);
    TookKey(inside);
    assert at.tokens == [Comma] + inside.tokens;
    assert inside.tokens == PrintFields(f, after.tokens);
    assert at.tokens == PrintMore(f, after.tokens);
  }

  lemma {:induction false} TookLastItem(st: State, value: Json, at: State)
    requires Took(st, value, at) && More(at, CloseList).Ok? && !More(at, CloseList).value
    ensures TookItems(st, value, NoElements, More(at, CloseList).st)
  {
    assert at.tokens == [CloseList] + More(at, CloseList).st.tokens;
  }

  lemma {:induction false} TookNextItem(st: State, value: Json, at: State, next: Json, more: Elements, after: State)
    requires Took(st, value, at) && More(at, CloseList).Ok? && More(at, CloseList).value
    requires TookItems(More(at, CloseList).st, next, more, after)
    ensures TookItems(st, value, Element(next, more), after)
  {
    assert at.tokens == [Comma] + More(at, CloseList).st.tokens;
    assert at.tokens == PrintRest(Element(next, more), after.tokens);
  }

  // ----- skipping -----

  lemma {:induction false} SkimTook(st: State) returns (j: Json)
    requires Skim(st).Ok?
    ensures Took(st, j, Skim(st).st)
    decreases |st.tokens|, 2
  {
    if st.tokens[0] == OpenObject { j := SkimTookObject(st); }
    else if st.tokens[0] == OpenList { j := SkimTookList(st); }
    else {
      TookToken(st);
      j := Leaf(st.tokens[0]);
    }
  }

  lemma {:induction false} SkimTookObject(st: State) returns (j: Json)
    requires Skim(st).Ok? && st.tokens[0] == OpenObject
    ensures Took(st, j, Skim(st).st)
    decreases |st.tokens|, 1
  {
    var start := Open(st, OpenObject, CloseObject);
    if start.value {
      TookEmpty(st, OpenObject, CloseObject);
      return Object(NoFields);
    }
    var key := ReadKey(start.st);
    var value, more;
    if key.value.Offset? { value, more := PlaceTook(key.st, key.value, UNSEEN); }
    else { value, more := MembersTook(key.st); }
    TookObject(st, value, more, Skim(st).st);
    j := Object(Field(key.value, value, more));
  }

  lemma {:induction false} MembersTook(st: State) returns (value: Json, more: Fields)
    requires SkimMembers(st).Ok?
    ensures TookMembers(st, value, more, SkimMembers(st).st)
    decreases |st.tokens|, 3
  {
    value := SkimTook(st);
    var at := Skim(st).st;
    var next := More(at, CloseObject);
    if !next.value {
      TookLast(st, value, at);
      more := NoFields;
    } else {
      var key := ReadKey(next.st);
      var v, m := MembersTook(key.st);
      TookNext(st, value, at, v, m, SkimMembers(st).st);
      more := Field(key.value, v, m);
    }
  }

  lemma {:induction false} SkimTookList(st: State) returns (j: Json)
    requires Skim(st).Ok? && st.tokens[0] == OpenList
    ensures Took(st, j, Skim(st).st)
    decreases |st.tokens|, 1
  {
    var start := Open(st, OpenList, CloseList);
    if start.value {
      TookEmpty(st, OpenList, CloseList);
      return Array(NoElements);
    }
    var value, more := ItemsTook(start.st);
    TookList(st, value, more, Skim(st).st);
    j := Array(Element(value, more));
  }

  lemma {:induction false} ItemsTook(st: State) returns (value: Json, more: Elements)
    requires SkimItems(st).Ok?
    ensures TookItems(st, value, more, SkimItems(st).st)
    decreases |st.tokens|, 3
  {
    value := SkimTook(st);
    var at := Skim(st).st;
    var next := More(at, CloseList);
    if !next.value {
      TookLastItem(st, value, at);
      more := NoElements;
    } else {
      var v, m := ItemsTook(next.st);
      TookNextItem(st, value, at, v, m, SkimItems(st).st);
      more := Element(v, m);
    }
  }

  lemma {:induction false} PlaceFieldTook(st: State, key: Word, seen: Seen) returns (j: Json)
    requires BareField(st, key, seen).Ok?
    ensures Took(st, j, BareField(st, key, seen).st)
    decreases |st.tokens|, 3
  {
    if key.Offset? || key.File? || key.Line? || key.Col? || key.TokLen? || key.MacroArg? {
      TookToken(st);
      j := Leaf(st.tokens[0]);
    } else {
      j := SkimTook(st);
    }
  }

  lemma {:induction false} PlaceTook(st: State, key: Word, seen: Seen) returns (value: Json, more: Fields)
    requires BareRest(st, key, seen).Ok?
    ensures TookMembers(st, value, more, BareRest(st, key, seen).st)
    decreases |st.tokens|, 4
  {
    value := PlaceFieldTook(st, key, seen);
    var field := BareField(st, key, seen);
    var next := More(field.st, CloseObject);
    if !next.value {
      TookLast(st, value, field.st);
      more := NoFields;
    } else {
      var k := ReadKey(next.st);
      var v, m := PlaceTook(k.st, k.value, field.value);
      TookNext(st, value, field.st, v, m, BareRest(st, key, seen).st);
      more := Field(k.value, v, m);
    }
  }

  // ----- reading -----

  lemma {:induction false} LocationTook(st: State) returns (j: Json)
    requires Location(st).Ok?
    ensures Took(st, j, Location(st).st)
  {
    LocationFollows(st);
    j := SkimTook(st);
  }

  lemma {:induction false} RangeFieldTook(st: State, key: Word, range: (Loc, Loc)) returns (j: Json)
    requires RangeField(st, key, range).Ok?
    ensures Took(st, j, RangeField(st, key, range).st)
  {
    if key.Begin? || key.End? { j := LocationTook(st); } else { j := SkimTook(st); }
  }

  lemma {:induction false} RangeMembersTook(st: State, key: Word, range: (Loc, Loc)) returns (value: Json, more: Fields)
    requires RangeMembers(st, key, range).Ok?
    ensures TookMembers(st, value, more, RangeMembers(st, key, range).st)
    decreases |st.tokens|
  {
    value := RangeFieldTook(st, key, range);
    var field := RangeField(st, key, range);
    var next := More(field.st, CloseObject);
    if !next.value {
      TookLast(st, value, field.st);
      more := NoFields;
    } else {
      var k := ReadKey(next.st);
      var v, m := RangeMembersTook(k.st, k.value, field.value);
      TookNext(st, value, field.st, v, m, RangeMembers(st, key, range).st);
      more := Field(k.value, v, m);
    }
  }

  /** The key an object that is no location begins with, and where its value stands. */
  lemma {:induction false} TookFirst(st: State, value: Json, more: Fields, at: State, after: State)
    requires Open(st, OpenObject, CloseObject).Ok? && !Open(st, OpenObject, CloseObject).value
    requires FirstKey(Open(st, OpenObject, CloseObject).st).Ok?
    requires at.tokens == FirstKey(Open(st, OpenObject, CloseObject).st).st.tokens
    requires TookMembers(at, value, more, after)
    ensures Took(st, Object(Field(FirstKey(Open(st, OpenObject, CloseObject).st).value, value, more)), after)
  {
    TookObject(st, value, more, after);
  }

  lemma {:induction false} RangeTook(st: State) returns (j: Json)
    requires SourceRange(st).Ok?
    ensures Took(st, j, SourceRange(st).st)
  {
    var start := Open(st, OpenObject, CloseObject);
    if start.value {
      TookEmpty(st, OpenObject, CloseObject);
      return Object(NoFields);
    }
    var key := FirstKey(start.st);
    var value, more := RangeMembersTook(key.st, key.value, (NO_LOC, NO_LOC));
    TookFirst(st, value, more, key.st, SourceRange(st).st);
    j := Object(Field(key.value, value, more));
  }

  lemma {:induction false} PlainFieldTook(st: State, key: Word, shape: Shape) returns (j: Json)
    requires PlainField(st, key, shape).Ok?
    ensures Took(st, j, PlainField(st, key, shape).st)
    decreases |st.tokens|, Depth(shape), 0
  {
    if NeedsText(key, shape) {
      TookToken(st);
      j := Leaf(st.tokens[0]);
    }
    else if shape.RefShape? && key.TypeKey? { j := PlainTook(st, TypeShape); }
    else { j := SkimTook(st); }
  }

  lemma {:induction false} PlainMembersTook(st: State, key: Word, shape: Shape) returns (value: Json, more: Fields)
    requires PlainMembers(st, key, shape).Ok?
    ensures TookMembers(st, value, more, PlainMembers(st, key, shape).st)
    decreases |st.tokens|, Depth(shape), 1
  {
    value := PlainFieldTook(st, key, shape);
    var field := PlainField(st, key, shape);
    var next := More(field.st, CloseObject);
    if !next.value {
      TookLast(st, value, field.st);
      more := NoFields;
    } else {
      var k := ReadKey(next.st);
      var v, m := PlainMembersTook(k.st, k.value, shape);
      TookNext(st, value, field.st, v, m, PlainMembers(st, key, shape).st);
      more := Field(k.value, v, m);
    }
  }

  lemma {:induction false} PlainTook(st: State, shape: Shape) returns (j: Json)
    requires Plain(st, shape).Ok?
    ensures Took(st, j, Plain(st, shape).st)
    decreases |st.tokens|, Depth(shape), 2
  {
    var start := Open(st, OpenObject, CloseObject);
    if start.value {
      TookEmpty(st, OpenObject, CloseObject);
      return Object(NoFields);
    }
    var key := FirstKey(start.st);
    var value, more := PlainMembersTook(key.st, key.value, shape);
    TookFirst(st, value, more, key.st, Plain(st, shape).st);
    j := Object(Field(key.value, value, more));
  }

  lemma {:induction false} MemberTook(st: State, key: Word, partial: Partial, mode: Mode) returns (j: Json)
    requires NodeField(st, key, partial, mode).Ok?
    ensures Took(st, j, NodeField(st, key, partial, mode).st)
    decreases |st.tokens|, 4
  {
    if Listed(key) { j := ChildrenTook(st, partial.node, key.Filler?, Decide(partial, mode).keep.value); }
    else if PlainMember(key).Some? || key.Implicit? {
      TookToken(st);
      j := Leaf(st.tokens[0]);
    }
    else if key.LocKey? { j := LocationTook(st); }
    else if key.RangeKey? { j := RangeTook(st); }
    else if key.TypeKey? { j := PlainTook(st, TypeShape); }
    else if key.RefKey? { j := PlainTook(st, RefShape); }
    else { j := SkimTook(st); }
  }

  lemma {:induction false} NodeMembersTook(st: State, key: Word, partial: Partial, mode: Mode)
    returns (value: Json, more: Fields)
    requires NodeMembers(st, key, partial, mode).Ok?
    ensures TookMembers(st, value, more, NodeMembers(st, key, partial, mode).st)
    decreases |st.tokens|, 5
  {
    value := MemberTook(st, key, partial, mode);
    var field := NodeField(st, key, partial, mode);
    var next := More(field.st, CloseObject);
    if !next.value {
      TookLast(st, value, field.st);
      more := NoFields;
    } else {
      var k := ReadKey(next.st);
      var v, m := NodeMembersTook(k.st, k.value, field.value, mode);
      TookNext(st, value, field.st, v, m, NodeMembers(st, key, partial, mode).st);
      more := Field(k.value, v, m);
    }
  }

  lemma {:induction false} ChildrenTook(st: State, node: Node, filler: bool, keep: bool) returns (j: Json)
    requires Children(st, node, filler, keep).Ok?
    ensures Took(st, j, Children(st, node, filler, keep).st)
    decreases |st.tokens|, 3
  {
    var start := Open(st, OpenList, CloseList);
    if start.value {
      TookEmpty(st, OpenList, CloseList);
      return Array(NoElements);
    }
    var value, more := ChildItemsTook(start.st, node, filler, keep);
    TookList(st, value, more, Children(st, node, filler, keep).st);
    j := Array(Element(value, more));
  }

  lemma {:induction false} ChildItemsTook(st: State, node: Node, filler: bool, keep: bool)
    returns (value: Json, more: Elements)
    requires Items(st, node, filler, keep).Ok?
    ensures TookItems(st, value, more, Items(st, node, filler, keep).st)
    decreases |st.tokens|, 4
  {
    if keep { value := NodeTook(st, Below); } else { value := SkimTook(st); }
    var item := Item(st, node, filler, keep);
    var next := More(item.st, CloseList);
    if !next.value {
      TookLastItem(st, value, item.st);
      more := NoElements;
    } else {
      var v, m := ChildItemsTook(next.st, item.value, false, keep);
      TookNextItem(st, value, item.st, v, m, Items(st, node, filler, keep).st);
      more := Element(v, m);
    }
  }

  lemma {:induction false} NodeTook(st: State, mode: Mode) returns (j: Json)
    requires ReadNode(st, mode).Ok?
    ensures Took(st, j, ReadNode(st, mode).st)
    decreases |st.tokens|, 2
  {
    var start := Open(st, OpenObject, CloseObject);
    if start.value {
      TookEmpty(st, OpenObject, CloseObject);
      return Object(NoFields);
    }
    var key := FirstKey(start.st);
    var value, more := NodeMembersTook(key.st, key.value, Partial(EMPTY, None), mode);
    TookFirst(st, value, more, key.st, ReadNode(st, mode).st);
    j := Object(Field(key.value, value, more));
  }

  /** A node is read exactly where one whole value stands that says a node; what is read is what it says,
      and what is left is what follows it. */
  lemma {:induction false} NodeExactly(st: State, mode: Mode, node: Node, after: State)
    ensures ReadNode(st, mode) == Ok(node, after) <==>
            exists j :: ValueOk(j) && st.tokens == Print(j, after.tokens)
                        && NodeIn(j, Memory(st.file, st.line, st.misread), mode)
                           == Got(node, Memory(after.file, after.line, after.misread))
  {
    var m := Memory(st.file, st.line, st.misread);
    assert st == On(m, st.tokens) && after == On(Memory(after.file, after.line, after.misread), after.tokens);
    if ReadNode(st, mode) == Ok(node, after) {
      var j := NodeTook(st, mode);
      ReadNodeIs(j, m, mode, after.tokens);
      assert NodeIn(j, m, mode) == Got(node, Memory(after.file, after.line, after.misread));
    } else if j :| ValueOk(j) && st.tokens == Print(j, after.tokens)
                   && NodeIn(j, m, mode) == Got(node, Memory(after.file, after.line, after.misread)) {
      ReadNodeIs(j, m, mode, after.tokens);
    }
  }
}
