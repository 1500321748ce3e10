/** What the decoder makes of a JSON value, said on the value itself instead of its tokens
    (internal/cproject/decode.go:474-896): the places in it are followed in order, known members are
    read, and everything else is passed over. */
module DecodeJson {
  import opened DecodeTree

  // ----- JSON -----

  datatype Json = Object(fields: Fields) | Array(elements: Elements) | Leaf(token: Token)

  datatype Fields = NoFields | Field(key: Word, value: Json, more: Fields)

  datatype Elements = NoElements | Element(value: Json, more: Elements)

  predicate IsLeaf(t: Token) {
    t.Text? || t.Number? || t.Bool? || t.Null?
  }

  predicate ValueOk(j: Json) {
    match j
    case Leaf(t) => IsLeaf(t)
    case Object(fields) => FieldsOk(fields)
    case Array(elements) => ElementsOk(elements)
  }

  predicate FieldsOk(f: Fields) {
    f.Field? ==> ValueOk(f.value) && FieldsOk(f.more)
  }

  predicate ElementsOk(e: Elements) {
    e.Element? ==> ValueOk(e.value) && ElementsOk(e.more)
  }

  // ----- its tokens, in front of what follows -----

  function Print(j: Json, tail: seq<Token>): seq<Token>
    decreases j, 0
  {
    match j
    case Leaf(t) => [t] + tail
    case Object(NoFields) => [OpenObject, CloseObject] + tail
    case Object(fields) => [OpenObject] + PrintFields(fields, tail)
    case Array(NoElements) => [OpenList, CloseList] + tail
    case Array(elements) => [OpenList] + PrintElements(elements, tail)
  }

  /** From a key on. */
  function PrintFields(f: Fields, tail: seq<Token>): seq<Token>
    requires f.Field?
    decreases f, 1
  {
    [Text(f.key), Colon] + PrintValue(f, tail)
  }

  /** From the value of the first field on. */
  function PrintValue(f: Fields, tail: seq<Token>): seq<Token>
    requires f.Field?
    decreases f, 0
  {
    Print(f.value, PrintMore(f.more, tail))
  }

  /** From behind a value on. */
  function PrintMore(f: Fields, tail: seq<Token>): seq<Token>
    decreases f, 2
  {
    if f.NoFields? then [CloseObject] + tail else [Comma] + PrintFields(f, tail)
  }

  function PrintElements(e: Elements, tail: seq<Token>): seq<Token>
    requires e.Element?
    decreases e, 0
  {
    Print(e.value, PrintRest(e.more, tail))
  }

  function PrintRest(e: Elements, tail: seq<Token>): seq<Token>
    decreases e, 1
  {
    if e.NoElements? then [CloseList] + tail else [Comma] + PrintElements(e, tail)
  }

  // ----- what the decoder remembers -----

  /** The file and the line printed last, and whether an object was misread. */
  datatype Memory = Memory(file: Word, line: int, misread: bool)

  datatype Got<+T> = Got(value: T, memory: Memory) | Lost

  function On(m: Memory, tokens: seq<Token>): State {
    State(tokens, m.file, m.line, m.misread)
  }

  /** The outcome with this input left. */
  function Left<T>(g: Got<T>, tail: seq<Token>): Out<T> {
    match g
    case Lost => Fail
    case Got(value, memory) => Ok(value, On(memory, tail))
  }

  // ----- passing over a value -----

  /** Every place in the value is followed, in order. */
  function Passed(j: Json, m: Memory): Got<()>
    decreases j, 0
  {
    match j
    case Leaf(_) => Got((), m)
    case Array(elements) => PassedElements(elements, m)
    case Object(fields) =>
      if fields.Field? && fields.key.Offset? then
        match PlaceIn(fields, m, UNSEEN)
        case Lost => Lost
        case Got(_, after) => Got((), after)
      else PassedFields(fields, m)
  }

  function PassedFields(f: Fields, m: Memory): Got<()>
    decreases f, 1
  {
    if f.NoFields? then Got((), m)
    else match Passed(f.value, m) case Lost => Lost case Got(_, after) => PassedFields(f.more, after)
  }

  function PassedElements(e: Elements, m: Memory): Got<()>
    decreases e, 1
  {
    if e.NoElements? then Got((), m)
    else match Passed(e.value, m) case Lost => Lost case Got(_, after) => PassedElements(e.more, after)
  }

  // ----- places -----

  function IntOf(j: Json): Option<int> {
    if j.Leaf? && j.token.Number? then j.token.n else None
  }

  function TextOf(j: Json): Option<Word> {
    if j.Leaf? && j.token.Text? then Some(j.token.word) else None
  }

  function BoolOf(j: Json): Option<bool> {
    if j.Leaf? && j.token.Bool? then Some(j.token.b) else None
  }

  /** One member of a place. */
  function PlaceField(key: Word, value: Json, m: Memory, seen: Seen): Got<Seen>
    decreases value, 1
  {
    match key
    case File => if TextOf(value).Some? then Got(seen.(file := TextOf(value)), m) else Lost
    case MacroArg => if BoolOf(value).Some? then Got(seen.(macroArg := BoolOf(value).value), m) else Lost
    case Offset => if IntOf(value).Some? then Got(WithInt(seen, key, IntOf(value).value), m) else Lost
    case Line => if IntOf(value).Some? then Got(WithInt(seen, key, IntOf(value).value), m) else Lost
    case Col => if IntOf(value).Some? then Got(WithInt(seen, key, IntOf(value).value), m) else Lost
    case TokLen => if IntOf(value).Some? then Got(WithInt(seen, key, IntOf(value).value), m) else Lost
    case _ => match Passed(value, m) case Lost => Lost case Got(_, after) => Got(seen, after)
  }

  function WithInt(seen: Seen, key: Word, n: int): Seen {
    match key
    case Offset => seen.(position := seen.position.(offset := n))
    case Line => seen.(position := seen.position.(line := n), line := true)
    case Col => seen.(position := seen.position.(col := n))
    case TokLen => seen.(position := seen.position.(tokLen := n))
    case _ => seen
  }

  /** The members of a place; what it does not tell is as it was. */
  function PlaceIn(f: Fields, m: Memory, seen: Seen): Got<Seen>
    decreases f, 1
  {
    if f.NoFields? then
      var file := if seen.file.Some? then seen.file.value else m.file;
      var line := if seen.line then seen.position.line else m.line;
      Got(seen.(position := seen.position.(file := file, line := line)), Memory(file, line, m.misread))
    else
      match PlaceField(f.key, f.value, m, seen)
      case Lost => Lost
      case Got(now, after) => PlaceIn(f.more, after, now)
  }

  predicate IsPlace(j: Json) {
    j.Object? && j.fields.Field? && j.fields.key.Offset?
  }

  /** A place, or an object with nothing to tell. */
  function Bared(j: Json, m: Memory): Got<Seen> {
    if !j.Object? then Lost
    else if IsPlace(j) then PlaceIn(j.fields, m, UNSEEN)
    else match Passed(j, m) case Lost => Lost case Got(_, after) => Got(UNSEEN, after)
  }

  /** Where something is written and where it is expanded: one place or two. */
  function Located(j: Json, m: Memory): Got<Loc> {
    if !j.Object? then Lost
    else if IsPlace(j) then
      match PlaceIn(j.fields, m, UNSEEN)
      case Lost => Lost
      case Got(seen, after) => Got(Loc(seen.position, seen.position, false), after)
    else LocatedIn(j.fields, m, NO_LOC)
  }

  function LocatedIn(f: Fields, m: Memory, loc: Loc): Got<Loc> {
    if f.NoFields? then Got(loc, m)
    else
      match LocatedField(f.key, f.value, m, loc)
      case Lost => Lost
      case Got(now, after) => LocatedIn(f.more, after, now)
  }

  function LocatedField(key: Word, value: Json, m: Memory, loc: Loc): Got<Loc> {
    if !key.Spelling? && !key.Expansion? then
      match Passed(value, m) case Lost => Lost case Got(_, after) => Got(loc, after)
    else
      match Bared(value, m)
      case Lost => Lost
      case Got(seen, after) => Got(if key.Spelling? then loc.(spelling := seen.position)
        else loc.(expansion := seen.position, macroArg := seen.macroArg), after)
  }

  // ----- the tokens of a value, taken one by one -----

  lemma {:induction false} OpensObject(m: Memory, f: Fields, tail: seq<Token>)
    requires f.Field?
    ensures Open(On(m, [OpenObject] + PrintFields(f, tail)), OpenObject, CloseObject)
            == Ok(false, On(m, PrintFields(f, tail)))
  {
    assert ([OpenObject] + PrintFields(f, tail))[1..] == PrintFields(f, tail);
  }

  lemma {:induction false} OpensEmpty(m: Memory, open: Token, close: Token, tail: seq<Token>)
    ensures Open(On(m, [open, close] + tail), open, close) == Ok(true, On(m, tail))
  {
    assert ([open, close] + tail)[1..] == [close] + tail && ([close] + tail)[1..] == tail;
  }

  lemma {:induction false} KeyReads(m: Memory, f: Fields, tail: seq<Token>)
    requires f.Field?
    ensures ReadKey(On(m, PrintFields(f, tail))) == Ok(f.key, On(m, PrintValue(f, tail)))
  {
    var tokens, rest := PrintFields(f, tail), PrintValue(f, tail);
    assert tokens[1..] == [Colon] + rest && ([Colon] + rest)[1..] == rest;
  }

  lemma {:induction false} MoreFields(m: Memory, f: Fields, tail: seq<Token>)
    ensures More(On(m, PrintMore(f, tail)), CloseObject)
            == if f.NoFields? then Ok(false, On(m, tail)) else Ok(true, On(m, PrintFields(f, tail)))
  {
    if f.NoFields? { assert ([CloseObject] + tail)[1..] == tail; }
    else { assert ([Comma] + PrintFields(f, tail))[1..] == PrintFields(f, tail); }
  }

  lemma {:induction false} MoreElements(m: Memory, e: Elements, tail: seq<Token>)
    ensures More(On(m, PrintRest(e, tail)), CloseList)
            == if e.NoElements? then Ok(false, On(m, tail)) else Ok(true, On(m, PrintElements(e, tail)))
  {
    if e.NoElements? { assert ([CloseList] + tail)[1..] == tail; }
    else { assert ([Comma] + PrintElements(e, tail))[1..] == PrintElements(e, tail); }
  }

  lemma {:induction false} LeafStep(m: Memory, t: Token, tail: seq<Token>)
    ensures Advance(On(m, [t] + tail)) == On(m, tail)
  {
    assert ([t] + tail)[1..] == tail;
  }

  lemma {:induction false} OpensList(m: Memory, e: Elements, tail: seq<Token>)
    requires e.Element? && ValueOk(e.value)
    ensures Open(On(m, [OpenList] + PrintElements(e, tail)), OpenList, CloseList)
            == Ok(false, On(m, PrintElements(e, tail)))
  {
    assert ([OpenList] + PrintElements(e, tail))[1..] == PrintElements(e, tail);
    FirstToken(e.value, PrintRest(e.more, tail));
  }

  /** A value begins with no closing token. */
  lemma {:induction false} FirstToken(j: Json, tail: seq<Token>)
    requires ValueOk(j)
    ensures Print(j, tail) != [] && (IsLeaf(Print(j, tail)[0]) || Print(j, tail)[0] == OpenObject
                                     || Print(j, tail)[0] == OpenList)
  {
  }

  // ----- skipping -----

  /** Skipping the tokens of a value is passing over the value. */
  lemma {:induction false} SkimIs(j: Json, m: Memory, tail: seq<Token>)
    requires ValueOk(j)
    ensures Skim(On(m, Print(j, tail))) == Left(Passed(j, m), tail)
    decreases j, 2
  {
    match j
    case Leaf(t) => LeafStep(m, t, tail);
    case Object(fields) => SkimObject(fields, m, tail);
    case Array(elements) => SkimArray(elements, m, tail);
  }

  lemma {:induction false} SkimObject(f: Fields, m: Memory, tail: seq<Token>)
    requires FieldsOk(f)
    ensures Skim(On(m, Print(Object(f), tail))) == Left(Passed(Object(f), m), tail)
    decreases f, 4
  {
    if f.NoFields? { OpensEmpty(m, OpenObject, CloseObject, tail); }
    else {
      OpensObject(m, f, tail);
      KeyReads(m, f, tail);
      if f.key.Offset? { PlaceIs(f, m, UNSEEN, tail); } else { MembersIs(f, m, tail); }
    }
  }

  lemma {:induction false} MembersIs(f: Fields, m: Memory, tail: seq<Token>)
    requires FieldsOk(f) && f.Field?
    ensures SkimMembers(On(m, PrintValue(f, tail))) == Left(PassedFields(f, m), tail)
    decreases f, 3
  {
    SkimIs(f.value, m, PrintMore(f.more, tail));
    if Passed(f.value, m).Got? {
      var after := Passed(f.value, m).memory;
      MoreFields(after, f.more, tail);
      if f.more.Field? {
        KeyReads(after, f.more, tail);
        MembersIs(f.more, after, tail);
      }
    }
  }

  lemma {:induction false} SkimArray(e: Elements, m: Memory, tail: seq<Token>)
    requires ElementsOk(e)
    ensures Skim(On(m, Print(Array(e), tail))) == Left(Passed(Array(e), m), tail)
    decreases e, 4
  {
    if e.NoElements? { OpensEmpty(m, OpenList, CloseList, tail); }
    else {
      OpensList(m, e, tail);
      ElementsIs(e, m, tail);
    }
  }

  lemma {:induction false} ElementsIs(e: Elements, m: Memory, tail: seq<Token>)
    requires ElementsOk(e) && e.Element?
    ensures SkimItems(On(m, PrintElements(e, tail))) == Left(PassedElements(e, m), tail)
    decreases e, 3
  {
    SkimIs(e.value, m, PrintRest(e.more, tail));
    if Passed(e.value, m).Got? {
      var after := Passed(e.value, m).memory;
      MoreElements(after, e.more, tail);
      if e.more.Element? { ElementsIs(e.more, after, tail); }
    }
  }

  lemma {:induction false} ReadIntIs(j: Json, m: Memory, tail: seq<Token>)
    requires ValueOk(j)
    ensures ReadInt(On(m, Print(j, tail))) == if IntOf(j).Some? then Ok(IntOf(j).value, On(m, tail)) else Fail
  {
    FirstToken(j, tail);
    if j.Leaf? { LeafStep(m, j.token, tail); }
  }

  lemma {:induction false} ReadTextIs(j: Json, m: Memory, tail: seq<Token>)
    requires ValueOk(j)
    ensures ReadText(On(m, Print(j, tail))) == if TextOf(j).Some? then Ok(TextOf(j).value, On(m, tail)) else Fail
  {
    FirstToken(j, tail);
    if j.Leaf? { LeafStep(m, j.token, tail); }
  }

  lemma {:induction false} ReadBoolIs(j: Json, m: Memory, tail: seq<Token>)
    requires ValueOk(j)
    ensures ReadBool(On(m, Print(j, tail))) == if BoolOf(j).Some? then Ok(BoolOf(j).value, On(m, tail)) else Fail
  {
    FirstToken(j, tail);
    if j.Leaf? { LeafStep(m, j.token, tail); }
  }

  lemma {:induction false} PlaceFieldIs(key: Word, j: Json, m: Memory, seen: Seen, tail: seq<Token>)
    requires ValueOk(j)
    ensures BareField(On(m, Print(j, tail)), key, seen) == Left(PlaceField(key, j, m, seen), tail)
    decreases j, 3
  {
    match key
    case File => ReadTextIs(j, m, tail);
    case MacroArg => ReadBoolIs(j, m, tail);
    case Offset => ReadIntIs(j, m, tail);
    case Line => ReadIntIs(j, m, tail);
    case Col => ReadIntIs(j, m, tail);
    case TokLen => ReadIntIs(j, m, tail);
    case _ => SkimIs(j, m, tail);
  }

  lemma {:induction false} PlaceIs(f: Fields, m: Memory, seen: Seen, tail: seq<Token>)
    requires FieldsOk(f) && f.Field?
    ensures BareRest(On(m, PrintValue(f, tail)), f.key, seen) == Left(PlaceIn(f, m, seen), tail)
    decreases f, 3
  {
    PlaceFieldIs(f.key, f.value, m, seen, PrintMore(f.more, tail));
    var got := PlaceField(f.key, f.value, m, seen);
    if got.Got? {
      MoreFields(got.memory, f.more, tail);
      if f.more.Field? {
        KeyReads(got.memory, f.more, tail);
        PlaceIs(f.more, got.memory, got.value, tail);
      }
    }
  }

  // ----- locations -----

  lemma {:induction false} NotObject(j: Json, m: Memory, tail: seq<Token>)
    requires ValueOk(j) && !j.Object?
    ensures Open(On(m, Print(j, tail)), OpenObject, CloseObject) == Fail
  {
    FirstToken(j, tail);
  }

  lemma {:induction false} BareIs(j: Json, m: Memory, tail: seq<Token>)
    requires ValueOk(j)
    ensures Bare(On(m, Print(j, tail))) == Left(Bared(j, m), tail)
  {
    if !j.Object? { NotObject(j, m, tail); }
    else if j.fields.NoFields? { OpensEmpty(m, OpenObject, CloseObject, tail); }
    else {
      OpensObject(m, j.fields, tail);
      KeyReads(m, j.fields, tail);
      if IsPlace(j) { PlaceIs(j.fields, m, UNSEEN, tail); } else { MembersIs(j.fields, m, tail); }
    }
  }

  lemma {:induction false} LocatedFieldIs(key: Word, j: Json, m: Memory, loc: Loc, tail: seq<Token>)
    requires ValueOk(j)
    ensures LocationField(On(m, Print(j, tail)), key, loc) == Left(LocatedField(key, j, m, loc), tail)
  {
    if key.Spelling? || key.Expansion? { BareIs(j, m, tail); } else { SkimIs(j, m, tail); }
  }

  lemma {:induction false} LocatedInIs(f: Fields, m: Memory, loc: Loc, tail: seq<Token>)
    requires FieldsOk(f) && f.Field?
    ensures LocationMembers(On(m, PrintValue(f, tail)), f.key, loc) == Left(LocatedIn(f, m, loc), tail)
    decreases f
  {
    LocatedFieldIs(f.key, f.value, m, loc, PrintMore(f.more, tail));
    var got := LocatedField(f.key, f.value, m, loc);
    if got.Got? {
      MoreFields(got.memory, f.more, tail);
      if f.more.Field? {
        KeyReads(got.memory, f.more, tail);
        LocatedInIs(f.more, got.memory, got.value, tail);
      }
    }
  }

  lemma {:induction false} LocationIs(j: Json, m: Memory, tail: seq<Token>)
    requires ValueOk(j)
    ensures Location(On(m, Print(j, tail))) == Left(Located(j, m), tail)
  {
    if !j.Object? { NotObject(j, m, tail); }
    else if j.fields.NoFields? { OpensEmpty(m, OpenObject, CloseObject, tail); }
    else {
      OpensObject(m, j.fields, tail);
      KeyReads(m, j.fields, tail);
      if IsPlace(j) { PlaceIs(j.fields, m, UNSEEN, tail); } else { LocatedInIs(j.fields, m, NO_LOC, tail); }
    }
  }

  // ----- ranges, types and references -----

  /** An object that is no place but begins like one is not followed as one. */
  function Misread(j: Json, m: Memory): Memory {
    if IsPlace(j) then m.(misread := true) else m
  }

  function Ranged(j: Json, m: Memory): Got<(Loc, Loc)> {
    if j.Object? then RangedIn(j.fields, Misread(j, m), (NO_LOC, NO_LOC)) else Lost
  }

  function RangedIn(f: Fields, m: Memory, range: (Loc, Loc)): Got<(Loc, Loc)> {
    if f.NoFields? then Got(range, m)
    else
      match RangedField(f.key, f.value, m, range)
      case Lost => Lost
      case Got(now, after) => RangedIn(f.more, after, now)
  }

  function RangedField(key: Word, value: Json, m: Memory, range: (Loc, Loc)): Got<(Loc, Loc)> {
    if !key.Begin? && !key.End? then
      match Passed(value, m) case Lost => Lost case Got(_, after) => Got(range, after)
    else
      match Located(value, m)
      case Lost => Lost
      case Got(loc, after) => Got(if key.Begin? then (loc, range.1) else (range.0, loc), after)
  }

  /** A member of a type or a reference that has to be text. */
  predicate NeedsText(key: Word, shape: Shape) {
    match shape
    case TypeShape => key.QualType? || key.Desugared?
    case RefShape => key.Id? || key.Kind? || key.Name?
  }

  function Described(j: Json, m: Memory, shape: Shape): Got<()>
    decreases j, 1
  {
    if j.Object? then DescribedIn(j.fields, Misread(j, m), shape) else Lost
  }

  function DescribedIn(f: Fields, m: Memory, shape: Shape): Got<()>
    decreases f, 0
  {
    if f.NoFields? then Got((), m)
    else
      match DescribedField(f.key, f.value, m, shape)
      case Lost => Lost
      case Got(_, after) => DescribedIn(f.more, after, shape)
  }

  function DescribedField(key: Word, value: Json, m: Memory, shape: Shape): Got<()>
    decreases value, 2
  {
    if NeedsText(key, shape) then if TextOf(value).Some? then Got((), m) else Lost
    else if shape.RefShape? && key.TypeKey? then Described(value, m, TypeShape)
    else Passed(value, m)
  }

  lemma {:induction false} FirstKeyIs(f: Fields, m: Memory, tail: seq<Token>)
    requires f.Field?
    ensures FirstKey(On(m, PrintFields(f, tail))) == Ok(f.key, On(Misread(Object(f), m), PrintValue(f, tail)))
  {
    KeyReads(m, f, tail);
  }

  lemma {:induction false} RangedFieldIs(key: Word, j: Json, m: Memory, range: (Loc, Loc), tail: seq<Token>)
    requires ValueOk(j)
    ensures RangeField(On(m, Print(j, tail)), key, range) == Left(RangedField(key, j, m, range), tail)
  {
    if key.Begin? || key.End? { LocationIs(j, m, tail); } else { SkimIs(j, m, tail); }
  }

  lemma {:induction false} RangedInIs(f: Fields, m: Memory, range: (Loc, Loc), tail: seq<Token>)
    requires FieldsOk(f) && f.Field?
    ensures RangeMembers(On(m, PrintValue(f, tail)), f.key, range) == Left(RangedIn(f, m, range), tail)
    decreases f
  {
    RangedFieldIs(f.key, f.value, m, range, PrintMore(f.more, tail));
    var got := RangedField(f.key, f.value, m, range);
    if got.Got? {
      MoreFields(got.memory, f.more, tail);
      if f.more.Field? {
        KeyReads(got.memory, f.more, tail);
        RangedInIs(f.more, got.memory, got.value, tail);
      }
    }
  }

  lemma {:induction false} RangeIs(j: Json, m: Memory, tail: seq<Token>)
    requires ValueOk(j)
    ensures SourceRange(On(m, Print(j, tail))) == Left(Ranged(j, m), tail)
  {
    if !j.Object? { NotObject(j, m, tail); }
    else if j.fields.NoFields? { OpensEmpty(m, OpenObject, CloseObject, tail); }
    else {
      OpensObject(m, j.fields, tail);
      FirstKeyIs(j.fields, m, tail);
      RangedInIs(j.fields, Misread(j, m), (NO_LOC, NO_LOC), tail);
    }
  }

  lemma {:induction false} DescribedFieldIs(key: Word, j: Json, m: Memory, shape: Shape, tail: seq<Token>)
    requires ValueOk(j)
    ensures PlainField(On(m, Print(j, tail)), key, shape) == Left(DescribedField(key, j, m, shape), tail)
    decreases j, 2
  {
    if NeedsText(key, shape) { ReadTextIs(j, m, tail); }
    else if shape.RefShape? && key.TypeKey? { PlainIs(j, m, TypeShape, tail); }
    else { SkimIs(j, m, tail); }
  }

  lemma {:induction false} DescribedInIs(f: Fields, m: Memory, shape: Shape, tail: seq<Token>)
    requires FieldsOk(f) && f.Field?
    ensures PlainMembers(On(m, PrintValue(f, tail)), f.key, shape) == Left(DescribedIn(f, m, shape), tail)
    decreases f, 0
  {
    DescribedFieldIs(f.key, f.value, m, shape, PrintMore(f.more, tail));
    var got := DescribedField(f.key, f.value, m, shape);
    if got.Got? {
      MoreFields(got.memory, f.more, tail);
      if f.more.Field? {
        KeyReads(got.memory, f.more, tail);
        DescribedInIs(f.more, got.memory, shape, tail);
      }
    }
  }

  lemma {:induction false} PlainIs(j: Json, m: Memory, shape: Shape, tail: seq<Token>)
    requires ValueOk(j)
    ensures Plain(On(m, Print(j, tail)), shape) == Left(Described(j, m, shape), tail)
    decreases j, 1
  {
    if !j.Object? { NotObject(j, m, tail); }
    else if j.fields.NoFields? { OpensEmpty(m, OpenObject, CloseObject, tail); }
    else {
      OpensObject(m, j.fields, tail);
      FirstKeyIs(j.fields, m, tail);
      DescribedInIs(j.fields, Misread(j, m), shape, tail);
    }
  }

  // ----- nodes -----

  /** Below the top every child is kept; a top-level node's are if it stands in the repository and was
      written there. */
  predicate OwnNode(mode: Mode, node: Node) {
    match mode
    case Below => true
    case Top(corpus) => !node.implicit && node.loc.expansion.file in corpus
  }

  /** The first list of children settles whether they are kept. */
  function KeepNow(partial: Partial, mode: Mode): bool {
    if partial.keep.Some? then partial.keep.value else OwnNode(mode, partial.node)
  }

  function NodeIn(j: Json, m: Memory, mode: Mode): Got<Node>
    decreases j, 0
  {
    if j.Object? then MembersIn(j.fields, Misread(j, m), Partial(EMPTY, None), mode) else Lost
  }

  function MembersIn(f: Fields, m: Memory, partial: Partial, mode: Mode): Got<Node>
    decreases f, 0
  {
    if f.NoFields? then Got(partial.node, m)
    else
      match MemberIn(f.key, f.value, m, partial, mode)
      case Lost => Lost
      case Got(now, after) => MembersIn(f.more, after, now, mode)
  }

  /** A member whose value only has to be text, or true or false. */
  function PlainMember(key: Word): Option<bool> {
    match key
    case Id => Some(false)
    case Kind => Some(false)
    case Name => Some(false)
    case TextKey(_) => Some(false)
    case FlagKey(_) => Some(true)
    case _ => None
  }

  function MemberIn(key: Word, value: Json, m: Memory, partial: Partial, mode: Mode): Got<Partial>
    decreases value, 2
  {
    var node := partial.node;
    match key
    case LocKey =>
      (match Located(value, m)
       case Lost => Lost
       case Got(loc, after) => Got(partial.(node := node.(loc := loc)), after))
    case RangeKey =>
      (match Ranged(value, m)
       case Lost => Lost
       case Got(range, after) => Got(partial.(node := node.(begin := range.0, end := range.1)), after))
    case Implicit =>
      if BoolOf(value).Some? then Got(partial.(node := node.(implicit := BoolOf(value).value)), m) else Lost
    case TypeKey => Known(Described(value, m, TypeShape), partial)
    case RefKey(_) => Known(Described(value, m, RefShape), partial)
    case Inner => ChildrenIn(value, m, partial, false, KeepNow(partial, mode))
    case Filler => ChildrenIn(value, m, partial, true, KeepNow(partial, mode))
    case _ =>
      match PlainMember(key)
      case Some(flag) => if flag then if BoolOf(value).Some? then Got(partial, m) else Lost
        else if TextOf(value).Some? then Got(partial, m) else Lost
      case None => Known(Passed(value, m), partial)
  }

  /** Nothing is kept of it. */
  function Known(g: Got<()>, partial: Partial): Got<Partial> {
    match g
    case Lost => Lost
    case Got(_, after) => Got(partial, after)
  }

  function ChildrenIn(j: Json, m: Memory, partial: Partial, filler: bool, keep: bool): Got<Partial>
    decreases j, 1
  {
    if !j.Array? then Lost
    else
      match ListIn(j.elements, m, partial.node, filler, keep)
      case Lost => Lost
      case Got(node, after) => Got(Partial(node, Some(keep)), after)
  }

  /** The first of a filler's list is the filler; all others, and all of the other list, are children. */
  function ListIn(e: Elements, m: Memory, node: Node, filler: bool, keep: bool): Got<Node>
    decreases e, 0
  {
    if e.NoElements? then Got(node, m)
    else if !keep then
      match Passed(e.value, m) case Lost => Lost case Got(_, after) => ListIn(e.more, after, node, false, keep)
    else
      match NodeIn(e.value, m, Below)
      case Lost => Lost
      case Got(child, after) =>
        ListIn(e.more, after, if filler then node.(filler := Some(child)) else node.(inner := node.inner + [child]),
          false,
               keep)
  }

  lemma {:induction false} KeepsOwn(partial: Partial, mode: Mode)
    ensures Decide(partial, mode) == Partial(partial.node, Some(KeepNow(partial, mode)))
  {
  }

  lemma {:induction false} PlainMemberIs(key: Word, j: Json, m: Memory, partial: Partial, mode: Mode, tail: seq<Token>)
    requires ValueOk(j) && PlainMember(key).Some?
    ensures NodeField(On(m, Print(j, tail)), key, partial, mode) == Left(MemberIn(key, j, m, partial, mode), tail)
  {
    if key.FlagKey? { ReadBoolIs(j, m, tail); } else { ReadTextIs(j, m, tail); }
  }

  lemma {:induction false} PlacedMemberIs(key: Word, j: Json, m: Memory, partial: Partial, mode: Mode, tail: seq<Token>)
    requires ValueOk(j) && (key.LocKey? || key.RangeKey? || key.Implicit?)
    ensures NodeField(On(m, Print(j, tail)), key, partial, mode) == Left(MemberIn(key, j, m, partial, mode), tail)
  {
    match key
    case LocKey => LocationIs(j, m, tail);
    case RangeKey => RangeIs(j, m, tail);
    case Implicit => ReadBoolIs(j, m, tail);
  }

  lemma {:induction false} DescribedMemberIs(key: Word, j: Json, m: Memory, partial: Partial, mode: Mode,
                                             tail: seq<Token>)
    requires ValueOk(j) && (key.TypeKey? || key.RefKey?)
    ensures NodeField(On(m, Print(j, tail)), key, partial, mode) == Left(MemberIn(key, j, m, partial, mode), tail)
  {
    PlainIs(j, m, if key.TypeKey? then TypeShape else RefShape, tail);
  }

  predicate Listed(key: Word) {
    key.Inner? || key.Filler?
  }

  lemma {:induction false} OtherMemberIs(key: Word, j: Json, m: Memory, partial: Partial, mode: Mode, tail: seq<Token>)
    requires ValueOk(j) && !Listed(key) && PlainMember(key).None?
    requires !key.LocKey? && !key.RangeKey? && !key.Implicit? && !key.TypeKey? && !key.RefKey?
    ensures NodeField(On(m, Print(j, tail)), key, partial, mode) == Left(MemberIn(key, j, m, partial, mode), tail)
  {
    SkimIs(j, m, tail);
  }

  lemma {:induction false} MemberIs(key: Word, j: Json, m: Memory, partial: Partial, mode: Mode, tail: seq<Token>)
    requires ValueOk(j)
    ensures NodeField(On(m, Print(j, tail)), key, partial, mode) == Left(MemberIn(key, j, m, partial, mode), tail)
    decreases j, 3
  {
    if Listed(key) {
      KeepsOwn(partial, mode);
      ChildrenIs(j, m, partial, key.Filler?, KeepNow(partial, mode), tail);
    }
    else if PlainMember(key).Some? { PlainMemberIs(key, j, m, partial, mode, tail); }
    else if key.LocKey? || key.RangeKey? || key.Implicit? { PlacedMemberIs(key, j, m, partial, mode, tail); }
    else if key.TypeKey? || key.RefKey? { DescribedMemberIs(key, j, m, partial, mode, tail); }
    else { OtherMemberIs(key, j, m, partial, mode, tail); }
  }

  lemma {:induction false} ChildrenIs(j: Json, m: Memory, partial: Partial, filler: bool, keep: bool, tail: seq<Token>)
    requires ValueOk(j)
    ensures ChildrenOf(On(m, Print(j, tail)), Partial(partial.node, Some(keep)), filler)
            == Left(ChildrenIn(j, m, partial, filler, keep), tail)
    decreases j, 2
  {
    FirstToken(j, tail);
    if j.Array? {
      if j.elements.NoElements? { OpensEmpty(m, OpenList, CloseList, tail); }
      else {
        OpensList(m, j.elements, tail);
        ListIs(j.elements, m, partial.node, filler, keep, tail);
      }
    }
  }

  lemma {:induction false} ListIs(e: Elements, m: Memory, node: Node, filler: bool, keep: bool, tail: seq<Token>)
    requires ElementsOk(e) && e.Element?
    ensures Items(On(m, PrintElements(e, tail)), node, filler, keep) == Left(ListIn(e, m, node, filler, keep), tail)
    decreases e, 1
  {
    var rest := PrintRest(e.more, tail);
    var item := Item(On(m, PrintElements(e, tail)), node, filler, keep);
    if keep { ReadNodeIs(e.value, m, Below, rest); } else { SkimIs(e.value, m, rest); }
    if item.Ok? {
      var after := if keep then NodeIn(e.value, m, Below).memory else Passed(e.value, m).memory;
      MoreElements(after, e.more, tail);
      if e.more.Element? { ListIs(e.more, after, item.value, false, keep, tail); }
    }
  }

  lemma {:induction false} NodeMembersIs(f: Fields, m: Memory, partial: Partial, mode: Mode, tail: seq<Token>)
    requires FieldsOk(f) && f.Field?
    ensures NodeMembers(On(m, PrintValue(f, tail)), f.key, partial, mode) == Left(MembersIn(f, m, partial, mode), tail)
    decreases f, 1
  {
    MemberIs(f.key, f.value, m, partial, mode, PrintMore(f.more, tail));
    var got := MemberIn(f.key, f.value, m, partial, mode);
    if got.Got? {
      MoreFields(got.memory, f.more, tail);
      if f.more.Field? {
        KeyReads(got.memory, f.more, tail);
        NodeMembersIs(f.more, got.memory, got.value, mode, tail);
      }
    }
  }

  /** Reading a node from the tokens of a value gives what the value says, and leaves what follows it. */
  lemma {:induction false} ReadNodeIs(j: Json, m: Memory, mode: Mode, tail: seq<Token>)
    requires ValueOk(j)
    ensures ReadNode(On(m, Print(j, tail)), mode) == Left(NodeIn(j, m, mode), tail)
    decreases j, 1
  {
    if !j.Object? { NotObject(j, m, tail); }
    else if j.fields.NoFields? { OpensEmpty(m, OpenObject, CloseObject, tail); }
    else {
      OpensObject(m, j.fields, tail);
      FirstKeyIs(j.fields, m, tail);
      NodeMembersIs(j.fields, Misread(j, m), Partial(EMPTY, None), mode, tail);
    }
  }
}
