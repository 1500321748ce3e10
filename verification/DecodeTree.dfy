/** Reading the places clang's dump elides (internal/cproject/decode.go:474-896).  The dump
    leaves out a file or a line that is the one printed last, so what is skipped must be
    followed as closely as what is read.  Strings and numbers come as whole tokens here. */
module DecodeTree {

  datatype Option<+T> = None | Some(value: T)

  /** Strings, the keys the decoder knows apart. */
  datatype Word =
    | Offset | File | Line | Col | TokLen | MacroArg
    | Spelling | Expansion
    | Begin | End
    | QualType | Desugared
    | Id | Kind | Name
    | TypeKey | LocKey | RangeKey | Implicit | ValueKey | Inner | Filler
    | RefKey(ref: string)
    | TextKey(text: string)
    | FlagKey(flag: string)
    | Other(other: string)

  /** `n` is None for a number that is no integer. */
  datatype Token = OpenObject | CloseObject | OpenList | CloseList | Comma | Colon | Text(word: Word)
    | Number(n: Option<int>) | Bool(b: bool) | Null

  /** The input left, and the file and the line the dump printed last.  `misread` tells that an
      object whose first key is offset was read as something else than a location. */
  datatype State = State(tokens: seq<Token>, file: Word, line: int, misread: bool)

  datatype Out<+T> = Ok(value: T, st: State) | Fail

  datatype Position = Position(offset: int, file: Word, line: int, col: int, tokLen: int)

  const NOWHERE: Position := Position(0, Other(""), 0, 0, 0)

  datatype Loc = Loc(spelling: Position, expansion: Position, macroArg: bool)

  const NO_LOC: Loc := Loc(NOWHERE, NOWHERE, false)

  datatype Node = Node(loc: Loc, begin: Loc, end: Loc, implicit: bool, inner: seq<Node>, filler: Option<Node>)

  const EMPTY: Node := Node(NO_LOC, NO_LOC, NO_LOC, false, [], None)

  // ----- punctuation -----

  function Advance(st: State): State
    requires st.tokens != []
  {
    st.(tokens := st.tokens[1..])
  }

  function Expect(st: State, t: Token): Out<()> {
    if st.tokens != [] && st.tokens[0] == t then Ok((), Advance(st)) else Fail
  }

  /** Opens an object or a list; true if it is empty and then already behind. */
  function Open(st: State, open: Token, close: Token): Out<bool> {
    if st.tokens == [] || st.tokens[0] != open then Fail
    else
      var inside := Advance(st);
      if inside.tokens != [] && inside.tokens[0] == close then Ok(true, Advance(inside)) else Ok(false, inside)
  }

  /** Whether another member follows. */
  function More(st: State, close: Token): Out<bool> {
    if st.tokens == [] then Fail
    else if st.tokens[0] == Comma then Ok(true, Advance(st))
    else if st.tokens[0] == close then Ok(false, Advance(st))
    else Fail
  }

  function ReadKey(st: State): Out<Word> {
    if |st.tokens| < 2 || !st.tokens[0].Text? || st.tokens[1] != Colon then Fail
    else Ok(st.tokens[0].word, Advance(Advance(st)))
  }

  function ReadText(st: State): Out<Word> {
    if st.tokens != [] && st.tokens[0].Text? then Ok(st.tokens[0].word, Advance(st)) else Fail
  }

  function ReadInt(st: State): Out<int> {
    if st.tokens != [] && st.tokens[0].Number? && st.tokens[0].n.Some? then Ok(st.tokens[0].n.value, Advance(st))
      else Fail
  }

  function ReadBool(st: State): Out<bool> {
    if st.tokens != [] && st.tokens[0].Bool? then Ok(st.tokens[0].b, Advance(st)) else Fail
  }

  // ----- skipping -----

  /** What a bare location told so far. */
  datatype Seen = Seen(position: Position, file: Option<Word>, line: bool, macroArg: bool)

  const UNSEEN: Seen := Seen(NOWHERE, None, false, false)

  /** Skips any value, following every location in it. */
  function Skim(st: State): (o: Out<()>)
    ensures o.Ok? ==> |o.st.tokens| < |st.tokens| && o.st.misread == st.misread
    decreases |st.tokens|, 2
  {
    if st.tokens == [] then Fail
    else
      match st.tokens[0]
      case OpenObject =>
        (match Open(st, OpenObject, CloseObject)
         case Fail => Fail
         case Ok(empty, inside) =>
           if empty then Ok((), inside)
           else
             match ReadKey(inside)
             case Fail => Fail
             case Ok(key, at) =>
               if key.Offset? then
                 match BareRest(at, key, UNSEEN)
                 case Fail => Fail
                 case Ok(_, after) => Ok((), after)
               else SkimMembers(at))
      case OpenList =>
        (match Open(st, OpenList, CloseList)
         case Fail => Fail
         case Ok(empty, inside) => if empty then Ok((), inside) else SkimItems(inside))
      case Text(_) => Ok((), Advance(st))
      case Number(_) => Ok((), Advance(st))
      case Bool(_) => Ok((), Advance(st))
      case Null => Ok((), Advance(st))
      case _ => Fail
  }

  /** The members of an object from a value on. */
  function SkimMembers(st: State): (o: Out<()>)
    ensures o.Ok? ==> |o.st.tokens| < |st.tokens| && o.st.misread == st.misread
    decreases |st.tokens|, 3
  {
    match Skim(st)
    case Fail => Fail
    case Ok(_, after) => NextMember(after)
  }

  function NextMember(st: State): (o: Out<()>)
    ensures o.Ok? ==> |o.st.tokens| < |st.tokens| && o.st.misread == st.misread
    decreases |st.tokens|, 1
  {
    match More(st, CloseObject)
    case Fail => Fail
    case Ok(more, next) =>
      if !more then Ok((), next)
      else
        match ReadKey(next)
        case Fail => Fail
        case Ok(_, at) => SkimMembers(at)
  }

  function SkimItems(st: State): (o: Out<()>)
    ensures o.Ok? ==> |o.st.tokens| < |st.tokens| && o.st.misread == st.misread
    decreases |st.tokens|, 3
  {
    match Skim(st)
    case Fail => Fail
    case Ok(_, after) =>
      match More(after, CloseList)
      case Fail => Fail
      case Ok(more, next) => if more then SkimItems(next) else Ok((), next)
  }

  /** One member of a bare location. */
  function BareField(st: State, key: Word, seen: Seen): (o: Out<Seen>)
    ensures o.Ok? ==> |o.st.tokens| < |st.tokens| && o.st.misread == st.misread
    decreases |st.tokens|, 3
  {
    match key
    case Offset => (match ReadInt(st) case Fail => Fail
      case Ok(n, after) => Ok(seen.(position := seen.position.(offset := n)), after))
    case File => (match ReadText(st) case Fail => Fail case Ok(f, after) => Ok(seen.(file := Some(f)), after))
    case Line => (match ReadInt(st) case Fail => Fail
      case Ok(n, after) => Ok(seen.(position := seen.position.(line := n), line := true), after))
    case Col => (match ReadInt(st) case Fail => Fail
      case Ok(n, after) => Ok(seen.(position := seen.position.(col := n)), after))
    case TokLen => (match ReadInt(st) case Fail => Fail
      case Ok(n, after) => Ok(seen.(position := seen.position.(tokLen := n)), after))
    case MacroArg => (match ReadBool(st) case Fail => Fail case Ok(b, after) => Ok(seen.(macroArg := b), after))
    case _ => match Skim(st) case Fail => Fail case Ok(_, after) => Ok(seen, after)
  }

  /** The rest of a bare location from the value of `key` on. */
  function BareRest(st: State, key: Word, seen: Seen): (o: Out<Seen>)
    ensures o.Ok? ==> |o.st.tokens| < |st.tokens| && o.st.misread == st.misread
    decreases |st.tokens|, 4
  {
    match BareField(st, key, seen)
    case Fail => Fail
    case Ok(now, after) =>
      match More(after, CloseObject)
      case Fail => Fail
      case Ok(more, next) =>
        if !more then Ok(Settle(next, now), Elide(next, now))
        else
          match ReadKey(next)
          case Fail => Fail
          case Ok(k, at) => BareRest(at, k, now)
  }

  /** What was printed is what the next location elides against; what was not is as it was. */
  function Elide(st: State, seen: Seen): State {
    st.(file := if seen.file.Some? then seen.file.value else st.file, line := if seen.line then seen.position.line
      else st.line)
  }

  function Settle(st: State, seen: Seen): Seen {
    seen.(position := seen.position.(file := Elide(st, seen).file, line := Elide(st, seen).line))
  }

  // ----- reading -----

  /** A bare location; an empty object is no location, and another object is followed. */
  function Bare(st: State): (o: Out<Seen>)
    ensures o.Ok? ==> |o.st.tokens| < |st.tokens| && (st.misread ==> o.st.misread)
  {
    match Open(st, OpenObject, CloseObject)
    case Fail => Fail
    case Ok(empty, inside) =>
      if empty then Ok(UNSEEN, inside)
      else
        match ReadKey(inside)
        case Fail => Fail
        case Ok(key, at) =>
          if key.Offset? then BareRest(at, key, UNSEEN)
          else match SkimMembers(at) case Fail => Fail case Ok(_, after) => Ok(UNSEEN, after)
  }

  function Location(st: State): (o: Out<Loc>)
    ensures o.Ok? ==> |o.st.tokens| < |st.tokens| && (st.misread ==> o.st.misread)
  {
    match Open(st, OpenObject, CloseObject)
    case Fail => Fail
    case Ok(empty, inside) =>
      if empty then Ok(NO_LOC, inside)
      else
        match ReadKey(inside)
        case Fail => Fail
        case Ok(key, at) =>
          if key.Offset? then
            match BareRest(at, key, UNSEEN)
            case Fail => Fail
            case Ok(seen, after) => Ok(Loc(seen.position, seen.position, false), after)
          else LocationMembers(at, key, NO_LOC)
  }

  function LocationField(st: State, key: Word, loc: Loc): (o: Out<Loc>)
    ensures o.Ok? ==> |o.st.tokens| < |st.tokens| && (st.misread ==> o.st.misread)
  {
    match key
    case Spelling => (match Bare(st) case Fail => Fail
      case Ok(seen, after) => Ok(loc.(spelling := seen.position), after))
    case Expansion => (match Bare(st) case Fail => Fail
      case Ok(seen, after) => Ok(loc.(expansion := seen.position, macroArg := seen.macroArg), after))
    case _ => match Skim(st) case Fail => Fail case Ok(_, after) => Ok(loc, after)
  }

  function LocationMembers(st: State, key: Word, loc: Loc): (o: Out<Loc>)
    ensures o.Ok? ==> |o.st.tokens| < |st.tokens| && (st.misread ==> o.st.misread)
    decreases |st.tokens|
  {
    match LocationField(st, key, loc)
    case Fail => Fail
    case Ok(now, after) =>
      match More(after, CloseObject)
      case Fail => Fail
      case Ok(more, next) =>
        if !more then Ok(now, next)
        else match ReadKey(next) case Fail => Fail case Ok(k, at) => LocationMembers(at, k, now)
  }

  /** The first key of an object that is no location. */
  function FirstKey(st: State): Out<Word> {
    match ReadKey(st)
    case Fail => Fail
    case Ok(key, at) => Ok(key, if key.Offset? then at.(misread := true) else at)
  }

  function RangeField(st: State, key: Word, range: (Loc, Loc)): (o: Out<(Loc, Loc)>)
    ensures o.Ok? ==> |o.st.tokens| < |st.tokens| && (st.misread ==> o.st.misread)
  {
    match key
    case Begin => (match Location(st) case Fail => Fail case Ok(loc, after) => Ok((loc, range.1), after))
    case End => (match Location(st) case Fail => Fail case Ok(loc, after) => Ok((range.0, loc), after))
    case _ => match Skim(st) case Fail => Fail case Ok(_, after) => Ok(range, after)
  }

  function RangeMembers(st: State, key: Word, range: (Loc, Loc)): (o: Out<(Loc, Loc)>)
    ensures o.Ok? ==> |o.st.tokens| < |st.tokens| && (st.misread ==> o.st.misread)
    decreases |st.tokens|
  {
    match RangeField(st, key, range)
    case Fail => Fail
    case Ok(now, after) =>
      match More(after, CloseObject)
      case Fail => Fail
      case Ok(more, next) =>
        if !more then Ok(now, next)
        else match ReadKey(next) case Fail => Fail case Ok(k, at) => RangeMembers(at, k, now)
  }

  function SourceRange(st: State): (o: Out<(Loc, Loc)>)
    ensures o.Ok? ==> |o.st.tokens| < |st.tokens| && (st.misread ==> o.st.misread)
  {
    match Open(st, OpenObject, CloseObject)
    case Fail => Fail
    case Ok(empty, inside) =>
      if empty then Ok((NO_LOC, NO_LOC), inside)
      else match FirstKey(inside) case Fail => Fail case Ok(key, at) => RangeMembers(at, key, (NO_LOC, NO_LOC))
  }

  /** A type or a reference to a declaration: no location is read in them. */
  datatype Shape = TypeShape | RefShape

  function Depth(shape: Shape): nat {
    if shape.RefShape? then 1 else 0
  }

  function PlainField(st: State, key: Word, shape: Shape): (o: Out<()>)
    ensures o.Ok? ==> |o.st.tokens| < |st.tokens| && (st.misread ==> o.st.misread)
    decreases |st.tokens|, Depth(shape), 0
  {
    match shape
    case TypeShape =>
      if key.QualType? || key.Desugared? then match ReadText(st) case Fail => Fail case Ok(_, after) => Ok((), after)
      else Skim(st)
    case RefShape =>
      if key.Id? || key.Kind? || key.Name? then match ReadText(st) case Fail => Fail case Ok(_, after) => Ok((), after)
      else if key.TypeKey? then Plain(st, TypeShape)
      else Skim(st)
  }

  function PlainMembers(st: State, key: Word, shape: Shape): (o: Out<()>)
    ensures o.Ok? ==> |o.st.tokens| < |st.tokens| && (st.misread ==> o.st.misread)
    decreases |st.tokens|, Depth(shape), 1
  {
    match PlainField(st, key, shape)
    case Fail => Fail
    case Ok(_, after) =>
      match More(after, CloseObject)
      case Fail => Fail
      case Ok(more, next) =>
        if !more then Ok((), next)
        else match ReadKey(next) case Fail => Fail case Ok(k, at) => PlainMembers(at, k, shape)
  }

  function Plain(st: State, shape: Shape): (o: Out<()>)
    ensures o.Ok? ==> |o.st.tokens| < |st.tokens| && (st.misread ==> o.st.misread)
    decreases |st.tokens|, Depth(shape), 2
  {
    match Open(st, OpenObject, CloseObject)
    case Fail => Fail
    case Ok(empty, inside) =>
      if empty then Ok((), inside)
      else match FirstKey(inside) case Fail => Fail case Ok(key, at) => PlainMembers(at, key, shape)
  }

  /** Which children are kept: of a top-level node those of the repository's own. */
  datatype Mode = Top(corpus: set<Word>) | Below

  predicate Keeps(mode: Mode, node: Node) {
    mode.Below? || (!node.implicit && node.loc.expansion.file in mode.corpus)
  }

  /** A node read so far; whether its children are kept is decided at the first of them. */
  datatype Partial = Partial(node: Node, keep: Option<bool>)

  function Decide(partial: Partial, mode: Mode): Partial {
    if partial.keep.Some? then partial else partial.(keep := Some(Keeps(mode, partial.node)))
  }

  function NodeField(st: State, key: Word, partial: Partial, mode: Mode): (o: Out<Partial>)
    ensures o.Ok? ==> |o.st.tokens| < |st.tokens| && (st.misread ==> o.st.misread)
    decreases |st.tokens|, 4
  {
    var node := partial.node;
    match key
    case LocKey => (match Location(st) case Fail => Fail
      case Ok(loc, after) => Ok(partial.(node := node.(loc := loc)), after))
    case RangeKey => (match SourceRange(st) case Fail => Fail
      case Ok(r, after) => Ok(partial.(node := node.(begin := r.0, end := r.1)), after))
    case Implicit => (match ReadBool(st) case Fail => Fail
      case Ok(b, after) => Ok(partial.(node := node.(implicit := b)), after))
    case TypeKey => (match Plain(st, TypeShape) case Fail => Fail case Ok(_, after) => Ok(partial, after))
    case RefKey(_) => (match Plain(st, RefShape) case Fail => Fail case Ok(_, after) => Ok(partial, after))
    case Id => (match ReadText(st) case Fail => Fail case Ok(_, after) => Ok(partial, after))
    case Kind => (match ReadText(st) case Fail => Fail case Ok(_, after) => Ok(partial, after))
    case Name => (match ReadText(st) case Fail => Fail case Ok(_, after) => Ok(partial, after))
    case TextKey(_) => (match ReadText(st) case Fail => Fail case Ok(_, after) => Ok(partial, after))
    case FlagKey(_) => (match ReadBool(st) case Fail => Fail case Ok(_, after) => Ok(partial, after))
    case Inner => ChildrenOf(st, Decide(partial, mode), false)
    case Filler => ChildrenOf(st, Decide(partial, mode), true)
    case _ => match Skim(st) case Fail => Fail case Ok(_, after) => Ok(partial, after)
  }

  function ChildrenOf(st: State, partial: Partial, filler: bool): (o: Out<Partial>)
    requires partial.keep.Some?
    ensures o.Ok? ==> |o.st.tokens| < |st.tokens| && (st.misread ==> o.st.misread)
    decreases |st.tokens|, 3, 1
  {
    match Children(st, partial.node, filler, partial.keep.value) case Fail => Fail
      case Ok(node, after) => Ok(partial.(node := node), after)
  }

  function NodeMembers(st: State, key: Word, partial: Partial, mode: Mode): (o: Out<Node>)
    ensures o.Ok? ==> |o.st.tokens| < |st.tokens| && (st.misread ==> o.st.misread)
    decreases |st.tokens|, 5
  {
    match NodeField(st, key, partial, mode)
    case Fail => Fail
    case Ok(now, after) =>
      match More(after, CloseObject)
      case Fail => Fail
      case Ok(more, next) =>
        if !more then Ok(now.node, next)
        else match ReadKey(next) case Fail => Fail case Ok(k, at) => NodeMembers(at, k, now, mode)
  }

  function ReadNode(st: State, mode: Mode): (o: Out<Node>)
    ensures o.Ok? ==> |o.st.tokens| < |st.tokens| && (st.misread ==> o.st.misread)
    decreases |st.tokens|, 2
  {
    match Open(st, OpenObject, CloseObject)
    case Fail => Fail
    case Ok(empty, inside) =>
      if empty then Ok(EMPTY, inside)
      else match FirstKey(inside) case Fail => Fail case Ok(key, at) => NodeMembers(at, key, Partial(EMPTY, None), mode)
  }

  function Children(st: State, node: Node, filler: bool, keep: bool): (o: Out<Node>)
    ensures o.Ok? ==> |o.st.tokens| < |st.tokens| && (st.misread ==> o.st.misread)
    decreases |st.tokens|, 3, 0
  {
    match Open(st, OpenList, CloseList)
    case Fail => Fail
    case Ok(empty, inside) => if empty then Ok(node, inside) else Items(inside, node, filler, keep)
  }

  function Items(st: State, node: Node, filler: bool, keep: bool): (o: Out<Node>)
    ensures o.Ok? ==> |o.st.tokens| < |st.tokens| && (st.misread ==> o.st.misread)
    decreases |st.tokens|, 4
  {
    match Item(st, node, filler, keep)
    case Fail => Fail
    case Ok(now, after) =>
      match More(after, CloseList)
      case Fail => Fail
      case Ok(more, next) => if more then Items(next, now, false, keep) else Ok(now, next)
  }

  function Item(st: State, node: Node, filler: bool, keep: bool): (o: Out<Node>)
    ensures o.Ok? ==> |o.st.tokens| < |st.tokens| && (st.misread ==> o.st.misread)
    decreases |st.tokens|, 3
  {
    if keep then
      match ReadNode(st, Below)
      case Fail => Fail
      case Ok(child, after) => Ok(if filler then node.(filler := Some(child)) else node.(inner := node.inner + [child]),
        after)
    else
      match Skim(st) case Fail => Fail case Ok(_, after) => Ok(node, after)
  }

  // ----- skipping follows what reading does -----

  /** Where reading ended well, skipping ends in the same state. */
  predicate Follows(st: State, after: State) {
    Skim(st).Ok? && Skim(st).st == after
  }

  lemma {:induction false} BareFollows(st: State)
    requires Bare(st).Ok?
    ensures Follows(st, Bare(st).st)
  {
  }

  /** A location, in either form, leaves the state skipping it leaves. */
  lemma {:induction false} LocationFollows(st: State)
    requires Location(st).Ok?
    ensures Follows(st, Location(st).st)
  {
    var start := Open(st, OpenObject, CloseObject);
    if !start.value {
      var key := ReadKey(start.st);
      if !key.value.Offset? { LocationMembersFollow(key.st, key.value, NO_LOC); }
    }
  }

  lemma {:induction false} LocationMembersFollow(st: State, key: Word, loc: Loc)
    requires LocationMembers(st, key, loc).Ok?
    ensures SkimMembers(st).Ok? && SkimMembers(st).st == LocationMembers(st, key, loc).st
    decreases |st.tokens|
  {
    if key.Spelling? || key.Expansion? { BareFollows(st); }
    var field := LocationField(st, key, loc);
    var next := More(field.st, CloseObject);
    if next.value {
      var k := ReadKey(next.st);
      LocationMembersFollow(k.st, k.value, field.value);
    }
  }

  lemma {:induction false} RangeFollows(st: State)
    requires SourceRange(st).Ok? && !SourceRange(st).st.misread
    ensures Follows(st, SourceRange(st).st)
  {
    var start := Open(st, OpenObject, CloseObject);
    if !start.value {
      var key := FirstKey(start.st);
      RangeMembersFollow(key.st, key.value, (NO_LOC, NO_LOC));
    }
  }

  lemma {:induction false} RangeMembersFollow(st: State, key: Word, range: (Loc, Loc))
    requires RangeMembers(st, key, range).Ok?
    ensures SkimMembers(st).Ok? && SkimMembers(st).st == RangeMembers(st, key, range).st
    decreases |st.tokens|
  {
    if key.Begin? || key.End? { LocationFollows(st); }
    var field := RangeField(st, key, range);
    var next := More(field.st, CloseObject);
    if next.value {
      var k := ReadKey(next.st);
      RangeMembersFollow(k.st, k.value, field.value);
    }
  }

  lemma {:induction false} PlainFollows(st: State, shape: Shape)
    requires Plain(st, shape).Ok? && !Plain(st, shape).st.misread
    ensures Follows(st, Plain(st, shape).st)
    decreases |st.tokens|, Depth(shape), 1
  {
    var start := Open(st, OpenObject, CloseObject);
    if !start.value {
      var key := FirstKey(start.st);
      PlainMembersFollow(key.st, key.value, shape);
    }
  }

  lemma {:induction false} PlainMembersFollow(st: State, key: Word, shape: Shape)
    requires PlainMembers(st, key, shape).Ok? && !PlainMembers(st, key, shape).st.misread
    ensures SkimMembers(st).Ok? && SkimMembers(st).st == PlainMembers(st, key, shape).st
    decreases |st.tokens|, Depth(shape), 0
  {
    var field := PlainField(st, key, shape);
    var next := More(field.st, CloseObject);
    if shape.RefShape? && key.TypeKey? { PlainFollows(st, TypeShape); }
    if next.value {
      var k := ReadKey(next.st);
      PlainMembersFollow(k.st, k.value, shape);
    }
  }

  /** A node that was read leaves the input and the elided file and line where skipping it
      would, unless an object in it that is no location begins with an offset. */
  lemma {:induction false} NodeFollows(st: State, mode: Mode)
    requires ReadNode(st, mode).Ok? && !ReadNode(st, mode).st.misread
    ensures Follows(st, ReadNode(st, mode).st)
    decreases |st.tokens|, 2
  {
    var start := Open(st, OpenObject, CloseObject);
    if !start.value {
      var key := FirstKey(start.st);
      NodeMembersFollow(key.st, key.value, Partial(EMPTY, None), mode);
    }
  }

  lemma {:induction false} NodeFieldFollows(st: State, key: Word, partial: Partial, mode: Mode)
    requires NodeField(st, key, partial, mode).Ok? && !NodeField(st, key, partial, mode).st.misread
    ensures Follows(st, NodeField(st, key, partial, mode).st)
    decreases |st.tokens|, 4
  {
    match key
    case LocKey => LocationFollows(st);
    case RangeKey => RangeFollows(st);
    case TypeKey => PlainFollows(st, TypeShape);
    case RefKey(_) => PlainFollows(st, RefShape);
    case Inner => ChildrenFollow(st, partial.node, false, Decide(partial, mode).keep.value);
    case Filler => ChildrenFollow(st, partial.node, true, Decide(partial, mode).keep.value);
    case _ =>
  }

  lemma {:induction false} NodeMembersFollow(st: State, key: Word, partial: Partial, mode: Mode)
    requires NodeMembers(st, key, partial, mode).Ok? && !NodeMembers(st, key, partial, mode).st.misread
    ensures SkimMembers(st).Ok? && SkimMembers(st).st == NodeMembers(st, key, partial, mode).st
    decreases |st.tokens|, 5
  {
    var field := NodeField(st, key, partial, mode);
    var next := More(field.st, CloseObject);
    if next.value {
      var k := ReadKey(next.st);
      NodeFieldFollows(st, key, partial, mode);
      NodeMembersFollow(k.st, k.value, field.value, mode);
    } else {
      NodeFieldFollows(st, key, partial, mode);
    }
  }

  lemma {:induction false} ChildrenFollow(st: State, node: Node, filler: bool, keep: bool)
    requires Children(st, node, filler, keep).Ok? && !Children(st, node, filler, keep).st.misread
    ensures Follows(st, Children(st, node, filler, keep).st)
    decreases |st.tokens|, 3
  {
    var start := Open(st, OpenList, CloseList);
    if !start.value { ItemsFollow(start.st, node, filler, keep); }
  }

  lemma {:induction false} ItemsFollow(st: State, node: Node, filler: bool, keep: bool)
    requires Items(st, node, filler, keep).Ok? && !Items(st, node, filler, keep).st.misread
    ensures SkimItems(st).Ok? && SkimItems(st).st == Items(st, node, filler, keep).st
    decreases |st.tokens|, 4
  {
    var item := Item(st, node, filler, keep);
    var next := More(item.st, CloseList);
    if next.value { ItemsFollow(next.st, item.value, false, keep); }
    if keep { NodeFollows(st, Below); }
  }

  /** Which children are kept makes no difference to what is read after a node. */
  lemma {:induction false} KeepingLeavesTheSame(st: State, a: Mode, b: Mode)
    requires ReadNode(st, a).Ok? && !ReadNode(st, a).st.misread && ReadNode(st, b).Ok? && !ReadNode(st, b).st.misread
    ensures ReadNode(st, a).st == ReadNode(st, b).st
  {
    NodeFollows(st, a);
    NodeFollows(st, b);
  }

  /** An object that begins with an offset and then has a line. */
  predicate OffsetFirst(st: State, offset: int, line: int, tail: seq<Token>) {
    st.tokens == [OpenObject, Text(Offset), Colon, Number(Some(offset)), Comma, Text(Line), Colon, Number(Some(line)),
      CloseObject] + tail
  }

  /** Past its first key, second value and end. */
  lemma {:induction false} OffsetParts(st: State, offset: int, line: int, tail: seq<Token>)
    requires OffsetFirst(st, offset, line, tail)
    ensures var t := st.tokens;
            && Open(st, OpenObject, CloseObject) == Ok(false, st.(tokens := t[1..]))
            && FirstKey(st.(tokens := t[1..])) == Ok(Offset, st.(tokens := t[3..], misread := true))
  {
    var t := st.tokens;
    assert Advance(st) == st.(tokens := t[1..]);
    assert Advance(st.(tokens := t[1..])) == st.(tokens := t[2..]) && Advance(st.(tokens := t[2..])) ==
      st.(tokens := t[3..]);
  }

  /** Skipped it counts as a location and changes the line the next location elides against. */
  lemma {:induction false} OffsetSkipped(st: State, offset: int, line: int, tail: seq<Token>)
    requires OffsetFirst(st, offset, line, tail)
    ensures Skim(st).Ok? && Skim(st).st == State(tail, st.file, line, st.misread)
  {
    var t := st.tokens;
    var at := State(t[3..], st.file, st.line, st.misread);
    assert Advance(Advance(Advance(st))).tokens == t[3..];
    SecondSkipped(at, offset, line, tail);
  }

  predicate AtSecond(at: State, offset: int, line: int, tail: seq<Token>) {
    at.tokens == [Number(Some(offset)), Comma, Text(Line), Colon, Number(Some(line)), CloseObject] + tail
  }

  function Second(at: State): State
    requires |at.tokens| >= 4
  {
    at.(tokens := at.tokens[4..])
  }

  lemma {:induction false} SecondReached(at: State, offset: int, line: int, tail: seq<Token>)
    requires AtSecond(at, offset, line, tail)
    ensures Advance(Advance(Advance(Advance(at)))) == Second(at)
    ensures Advance(Second(at)).tokens == [CloseObject] + tail && Advance(Advance(Second(at))).tokens == tail
    ensures Skim(at) == Ok((), Advance(at)) && More(Advance(at), CloseObject) == Ok(true, Advance(Advance(at)))
    ensures ReadKey(Advance(Advance(at))) == Ok(Line, Second(at))
    ensures Skim(Second(at)) == Ok((), Advance(Second(at))) && More(Advance(Second(at)), CloseObject) ==
            Ok(false, at.(tokens := tail))
  {
    var t := at.tokens;
    assert Advance(at).tokens == t[1..] && Advance(Advance(at)).tokens == t[2..];
    assert Advance(Second(at)).tokens == t[5..];
  }

  lemma {:induction false} SecondSkipped(at: State, offset: int, line: int, tail: seq<Token>)
    requires AtSecond(at, offset, line, tail)
    ensures BareRest(at, Offset, UNSEEN).Ok? && BareRest(at, Offset, UNSEEN).st == at.(tokens := tail, line := line)
  {
    var t := at.tokens;
    SecondReached(at, offset, line, tail);
    var second := Second(at);
    var seen := UNSEEN.(position := UNSEEN.position.(offset := offset));
    assert BareField(at, Offset, UNSEEN) == Ok(seen, Advance(at));
    assert BareField(second, Line, seen).Ok? && BareField(second, Line, seen).value.line
      && BareField(second, Line, seen).st == Advance(second);
    assert BareRest(second, Line, seen).Ok? && BareRest(second, Line, seen).st == at.(tokens := tail, line := line);
  }

  /** Read as a range it does not. */
  lemma {:induction false} RangeMisread(st: State, offset: int, line: int, tail: seq<Token>)
    requires OffsetFirst(st, offset, line, tail)
    ensures SourceRange(st).Ok? && SourceRange(st).st == State(tail, st.file, st.line, true)
    ensures Skim(st).Ok? && Skim(st).st == State(tail, st.file, line, st.misread)
  {
    var at := st.(tokens := st.tokens[3..], misread := true);
    OffsetParts(st, offset, line, tail);
    OffsetSkipped(st, offset, line, tail);
    SecondReached(at, offset, line, tail);
    assert RangeMembers(Second(at), Line, (NO_LOC, NO_LOC)) == Ok((NO_LOC, NO_LOC), at.(tokens := tail));
  }

  /** Nor as a type or a reference to a declaration. */
  lemma {:induction false} PlainMisread(st: State, shape: Shape, offset: int, line: int, tail: seq<Token>)
    requires OffsetFirst(st, offset, line, tail)
    ensures Plain(st, shape).Ok? && Plain(st, shape).st == State(tail, st.file, st.line, true)
    ensures Skim(st).Ok? && Skim(st).st == State(tail, st.file, line, st.misread)
  {
    var at := st.(tokens := st.tokens[3..], misread := true);
    OffsetParts(st, offset, line, tail);
    OffsetSkipped(st, offset, line, tail);
    SecondReached(at, offset, line, tail);
    assert PlainField(at, Offset, shape) == Ok((), Advance(at)) && PlainField(Second(at), Line, shape) ==
      Ok((), Advance(Second(at)));
    assert PlainMembers(Second(at), Line, shape) == Ok((), at.(tokens := tail));
  }

  /** Nor as a node. */
  lemma {:induction false} NodeMisread(st: State, mode: Mode, offset: int, line: int, tail: seq<Token>)
    requires OffsetFirst(st, offset, line, tail)
    ensures ReadNode(st, mode).Ok? && ReadNode(st, mode).st == State(tail, st.file, st.line, true)
    ensures Skim(st).Ok? && Skim(st).st == State(tail, st.file, line, st.misread)
  {
    var at, none := st.(tokens := st.tokens[3..], misread := true), Partial(EMPTY, None);
    OffsetParts(st, offset, line, tail);
    OffsetSkipped(st, offset, line, tail);
    SecondReached(at, offset, line, tail);
    assert NodeField(at, Offset, none, mode) == Ok(none, Advance(at)) && NodeField(Second(at), Line, none, mode) ==
      Ok(none, Advance(Second(at)));
    assert NodeMembers(Second(at), Line, none, mode) == Ok(EMPTY, at.(tokens := tail));
  }
}
