/** What clang's dumper prints, leaving out what it printed last, is read back place by place,
    whatever is skipped on the way (internal/cproject/decode.go:532-651). */
module DecodeDump {
  import opened DecodeTree

  /** A place as the dumper knows it: none, in a file, or where a macro was written and expanded. */
  datatype Place = Nowhere | Direct(at: Position, included: Option<Word>)
    | Expanded(spelling: Position, expansion: Position, arg: bool)

  datatype Ast = Ast(id: Word, loc: Place, begin: Place, end: Place, implicit: bool, inner: seq<Ast>)

  /** The file and the line printed last. */
  datatype Last = Last(file: Word, line: int)

  function LastOf(p: Position): Last {
    Last(p.file, p.line)
  }

  // ----- printing, in front of what follows -----

  function Member(key: Word, rest: seq<Token>): seq<Token> {
    [Comma, Text(key), Colon] + rest
  }

  function Closed(tail: seq<Token>): seq<Token> {
    [CloseObject] + tail
  }

  function Numbered(n: int, rest: seq<Token>): seq<Token> {
    [Number(Some(n))] + rest
  }

  function Worded(w: Word, rest: seq<Token>): seq<Token> {
    [Text(w)] + rest
  }

  /** The file a header was included from stands in an object of its own. */
  function IncludedOn(included: Option<Word>, arg: bool, tail: seq<Token>): seq<Token> {
    if included.Some? then
      Member(Other("includedFrom"), [OpenObject, Text(File), Colon] + Worded(included.value, Closed(ArgOn(arg, tail))))
    else ArgOn(arg, tail)
  }

  function ArgOn(arg: bool, tail: seq<Token>): seq<Token> {
    if arg then Member(MacroArg, [Bool(true)] + Closed(tail)) else Closed(tail)
  }

  function ColOn(p: Position, included: Option<Word>, arg: bool, tail: seq<Token>): seq<Token> {
    Member(Col, Numbered(p.col, Member(TokLen, Numbered(p.tokLen, IncludedOn(included, arg, tail)))))
  }

  function LineOn(p: Position, included: Option<Word>, arg: bool, tail: seq<Token>): seq<Token> {
    Member(Line, Numbered(p.line, ColOn(p, included, arg, tail)))
  }

  /** The file is printed when it changes, and then the line with it; the line alone when only
      it changes. */
  function BareDump(p: Position, included: Option<Word>, arg: bool, last: Last, tail: seq<Token>): seq<Token> {
    [OpenObject, Text(Offset), Colon] + Numbered(p.offset,
      if p.file != last.file then Member(File, Worded(p.file, LineOn(p, included, arg, tail)))
      else if p.line != last.line then LineOn(p, included, arg, tail)
      else ColOn(p, included, arg, tail))
  }

  function PlaceDump(place: Place, last: Last, tail: seq<Token>): seq<Token> {
    match place
    case Nowhere => [OpenObject, CloseObject] + tail
    case Direct(p, included) => BareDump(p, included, false, last, tail)
    case Expanded(spelling, expansion, arg) =>
      [OpenObject, Text(Spelling), Colon] + BareDump(spelling, None, false, last,
        Member(Expansion, BareDump(expansion, None, arg, LastOf(spelling), Closed(tail))))
  }

  function AfterPlace(place: Place, last: Last): Last {
    match place
    case Nowhere => last
    case Direct(p, _) => LastOf(p)
    case Expanded(_, expansion, _) => LastOf(expansion)
  }

  function AfterOwn(n: Ast, last: Last): Last {
    AfterPlace(n.end, AfterPlace(n.begin, AfterPlace(n.loc, last)))
  }

  function AfterAll(nodes: seq<Ast>, last: Last): Last {
    if nodes == [] then last else AfterAll(nodes[1..], AfterNode(nodes[0], last))
  }

  function AfterNode(n: Ast, last: Last): Last {
    AfterAll(n.inner, AfterOwn(n, last))
  }

  function NodeDump(n: Ast, last: Last, tail: seq<Token>): seq<Token>
    decreases n, 3
  {
    var own := ImplicitOn(n, AfterOwn(n, last), tail);
    [OpenObject, Text(Id), Colon] + Worded(n.id, Member(LocKey, PlaceDump(n.loc, last,
      Member(RangeKey, RangeDump(n.begin, n.end, AfterPlace(n.loc, last), own)))))
  }

  function RangeDump(begin: Place, end: Place, last: Last, rest: seq<Token>): seq<Token> {
    [OpenObject, Text(Begin), Colon]
      + PlaceDump(begin, last, Member(End, PlaceDump(end, AfterPlace(begin, last), Closed(rest))))
  }

  function ImplicitOn(n: Ast, last: Last, tail: seq<Token>): seq<Token>
    decreases n, 1
  {
    if n.implicit then Member(Implicit, [Bool(true)] + InnerOn(n, last, tail)) else InnerOn(n, last, tail)
  }

  function InnerOn(n: Ast, last: Last, tail: seq<Token>): seq<Token>
    decreases n, 0
  {
    if n.inner == [] then Closed(tail) else Member(Inner, [OpenList] + ItemsDump(n.inner, last, Closed(tail)))
  }

  function ItemsDump(nodes: seq<Ast>, last: Last, tail: seq<Token>): seq<Token>
    requires nodes != []
    decreases nodes
  {
    NodeDump(nodes[0], last, if |nodes| == 1 then [CloseList] + tail
      else [Comma] + ItemsDump(nodes[1..], AfterNode(nodes[0], last), tail))
  }

  // ----- what is to be read back -----

  function LocOf(place: Place): Loc {
    match place
    case Nowhere => NO_LOC
    case Direct(p, _) => Loc(p, p, false)
    case Expanded(spelling, expansion, arg) => Loc(spelling, expansion, arg)
  }

  function NodeOf(n: Ast, mode: Mode): Node {
    var own := Node(LocOf(n.loc), LocOf(n.begin), LocOf(n.end), n.implicit, [], None);
    own.(inner := if Keeps(mode, own) then NodesOf(n.inner) else [])
  }

  function NodesOf(nodes: seq<Ast>): seq<Node> {
    if nodes == [] then [] else [NodeOf(nodes[0], Below)] + NodesOf(nodes[1..])
  }

  function At(tokens: seq<Token>, last: Last): State {
    State(tokens, last.file, last.line, false)
  }

  // ----- reading back -----

  lemma {:induction false} OpenKey(st: State, k: Word, rest: seq<Token>)
    requires st.tokens == [OpenObject, Text(k), Colon] + rest
    ensures Open(st, OpenObject, CloseObject) == Ok(false, st.(tokens := [Text(k), Colon] + rest))
    ensures ReadKey(st.(tokens := [Text(k), Colon] + rest)) == Ok(k, st.(tokens := rest))
  {
    assert Advance(st).tokens == [Text(k), Colon] + rest;
    assert Advance(Advance(Advance(st))).tokens == rest;
  }

  lemma {:induction false} NextKey(st: State, k: Word, rest: seq<Token>)
    requires st.tokens == Member(k, rest)
    ensures More(st, CloseObject) == Ok(true, st.(tokens := [Text(k), Colon] + rest))
    ensures ReadKey(st.(tokens := [Text(k), Colon] + rest)) == Ok(k, st.(tokens := rest))
  {
    assert Advance(st).tokens == [Text(k), Colon] + rest;
    assert Advance(Advance(Advance(st))).tokens == rest;
  }

  lemma {:induction false} Ends(st: State, rest: seq<Token>)
    requires st.tokens == Closed(rest)
    ensures More(st, CloseObject) == Ok(false, st.(tokens := rest))
  {
    assert Advance(st).tokens == rest;
  }

  /** A member of a bare location, and on to the next. */
  lemma {:induction false} BareOn(st: State, key: Word, seen: Seen, now: Seen, after: State, k: Word, rest: seq<Token>)
    requires BareField(st, key, seen) == Ok(now, after) && after.tokens == Member(k, rest)
    ensures BareRest(st, key, seen) == BareRest(after.(tokens := rest), k, now)
  {
    var next := Advance(after);
    assert next.tokens == [Text(k), Colon] + rest;
    assert Advance(Advance(next)).tokens == rest;
  }

  lemma {:induction false} BareEnds(st: State, key: Word, seen: Seen, now: Seen, after: State, tail: seq<Token>)
    requires BareField(st, key, seen) == Ok(now, after) && after.tokens == Closed(tail)
    ensures var end := after.(tokens := tail); BareRest(st, key, seen) == Ok(Settle(end, now), Elide(end, now))
  {
    assert Advance(after).tokens == tail;
  }

  lemma {:induction false} IntField(st: State, key: Word, seen: Seen, n: int, rest: seq<Token>)
    requires st.tokens == Numbered(n, rest) && (key.Offset? || key.Line? || key.Col? || key.TokLen?)
    ensures BareField(st, key, seen).Ok? && BareField(st, key, seen).st == st.(tokens := rest)
  {
    assert Advance(st).tokens == rest;
  }

  /** What tells of the inclusion and of a macro's argument changes neither file nor line. */
  lemma {:induction false} ArgBack(st: State, key: Word, seen: Seen, now: Seen, arg: bool, tail: seq<Token>)
    requires BareField(st, key, seen).Ok? && BareField(st, key, seen).value == now
             && BareField(st, key, seen).st.tokens == ArgOn(arg, tail)
    ensures var end := BareField(st, key, seen).st.(tokens := tail);
            var all := if arg then now.(macroArg := true) else now;
            BareRest(st, key, seen) == Ok(Settle(end, all), Elide(end, all))
  {
    var after := BareField(st, key, seen).st;
    if arg {
      var rest := [Bool(true)] + Closed(tail);
      BareOn(st, key, seen, now, after, MacroArg, rest);
      var at := after.(tokens := rest);
      assert Advance(at).tokens == Closed(tail);
      BareEnds(at, MacroArg, now, now.(macroArg := true), Advance(at), tail);
    } else {
      BareEnds(st, key, seen, now, after, tail);
    }
  }

  lemma {:induction false} IncludedBack(st: State, key: Word, seen: Seen, now: Seen, included: Option<Word>, arg: bool,
                                        tail: seq<Token>)
    requires BareField(st, key, seen).Ok? && BareField(st, key, seen).value == now
             && BareField(st, key, seen).st.tokens == IncludedOn(included, arg, tail)
    ensures var end := BareField(st, key, seen).st.(tokens := tail);
            var all := if arg then now.(macroArg := true) else now;
            BareRest(st, key, seen) == Ok(Settle(end, all), Elide(end, all))
  {
    var after := BareField(st, key, seen).st;
    if included.Some? {
      var rest := [OpenObject, Text(File), Colon] + Worded(included.value, Closed(ArgOn(arg, tail)));
      BareOn(st, key, seen, now, after, Other("includedFrom"), rest);
      var at := after.(tokens := rest);
      SkimIncluded(at, included.value, ArgOn(arg, tail));
      ArgBack(at, Other("includedFrom"), now, now, arg, tail);
    } else {
      ArgBack(st, key, seen, now, arg, tail);
    }
  }

  lemma {:induction false} SkimIncluded(st: State, file: Word, rest: seq<Token>)
    requires st.tokens == [OpenObject, Text(File), Colon] + Worded(file, Closed(rest))
    ensures Skim(st).Ok? && Skim(st).st == st.(tokens := rest)
  {
    var inside := Advance(st);
    assert inside.tokens == [Text(File), Colon] + Worded(file, Closed(rest));
    var at := Advance(Advance(inside));
    assert at.tokens == Worded(file, Closed(rest));
    assert Advance(at).tokens == Closed(rest);
    assert Skim(at).Ok? && Skim(at).st == Advance(at);
    assert Advance(Advance(at)).tokens == rest;
    assert NextMember(Advance(at)).Ok? && NextMember(Advance(at)).st == Advance(Advance(at));
  }

  lemma {:induction false} ColBack(st: State, key: Word, seen: Seen, now: Seen, p: Position, included: Option<Word>,
                                   arg: bool, tail: seq<Token>)
    requires BareField(st, key, seen).Ok? && BareField(st, key, seen).value == now
             && BareField(st, key, seen).st.tokens == ColOn(p, included, arg, tail)
    ensures var end := BareField(st, key, seen).st.(tokens := tail);
            var all := now.(position := now.position.(col := p.col, tokLen := p.tokLen), macroArg := now.macroArg
              || arg);
            BareRest(st, key, seen) == Ok(Settle(end, all), Elide(end, all))
  {
    var after := BareField(st, key, seen).st;
    var next := Member(TokLen, Numbered(p.tokLen, IncludedOn(included, arg, tail)));
    BareOn(st, key, seen, now, after, Col, Numbered(p.col, next));
    var at := after.(tokens := Numbered(p.col, next));
    IntField(at, Col, now, p.col, next);
    TokLenBack(at, Col, now, now.(position := now.position.(col := p.col)), p, included, arg, tail);
  }

  lemma {:induction false} TokLenBack(st: State, key: Word, seen: Seen, now: Seen, p: Position, included: Option<Word>,
                                      arg: bool, tail: seq<Token>)
    requires BareField(st, key, seen).Ok? && BareField(st, key, seen).value == now
    requires BareField(st, key, seen).st.tokens == Member(TokLen, Numbered(p.tokLen, IncludedOn(included, arg, tail)))
    ensures var end := BareField(st, key, seen).st.(tokens := tail);
            var all := now.(position := now.position.(tokLen := p.tokLen), macroArg := now.macroArg || arg);
            BareRest(st, key, seen) == Ok(Settle(end, all), Elide(end, all))
  {
    var after := BareField(st, key, seen).st;
    var next := IncludedOn(included, arg, tail);
    BareOn(st, key, seen, now, after, TokLen, Numbered(p.tokLen, next));
    var at := after.(tokens := Numbered(p.tokLen, next));
    IntField(at, TokLen, now, p.tokLen, next);
    IncludedBack(at, TokLen, now, now.(position := now.position.(tokLen := p.tokLen)), included, arg, tail);
  }

  lemma {:induction false} LineBack(st: State, key: Word, seen: Seen, now: Seen, p: Position, included: Option<Word>,
                                    arg: bool, tail: seq<Token>)
    requires BareField(st, key, seen).Ok? && BareField(st, key, seen).value == now
             && BareField(st, key, seen).st.tokens == LineOn(p, included, arg, tail)
    ensures var end := BareField(st, key, seen).st.(tokens := tail);
            var all := now.(position := now.position.(line := p.line, col := p.col, tokLen := p.tokLen), line := true,
              macroArg := now.macroArg || arg);
            BareRest(st, key, seen) == Ok(Settle(end, all), Elide(end, all))
  {
    var after := BareField(st, key, seen).st;
    var rest := Numbered(p.line, ColOn(p, included, arg, tail));
    BareOn(st, key, seen, now, after, Line, rest);
    var at := after.(tokens := rest);
    IntField(at, Line, now, p.line, ColOn(p, included, arg, tail));
    ColBack(at, Line, now, now.(position := now.position.(line := p.line), line := true), p, included, arg, tail);
  }

  lemma {:induction false} FileBack(st: State, key: Word, seen: Seen, now: Seen, p: Position, included: Option<Word>,
                                    arg: bool, tail: seq<Token>)
    requires BareField(st, key, seen).Ok? && BareField(st, key, seen).value == now
    requires BareField(st, key, seen).st.tokens == Member(File, Worded(p.file, LineOn(p, included, arg, tail)))
    ensures var end := BareField(st, key, seen).st.(tokens := tail);
            var all := now.(position := now.position.(line := p.line, col := p.col, tokLen := p.tokLen),
              file := Some(p.file), line := true, macroArg := now.macroArg || arg);
            BareRest(st, key, seen) == Ok(Settle(end, all), Elide(end, all))
  {
    var after := BareField(st, key, seen).st;
    var rest := Worded(p.file, LineOn(p, included, arg, tail));
    BareOn(st, key, seen, now, after, File, rest);
    var at := after.(tokens := rest);
    assert Advance(at).tokens == LineOn(p, included, arg, tail);
    LineBack(at, File, now, now.(file := Some(p.file)), p, included, arg, tail);
  }

  /** What follows the offset of a bare location. */
  function AfterOffset(p: Position, included: Option<Word>, arg: bool, last: Last, tail: seq<Token>): seq<Token> {
    if p.file != last.file then Member(File, Worded(p.file, LineOn(p, included, arg, tail)))
    else if p.line != last.line then LineOn(p, included, arg, tail)
    else ColOn(p, included, arg, tail)
  }

  /** A bare location gives back the place, and leaves its file and line as the ones printed last. */
  lemma {:induction false} OffsetBack(p: Position, included: Option<Word>, arg: bool, last: Last, tail: seq<Token>)
    ensures var rest := BareRest(At(Numbered(p.offset, AfterOffset(p, included, arg, last, tail)), last), Offset,
            UNSEEN);
            rest.Ok? && rest.value.position == p && rest.value.macroArg == arg && rest.st == At(tail, LastOf(p))
  {
    var at := At(Numbered(p.offset, AfterOffset(p, included, arg, last, tail)), last);
    IntField(at, Offset, UNSEEN, p.offset, AfterOffset(p, included, arg, last, tail));
    var now := UNSEEN.(position := UNSEEN.position.(offset := p.offset));
    assert BareField(at, Offset, UNSEEN).value == now;
    if p.file != last.file { FileBack(at, Offset, UNSEEN, now, p, included, arg, tail); }
    else if p.line != last.line { LineBack(at, Offset, UNSEEN, now, p, included, arg, tail); }
    else { ColBack(at, Offset, UNSEEN, now, p, included, arg, tail); }
  }

  lemma {:induction false} BareBack(p: Position, included: Option<Word>, arg: bool, last: Last, tail: seq<Token>)
    ensures var st := At(BareDump(p, included, arg, last, tail), last);
            && Bare(st).Ok? && Bare(st).value.position == p && Bare(st).value.macroArg == arg
              && Bare(st).st == At(tail, LastOf(p))
            && Location(st) == Ok(Loc(p, p, false), At(tail, LastOf(p)))
  {
    var st := At(BareDump(p, included, arg, last, tail), last);
    OpenKey(st, Offset, Numbered(p.offset, AfterOffset(p, included, arg, last, tail)));
    OffsetBack(p, included, arg, last, tail);
  }

  /** Every place is read back as it was, whatever was left out of it. */
  lemma {:induction false} PlaceBack(place: Place, last: Last, tail: seq<Token>)
    ensures Location(At(PlaceDump(place, last, tail), last)) == Ok(LocOf(place), At(tail, AfterPlace(place, last)))
  {
    match place
    case Nowhere => assert Advance(Advance(At(PlaceDump(place, last, tail), last))).tokens == tail;
    case Direct(p, included) => BareBack(p, included, false, last, tail);
    case Expanded(spelling, expansion, arg) => ExpandedBack(spelling, expansion, arg, last, tail);
  }

  lemma {:induction false} ExpansionBack(spelling: Position, expansion: Position, arg: bool, tail: seq<Token>)
    ensures var half := NO_LOC.(spelling := spelling);
            LocationMembers(At(BareDump(expansion, None, arg, LastOf(spelling), Closed(tail)), LastOf(spelling)),
              Expansion, half)
            == Ok(Loc(spelling, expansion, arg), At(tail, LastOf(expansion)))
  {
    BareBack(expansion, None, arg, LastOf(spelling), Closed(tail));
    Ends(At(Closed(tail), LastOf(expansion)), tail);
  }

  lemma {:induction false} SpellingOn(st: State, spelling: Position, after: State, rest: seq<Token>)
    requires Bare(st).Ok? && Bare(st).value.position == spelling && Bare(st).st == after
             && after.tokens == Member(Expansion, rest)
    ensures LocationMembers(st, Spelling, NO_LOC) ==
            LocationMembers(after.(tokens := rest), Expansion, NO_LOC.(spelling := spelling))
  {
    NextKey(after, Expansion, rest);
  }

  lemma {:induction false} SpellingOpens(st: State, first: seq<Token>)
    requires st.tokens == [OpenObject, Text(Spelling), Colon] + first
    ensures Location(st) == LocationMembers(st.(tokens := first), Spelling, NO_LOC)
  {
    OpenKey(st, Spelling, first);
  }

  lemma {:induction false} ExpandedBack(spelling: Position, expansion: Position, arg: bool, last: Last,
                                        tail: seq<Token>)
    ensures Location(At(PlaceDump(Expanded(spelling, expansion, arg), last, tail), last)) ==
            Ok(Loc(spelling, expansion, arg), At(tail, LastOf(expansion)))
  {
    var second := BareDump(expansion, None, arg, LastOf(spelling), Closed(tail));
    var first := BareDump(spelling, None, false, last, Member(Expansion, second));
    SpellingOpens(At(PlaceDump(Expanded(spelling, expansion, arg), last, tail), last), first);
    BareBack(spelling, None, false, last, Member(Expansion, second));
    SpellingOn(At(first, last), spelling, At(Member(Expansion, second), LastOf(spelling)), second);
    ExpansionBack(spelling, expansion, arg, tail);
  }

  // ----- whole nodes -----

  lemma {:induction false} NodeOn(st: State, key: Word, partial: Partial, mode: Mode, now: Partial, after: State,
                                  k: Word, rest: seq<Token>)
    requires NodeField(st, key, partial, mode) == Ok(now, after) && after.tokens == Member(k, rest)
    ensures NodeMembers(st, key, partial, mode) == NodeMembers(after.(tokens := rest), k, now, mode)
  {
    var next := Advance(after);
    assert next.tokens == [Text(k), Colon] + rest;
    assert Advance(Advance(next)).tokens == rest;
  }

  lemma {:induction false} NodeEnds(st: State, key: Word, partial: Partial, mode: Mode, now: Partial, after: State,
                                    tail: seq<Token>)
    requires NodeField(st, key, partial, mode) == Ok(now, after) && after.tokens == Closed(tail)
    ensures NodeMembers(st, key, partial, mode) == Ok(now.node, after.(tokens := tail))
  {
    assert Advance(after).tokens == tail;
  }

  lemma {:induction false} EndBack(begin: Loc, end: Place, last: Last, rest: seq<Token>)
    ensures RangeMembers(At(PlaceDump(end, last, Closed(rest)), last), End, (begin, NO_LOC)) ==
            Ok((begin, LocOf(end)), At(rest, AfterPlace(end, last)))
  {
    PlaceBack(end, last, Closed(rest));
    Ends(At(Closed(rest), AfterPlace(end, last)), rest);
  }

  lemma {:induction false} RangeBack(begin: Place, end: Place, last: Last, rest: seq<Token>)
    ensures SourceRange(At(RangeDump(begin, end, last, rest), last)) ==
            Ok((LocOf(begin), LocOf(end)), At(rest, AfterPlace(end, AfterPlace(begin, last))))
  {
    var l2 := AfterPlace(begin, last);
    var second := PlaceDump(end, l2, Closed(rest));
    var first := PlaceDump(begin, last, Member(End, second));
    OpenKey(At([OpenObject, Text(Begin), Colon] + first, last), Begin, first);
    PlaceBack(begin, last, Member(End, second));
    BeginOn(At(first, last), LocOf(begin), At(Member(End, second), l2), second);
    EndBack(LocOf(begin), end, l2, rest);
  }

  lemma {:induction false} BeginOn(st: State, begin: Loc, after: State, rest: seq<Token>)
    requires Location(st) == Ok(begin, after) && after.tokens == Member(End, rest)
    ensures RangeMembers(st, Begin, (NO_LOC, NO_LOC)) == RangeMembers(after.(tokens := rest), End, (begin, NO_LOC))
  {
    NextKey(after, End, rest);
  }

  const START: Partial := Partial(EMPTY, None)

  lemma {:induction false} IdBack(id: Word, place: seq<Token>, last: Last, mode: Mode)
    ensures ReadNode(At([OpenObject, Text(Id), Colon] + Worded(id, Member(LocKey, place)), last), mode) ==
            NodeMembers(At(place, last), LocKey, START, mode)
  {
    var words := Worded(id, Member(LocKey, place));
    OpenKey(At([OpenObject, Text(Id), Colon] + words, last), Id, words);
    assert Advance(At(words, last)).tokens == Member(LocKey, place);
    NodeOn(At(words, last), Id, START, mode, START, At(Member(LocKey, place), last), LocKey, place);
  }

  lemma {:induction false} LocBack(loc: Place, range: seq<Token>, last: Last, mode: Mode)
    ensures NodeMembers(At(PlaceDump(loc, last, Member(RangeKey, range)), last), LocKey, START, mode)
            == NodeMembers(At(range, AfterPlace(loc, last)), RangeKey, Partial(EMPTY.(loc := LocOf(loc)), None), mode)
  {
    PlaceBack(loc, last, Member(RangeKey, range));
    NodeOn(At(PlaceDump(loc, last, Member(RangeKey, range)), last), LocKey, START, mode,
           Partial(EMPTY.(loc := LocOf(loc)), None), At(Member(RangeKey, range), AfterPlace(loc, last)), RangeKey,
             range);
  }

  /** A node's own places. */
  function OwnOf(n: Ast): Node {
    Node(LocOf(n.loc), LocOf(n.begin), LocOf(n.end), false, [], None)
  }

  function RangeAt(n: Ast, last: Last, tail: seq<Token>): State {
    At(RangeDump(n.begin, n.end, AfterPlace(n.loc, last), ImplicitOn(n, AfterOwn(n, last), tail)),
      AfterPlace(n.loc, last))
  }

  lemma {:induction false} OwnReads(n: Ast, last: Last, tail: seq<Token>, mode: Mode)
    ensures ReadNode(At(NodeDump(n, last, tail), last), mode)
            == NodeMembers(RangeAt(n, last, tail), RangeKey, Partial(EMPTY.(loc := LocOf(n.loc)), None), mode)
  {
    var range := RangeDump(n.begin, n.end, AfterPlace(n.loc, last), ImplicitOn(n, AfterOwn(n, last), tail));
    var place := PlaceDump(n.loc, last, Member(RangeKey, range));
    IdBack(n.id, place, last, mode);
    LocBack(n.loc, range, last, mode);
    assert NodeDump(n, last, tail) == [OpenObject, Text(Id), Colon] + Worded(n.id, Member(LocKey, place));
  }

  lemma {:induction false} RangeField(st: State, partial: Partial, mode: Mode, begin: Loc, end: Loc, after: State)
    requires SourceRange(st) == Ok((begin, end), after)
    ensures NodeField(st, RangeKey, partial, mode) ==
            Ok(partial.(node := partial.node.(begin := begin, end := end)), after)
  {
  }

  lemma {:induction false} OwnRange(n: Ast, last: Last, tail: seq<Token>, mode: Mode)
    ensures NodeField(RangeAt(n, last, tail), RangeKey, Partial(EMPTY.(loc := LocOf(n.loc)), None), mode)
            == Ok(Partial(OwnOf(n), None), At(ImplicitOn(n, AfterOwn(n, last), tail), AfterOwn(n, last)))
  {
    var l1 := AfterPlace(n.loc, last);
    var rest := ImplicitOn(n, AfterOwn(n, last), tail);
    RangeBack(n.begin, n.end, l1, rest);
    RangeField(RangeAt(n, last, tail), Partial(EMPTY.(loc := LocOf(n.loc)), None), mode, LocOf(n.begin), LocOf(n.end),
      At(rest, AfterOwn(n, last)));
  }

  lemma {:induction false} ImplicitField(st: State, own: Node, mode: Mode, rest: seq<Token>)
    requires st.tokens == [Bool(true)] + rest
    ensures NodeField(st, Implicit, Partial(own, None), mode) ==
            Ok(Partial(own.(implicit := true), None), st.(tokens := rest))
  {
    assert Advance(st).tokens == rest;
  }

  /** After `key`, whether a node is implicit and its children are read back. */
  lemma {:induction false} ImplicitBack(n: Ast, st: State, key: Word, before: Partial, last: Last, tail: seq<Token>,
                                        mode: Mode)
    requires NodeField(st, key, before, mode) == Ok(Partial(OwnOf(n), None), At(ImplicitOn(n, last, tail), last))
    ensures NodeMembers(st, key, before, mode) == Ok(NodeOf(n, mode), At(tail, AfterAll(n.inner, last)))
    decreases n, 2
  {
    if n.implicit {
      var rest := [Bool(true)] + InnerOn(n, last, tail);
      NodeOn(st, key, before, mode, Partial(OwnOf(n), None), At(Member(Implicit, rest), last), Implicit, rest);
      var at := At(rest, last);
      ImplicitField(at, OwnOf(n), mode, InnerOn(n, last, tail));
      InnerBack(n, at, Implicit, Partial(OwnOf(n), None), last, tail, mode);
    } else {
      InnerBack(n, st, key, before, last, tail, mode);
    }
  }

  lemma {:induction false} ChildrenField(st: State, own: Node, mode: Mode, items: seq<Token>, now: Node, after: State)
    requires st.tokens == [OpenList] + items && items != [] && items[0] == OpenObject
    requires Items(st.(tokens := items), own, false, Keeps(mode, own)) == Ok(now, after)
    ensures NodeField(st, Inner, Partial(own, None), mode) == Ok(Partial(now, Some(Keeps(mode, own))), after)
  {
    assert Advance(st).tokens == items && Advance(st) == st.(tokens := items);
    assert Open(st, OpenList, CloseList) == Ok(false, st.(tokens := items));
    assert Children(st, own, false, Keeps(mode, own)) == Ok(now, after);
  }

  lemma {:induction false} InnerBack(n: Ast, st: State, key: Word, before: Partial, last: Last, tail: seq<Token>,
                                     mode: Mode)
    requires NodeField(st, key, before, mode) ==
             Ok(Partial(OwnOf(n).(implicit := n.implicit), None), At(InnerOn(n, last, tail), last))
    ensures NodeMembers(st, key, before, mode) == Ok(NodeOf(n, mode), At(tail, AfterAll(n.inner, last)))
    decreases n, 1
  {
    var own := OwnOf(n).(implicit := n.implicit);
    if n.inner == [] {
      NodeEnds(st, key, before, mode, Partial(own, None), At(Closed(tail), last), tail);
    } else {
      var items := ItemsDump(n.inner, last, Closed(tail));
      NodeOn(st, key, before, mode, Partial(own, None), At(Member(Inner, [OpenList] + items), last), Inner,
        [OpenList] + items);
      ListBack(n, own, last, tail, mode);
    }
  }

  lemma {:induction false} ListBack(n: Ast, own: Node, last: Last, tail: seq<Token>, mode: Mode)
    requires n.inner != [] && own == OwnOf(n).(implicit := n.implicit)
    ensures NodeMembers(At([OpenList] + ItemsDump(n.inner, last, Closed(tail)), last), Inner, Partial(own, None), mode)
            == Ok(NodeOf(n, mode), At(tail, AfterAll(n.inner, last)))
    decreases n, 0
  {
    var items := ItemsDump(n.inner, last, Closed(tail));
    var at, end := At([OpenList] + items, last), At(Closed(tail), AfterAll(n.inner, last));
    var keep := Keeps(mode, own);
    ItemsStart(n.inner, last, Closed(tail));
    ItemsBack(n.inner, own, keep, last, Closed(tail));
    ChildrenField(at, own, mode, items, NodeOf(n, mode),
      end) by { assert own.(inner := own.inner + if keep then NodesOf(n.inner) else []) == NodeOf(n, mode); }
    NodeEnds(at, Inner, Partial(own, None), mode, Partial(NodeOf(n, mode), Some(keep)), end, tail);
  }

  lemma {:induction false} ItemsStart(nodes: seq<Ast>, last: Last, tail: seq<Token>)
    requires nodes != []
    ensures var items := ItemsDump(nodes, last, tail); items != [] && items[0] == OpenObject
  {
  }

  /** A child that can be read is kept or skipped with the same state after it. */
  lemma {:induction false} ItemBack(st: State, own: Node, keep: bool, child: Node, after: State)
    requires ReadNode(st, Below) == Ok(child, after) && !after.misread
    ensures Item(st, own, false, keep) == Ok(if keep then own.(inner := own.inner + [child]) else own, after)
  {
    NodeFollows(st, Below);
  }

  lemma {:induction false} ItemsOn(st: State, own: Node, keep: bool, now: Node, after: State, rest: seq<Token>)
    requires Item(st, own, false, keep) == Ok(now, after) && after.tokens == [Comma] + rest
    ensures Items(st, own, false, keep) == Items(after.(tokens := rest), now, false, keep)
  {
    assert Advance(after).tokens == rest;
  }

  lemma {:induction false} ItemsEnd(st: State, own: Node, keep: bool, now: Node, after: State, tail: seq<Token>)
    requires Item(st, own, false, keep) == Ok(now, after) && after.tokens == [CloseList] + tail
    ensures Items(st, own, false, keep) == Ok(now, after.(tokens := tail))
  {
    assert Advance(after).tokens == tail;
  }

  /** Kept children are read back one by one, and those not kept leave the same state. */
  lemma {:induction false} ItemsBack(nodes: seq<Ast>, own: Node, keep: bool, last: Last, tail: seq<Token>)
    requires nodes != []
    ensures Items(At(ItemsDump(nodes, last, tail), last), own, false, keep)
            == Ok(own.(inner := own.inner + if keep then NodesOf(nodes) else []), At(tail, AfterAll(nodes, last)))
    decreases nodes
  {
    var next := AfterNode(nodes[0], last);
    var child := NodeOf(nodes[0], Below);
    var now := if keep then own.(inner := own.inner + [child]) else own;
    var rest := if |nodes| == 1 then [CloseList] + tail else [Comma] + ItemsDump(nodes[1..], next, tail);
    var st := At(NodeDump(nodes[0], last, rest), last);
    NodeBack(nodes[0], last, rest, Below);
    ItemBack(st, own, keep, child, At(rest, next));
    NodesGrow(nodes, own, keep);
    assert ItemsDump(nodes, last, tail) == NodeDump(nodes[0], last, rest);
    if |nodes| == 1 {
      LastItem(nodes, last);
      NoneGrow(now);
      ItemsEnd(st, own, keep, now, At(rest, next), tail);
    } else {
      ItemsOn(st, own, keep, now, At(rest, next), ItemsDump(nodes[1..], next, tail));
      ItemsBack(nodes[1..], now, keep, next, tail);
    }
  }

  lemma {:induction false} LastItem(nodes: seq<Ast>, last: Last)
    requires |nodes| == 1
    ensures AfterAll(nodes, last) == AfterNode(nodes[0], last) && NodesOf(nodes[1..]) == []
  {
    assert nodes[1..] == [];
  }

  lemma {:induction false} NoneGrow(own: Node)
    ensures own.(inner := own.inner + []) == own
  {
    assert own.inner + [] == own.inner;
  }

  lemma {:induction false} NodesGrow(nodes: seq<Ast>, own: Node, keep: bool)
    requires nodes != []
    ensures var now := if keep then own.(inner := own.inner + [NodeOf(nodes[0], Below)]) else own;
            now.(inner := now.inner + if keep then NodesOf(nodes[1..]) else []) ==
              own.(inner := own.inner + if keep then NodesOf(nodes) else [])
  {
    assert own.inner + [NodeOf(nodes[0], Below)] + NodesOf(nodes[1..]) == own.inner + NodesOf(nodes);
  }

  /** A node that was dumped is read back with all its places, whatever was printed before it,
      and what follows it can be read on from the places it printed last. */
  lemma {:induction false} NodeBack(n: Ast, last: Last, tail: seq<Token>, mode: Mode)
    ensures ReadNode(At(NodeDump(n, last, tail), last), mode) == Ok(NodeOf(n, mode), At(tail, AfterNode(n, last)))
    decreases n, 3
  {
    OwnReads(n, last, tail, mode);
    OwnRange(n, last, tail, mode);
    ImplicitBack(n, RangeAt(n, last, tail), RangeKey, Partial(EMPTY.(loc := LocOf(n.loc)), None), AfterOwn(n, last),
      tail, mode);
  }

  /** So is what follows a node that was skipped. */
  lemma {:induction false} SkippedBack(n: Ast, last: Last, tail: seq<Token>)
    ensures Skim(At(NodeDump(n, last, tail), last)).Ok? && Skim(At(NodeDump(n, last, tail), last)).st ==
            At(tail, AfterNode(n, last))
  {
    NodeBack(n, last, tail, Below);
    NodeFollows(At(NodeDump(n, last, tail), last), Below);
  }
}
