/** The decoder that reads and skips a dump in one pass (internal/cproject/decode.go:474-896). */
module DecodeReader {
  import opened DecodeTree

  /** A method gave what its specification says; after a failure nothing is promised of the state. */
  predicate Gives<T(==)>(ok: bool, value: T, now: State, o: Out<T>) {
    match o
    case Ok(v, st) => ok && value == v && now == st
    case Fail => !ok
  }

  class Reader {
    var tokens: seq<Token>
    var file: Word
    var line: int
    ghost var misread: bool

    constructor (tokens: seq<Token>)
      ensures Now() == State(tokens, Other(""), 0, false)
    {
      this.tokens, file, line, misread := tokens, Other(""), 0, false;
    }

    ghost function Now(): State
      reads this
    {
      State(tokens, file, line, misread)
    }

    method Open(open: Token, close: Token) returns (ok: bool, empty: bool)
      modifies this`tokens
      ensures Gives(ok, empty, Now(), DecodeTree.Open(old(Now()), open, close))
    {
      if tokens == [] || tokens[0] != open { return false, false; }
      tokens := tokens[1..];
      if tokens != [] && tokens[0] == close {
        tokens := tokens[1..];
        return true, true;
      }
      return true, false;
    }

    method More(close: Token) returns (ok: bool, more: bool)
      modifies this`tokens
      ensures Gives(ok, more, Now(), DecodeTree.More(old(Now()), close))
    {
      if tokens == [] { return false, false; }
      var t := tokens[0];
      if t != Comma && t != close { return false, false; }
      tokens := tokens[1..];
      return true, t == Comma;
    }

    method ReadKey() returns (ok: bool, key: Word)
      modifies this`tokens
      ensures Gives(ok, key, Now(), DecodeTree.ReadKey(old(Now())))
    {
      if |tokens| < 2 || !tokens[0].Text? || tokens[1] != Colon { return false, Offset; }
      key := tokens[0].word;
      assert tokens[1..][1..] == tokens[2..];
      tokens := tokens[2..];
      ok := true;
    }

    method ReadText() returns (ok: bool, text: Word)
      modifies this`tokens
      ensures Gives(ok, text, Now(), DecodeTree.ReadText(old(Now())))
    {
      if tokens == [] || !tokens[0].Text? { return false, Offset; }
      text := tokens[0].word;
      tokens := tokens[1..];
      ok := true;
    }

    method ReadInt() returns (ok: bool, n: int)
      modifies this`tokens
      ensures Gives(ok, n, Now(), DecodeTree.ReadInt(old(Now())))
    {
      if tokens == [] || !tokens[0].Number? || tokens[0].n.None? { return false, 0; }
      n := tokens[0].n.value;
      tokens := tokens[1..];
      ok := true;
    }

    method ReadBool() returns (ok: bool, b: bool)
      modifies this`tokens
      ensures Gives(ok, b, Now(), DecodeTree.ReadBool(old(Now())))
    {
      if tokens == [] || !tokens[0].Bool? { return false, false; }
      b := tokens[0].b;
      tokens := tokens[1..];
      ok := true;
    }

    /** The first key of an object that is no location. */
    method FirstKey() returns (ok: bool, key: Word)
      modifies this`tokens, this`misread
      ensures Gives(ok, key, Now(), DecodeTree.FirstKey(old(Now())))
    {
      ok, key := ReadKey();
      misread := misread || (ok && key.Offset?);
    }

    /** Skips any value, following every location in it. */
    method Skim() returns (ok: bool)
      modifies this`tokens, this`file, this`line
      ensures Gives(ok, (), Now(), DecodeTree.Skim(old(Now())))
      decreases |tokens|, 2
    {
      if tokens == [] { return false; }
      match tokens[0] {
        case OpenObject =>
          var empty, key;
          ok, empty := Open(OpenObject, CloseObject);
          if !ok || empty { return; }
          ok, key := ReadKey();
          if !ok { return; }
          if key.Offset? {
            var seen;
            ok, seen := BareRest(key);
          } else {
            ok := SkimMembers();
          }
        case OpenList =>
          var empty;
          ok, empty := Open(OpenList, CloseList);
          if !ok || empty { return; }
          ok := SkimItems();
        case Text(_) => tokens := tokens[1..]; ok := true;
        case Number(_) => tokens := tokens[1..]; ok := true;
        case Bool(_) => tokens := tokens[1..]; ok := true;
        case Null => tokens := tokens[1..]; ok := true;
        case _ => ok := false;
      }
    }

    /** Skips the members of an object from a value on. */
    method SkimMembers() returns (ok: bool)
      modifies this`tokens, this`file, this`line
      ensures Gives(ok, (), Now(), DecodeTree.SkimMembers(old(Now())))
      decreases |tokens|, 3
    {
      ghost var goal := DecodeTree.SkimMembers(Now());
      while true
        invariant DecodeTree.SkimMembers(Now()) == goal && |tokens| <= |old(tokens)| && misread == old(misread)
        decreases |tokens|
      {
        ok := Skim();
        if !ok { return; }
        var more, key;
        ok, more := More(CloseObject);
        if !ok || !more { return; }
        ok, key := ReadKey();
        if !ok { return; }
      }
    }

    method SkimItems() returns (ok: bool)
      modifies this`tokens, this`file, this`line
      ensures Gives(ok, (), Now(), DecodeTree.SkimItems(old(Now())))
      decreases |tokens|, 3
    {
      ghost var goal := DecodeTree.SkimItems(Now());
      while true
        invariant DecodeTree.SkimItems(Now()) == goal && |tokens| <= |old(tokens)| && misread == old(misread)
        decreases |tokens|
      {
        ok := Skim();
        if !ok { return; }
        var more;
        ok, more := More(CloseList);
        if !ok || !more { return; }
      }
    }

    /** One member of a bare location. */
    method BareField(key: Word, seen: Seen) returns (ok: bool, now: Seen)
      modifies this`tokens, this`file, this`line
      ensures Gives(ok, now, Now(), DecodeTree.BareField(old(Now()), key, seen))
      decreases |tokens|, 3
    {
      var n: int;
      now := seen;
      match key {
        case Offset => ok, n := ReadInt(); now := seen.(position := seen.position.(offset := n));
        case File =>
          var f;
          ok, f := ReadText();
          now := seen.(file := Some(f));
        case Line => ok, n := ReadInt(); now := seen.(position := seen.position.(line := n), line := true);
        case Col => ok, n := ReadInt(); now := seen.(position := seen.position.(col := n));
        case TokLen => ok, n := ReadInt(); now := seen.(position := seen.position.(tokLen := n));
        case MacroArg =>
          var b;
          ok, b := ReadBool();
          now := seen.(macroArg := b);
        case _ => ok := Skim();
      }
    }

    /** Reads the rest of a bare location and applies it to the elided state. */
    method BareRest(first: Word) returns (ok: bool, seen: Seen)
      modifies this`tokens, this`file, this`line
      ensures Gives(ok, seen, Now(), DecodeTree.BareRest(old(Now()), first, UNSEEN))
      decreases |tokens|, 4
    {
      var key := first;
      seen := UNSEEN;
      ghost var goal := DecodeTree.BareRest(Now(), first, UNSEEN);
      while true
        invariant DecodeTree.BareRest(Now(), key, seen) == goal && |tokens| <= |old(tokens)| && misread == old(misread)
        decreases |tokens|
      {
        ok, seen := BareField(key, seen);
        if !ok { return; }
        var more;
        ok, more := More(CloseObject);
        if !ok { return; }
        if !more {
          if seen.file.Some? { file := seen.file.value; }
          if seen.line { line := seen.position.line; }
          seen := seen.(position := seen.position.(file := file, line := line));
          return;
        }
        ok, key := ReadKey();
        if !ok { return; }
      }
    }

    method Bare() returns (ok: bool, seen: Seen)
      modifies this`tokens, this`file, this`line
      ensures Gives(ok, seen, Now(), DecodeTree.Bare(old(Now())))
    {
      var empty, key;
      seen := UNSEEN;
      ok, empty := Open(OpenObject, CloseObject);
      if !ok || empty { return; }
      ok, key := ReadKey();
      if !ok { return; }
      if key.Offset? { ok, seen := BareRest(key); } else { ok := SkimMembers(); }
    }

    method LocationField(key: Word, loc: Loc) returns (ok: bool, now: Loc)
      modifies this`tokens, this`file, this`line
      ensures Gives(ok, now, Now(), DecodeTree.LocationField(old(Now()), key, loc))
    {
      var seen;
      match key {
        case Spelling => ok, seen := Bare(); now := loc.(spelling := seen.position);
        case Expansion => ok, seen := Bare(); now := loc.(expansion := seen.position, macroArg := seen.macroArg);
        case _ => ok := Skim(); now := loc;
      }
    }

    /** Reads a source location: a bare one, or where a macro was spelled and expanded. */
    method Location() returns (ok: bool, loc: Loc)
      modifies this`tokens, this`file, this`line
      ensures Gives(ok, loc, Now(), DecodeTree.Location(old(Now())))
    {
      var empty, key;
      loc := NO_LOC;
      ok, empty := Open(OpenObject, CloseObject);
      if !ok || empty { return; }
      ok, key := ReadKey();
      if !ok { return; }
      if key.Offset? {
        var seen;
        ok, seen := BareRest(key);
        loc := Loc(seen.position, seen.position, false);
        return;
      }
      ghost var goal := DecodeTree.LocationMembers(Now(), key, loc);
      while true
        invariant DecodeTree.LocationMembers(Now(), key, loc) == goal && misread == old(misread)
        decreases |tokens|
      {
        ok, loc := LocationField(key, loc);
        if !ok { return; }
        var more;
        ok, more := More(CloseObject);
        if !ok || !more { return; }
        ok, key := ReadKey();
        if !ok { return; }
      }
    }

    method RangeField(key: Word, range: (Loc, Loc)) returns (ok: bool, now: (Loc, Loc))
      modifies this`tokens, this`file, this`line
      ensures Gives(ok, now, Now(), DecodeTree.RangeField(old(Now()), key, range))
    {
      var loc;
      match key {
        case Begin => ok, loc := Location(); now := (loc, range.1);
        case End => ok, loc := Location(); now := (range.0, loc);
        case _ => ok := Skim(); now := range;
      }
    }

    method SourceRange() returns (ok: bool, range: (Loc, Loc))
      modifies this`tokens, this`file, this`line, this`misread
      ensures Gives(ok, range, Now(), DecodeTree.SourceRange(old(Now())))
    {
      var empty, key;
      range := (NO_LOC, NO_LOC);
      ok, empty := Open(OpenObject, CloseObject);
      if !ok || empty { return; }
      ok, key := FirstKey();
      if !ok { return; }
      ok, range := RangeMembers(key);
    }

    method RangeMembers(first: Word) returns (ok: bool, range: (Loc, Loc))
      modifies this`tokens, this`file, this`line
      ensures Gives(ok, range, Now(), DecodeTree.RangeMembers(old(Now()), first, (NO_LOC, NO_LOC)))
    {
      var key := first;
      range := (NO_LOC, NO_LOC);
      ghost var goal := DecodeTree.RangeMembers(Now(), key, range);
      while true
        invariant DecodeTree.RangeMembers(Now(), key, range) == goal && misread == old(misread)
        decreases |tokens|
      {
        ok, range := RangeField(key, range);
        if !ok { return; }
        var more;
        ok, more := More(CloseObject);
        if !ok || !more { return; }
        ok, key := ReadKey();
        if !ok { return; }
      }
    }

    method PlainField(key: Word, shape: Shape) returns (ok: bool)
      modifies this`tokens, this`file, this`line, this`misread
      ensures Gives(ok, (), Now(), DecodeTree.PlainField(old(Now()), key, shape))
      decreases |tokens|, Depth(shape), 0
    {
      var text;
      match shape {
        case TypeShape =>
          if key.QualType? || key.Desugared? { ok, text := ReadText(); } else { ok := Skim(); }
        case RefShape =>
          if key.Id? || key.Kind? || key.Name? { ok, text := ReadText(); }
          else if key.TypeKey? { ok := Plain(TypeShape); }
          else { ok := Skim(); }
      }
    }

    /** Reads a type or a reference to a declaration. */
    method Plain(shape: Shape) returns (ok: bool)
      modifies this`tokens, this`file, this`line, this`misread
      ensures Gives(ok, (), Now(), DecodeTree.Plain(old(Now()), shape))
      decreases |tokens|, Depth(shape), 2
    {
      var empty, key;
      ok, empty := Open(OpenObject, CloseObject);
      if !ok || empty { return; }
      ok, key := FirstKey();
      if !ok { return; }
      ok := PlainMembers(key, shape);
    }

    method PlainMembers(first: Word, shape: Shape) returns (ok: bool)
      modifies this`tokens, this`file, this`line, this`misread
      ensures Gives(ok, (), Now(), DecodeTree.PlainMembers(old(Now()), first, shape))
      decreases |tokens|, Depth(shape), 1
    {
      var key := first;
      ghost var goal := DecodeTree.PlainMembers(Now(), key, shape);
      while true
        invariant DecodeTree.PlainMembers(Now(), key, shape) == goal && |tokens| <= |old(tokens)|
        decreases |tokens|
      {
        ok := PlainField(key, shape);
        if !ok { return; }
        var more;
        ok, more := More(CloseObject);
        if !ok || !more { return; }
        ok, key := ReadKey();
        if !ok { return; }
      }
    }

    predicate TellsPlace(key: Word) {
      key.LocKey? || key.RangeKey? || key.Implicit?
    }

    /** A member of a node. */
    method NodeField(key: Word, partial: Partial, mode: Mode) returns (ok: bool, now: Partial)
      modifies this`tokens, this`file, this`line, this`misread
      ensures Gives(ok, now, Now(), DecodeTree.NodeField(old(Now()), key, partial, mode))
      decreases |tokens|, 4
    {
      if TellsPlace(key) {
        ok, now := PlaceField(key, partial, mode);
      } else {
        ok, now := OtherField(key, partial, mode);
      }
    }

    method PlaceField(key: Word, partial: Partial, ghost mode: Mode) returns (ok: bool, now: Partial)
      requires TellsPlace(key)
      modifies this`tokens, this`file, this`line, this`misread
      ensures Gives(ok, now, Now(), DecodeTree.NodeField(old(Now()), key, partial, mode))
    {
      var node := partial.node;
      if key.LocKey? {
        var loc;
        ok, loc := Location();
        now := partial.(node := node.(loc := loc));
      } else if key.RangeKey? {
        var r;
        ok, r := SourceRange();
        now := partial.(node := node.(begin := r.0, end := r.1));
      } else {
        var b;
        ok, b := ReadBool();
        now := partial.(node := node.(implicit := b));
      }
    }

    method OtherField(key: Word, partial: Partial, mode: Mode) returns (ok: bool, now: Partial)
      requires !TellsPlace(key)
      modifies this`tokens, this`file, this`line, this`misread
      ensures Gives(ok, now, Now(), DecodeTree.NodeField(old(Now()), key, partial, mode))
      decreases |tokens|, 3, 2
    {
      now := partial;
      if key.Id? || key.Kind? || key.Name? || key.TextKey? {
        var text;
        ok, text := ReadText();
      } else if key.FlagKey? {
        var b;
        ok, b := ReadBool();
      } else if key.TypeKey? || key.RefKey? {
        ok := Plain(if key.TypeKey? then TypeShape else RefShape);
      } else if key.Inner? || key.Filler? {
        ok, now := ChildrenOf(partial, key.Filler?, mode);
      } else {
        ok := Skim();
      }
    }

    /** Children follow every attribute, so whether they are kept is decided here, once. */
    method ChildrenOf(partial: Partial, filler: bool, mode: Mode) returns (ok: bool, now: Partial)
      modifies this`tokens, this`file, this`line, this`misread
      ensures Gives(ok, now, Now(), DecodeTree.ChildrenOf(old(Now()), Decide(partial, mode), filler))
      decreases |tokens|, 3, 1
    {
      now := partial;
      if partial.keep.None? { now := partial.(keep := Some(Keeps(mode, partial.node))); }
      var node;
      ok, node := Children(now.node, filler, now.keep.value);
      now := now.(node := node);
    }

    /** Reads one node. */
    method ReadNode(mode: Mode) returns (ok: bool, node: Node)
      modifies this`tokens, this`file, this`line, this`misread
      ensures Gives(ok, node, Now(), DecodeTree.ReadNode(old(Now()), mode))
      decreases |tokens|, 2
    {
      var empty, key;
      node := EMPTY;
      ok, empty := Open(OpenObject, CloseObject);
      if !ok || empty { return; }
      ok, key := FirstKey();
      if !ok { return; }
      ok, node := NodeMembers(key, mode);
    }

    method NodeMembers(first: Word, mode: Mode) returns (ok: bool, node: Node)
      modifies this`tokens, this`file, this`line, this`misread
      ensures Gives(ok, node, Now(), DecodeTree.NodeMembers(old(Now()), first, Partial(EMPTY, None), mode))
      decreases |tokens|, 5
    {
      var key, partial := first, Partial(EMPTY, None);
      node := EMPTY;
      ghost var goal := DecodeTree.NodeMembers(Now(), key, partial, mode);
      while true
        invariant DecodeTree.NodeMembers(Now(), key, partial, mode) == goal && |tokens| <= |old(tokens)|
        decreases |tokens|
      {
        ok, partial := NodeField(key, partial, mode);
        if !ok { return; }
        node := partial.node;
        var more;
        ok, more := More(CloseObject);
        if !ok || !more { return; }
        ok, key := ReadKey();
        if !ok { return; }
      }
    }

    /** Reads a child array, of children that are kept or only followed. */
    method Children(node: Node, filler: bool, keep: bool) returns (ok: bool, now: Node)
      modifies this`tokens, this`file, this`line, this`misread
      ensures Gives(ok, now, Now(), DecodeTree.Children(old(Now()), node, filler, keep))
      decreases |tokens|, 3, 0
    {
      var empty;
      now := node;
      ok, empty := Open(OpenList, CloseList);
      if !ok || empty { return; }
      var first := filler;
      ghost var goal := DecodeTree.Items(Now(), now, first, keep);
      while true
        invariant DecodeTree.Items(Now(), now, first, keep) == goal && |tokens| < |old(tokens)|
        decreases |tokens|
      {
        ok, now := Item(now, first, keep);
        if !ok { return; }
        first := false;
        var more;
        ok, more := More(CloseList);
        if !ok || !more { return; }
      }
    }

    method Item(node: Node, filler: bool, keep: bool) returns (ok: bool, now: Node)
      modifies this`tokens, this`file, this`line, this`misread
      ensures Gives(ok, now, Now(), DecodeTree.Item(old(Now()), node, filler, keep))
      decreases |tokens|, 3
    {
      now := node;
      if keep {
        var child;
        ok, child := ReadNode(Below);
        if filler { now := node.(filler := Some(child)); } else { now := node.(inner := node.inner + [child]); }
      } else {
        ok := Skim();
      }
    }
  }
}
