/** Written Clojure and what reading it gives (internal/clojureproject/source.go:38-121): forms as
    the language writes them, their text, and that reading the text gives these forms back, each
    where it stands, without the discarded ones. */
module ClojureWritten {
  import opened Characters
  import opened ClojureReader

  // ----- forms as they are written, and where they stand -----

  /** White space, commas, and comments with the line break that ends them. */
  datatype Blanks =
    | Nothing(at: nat) | White(at: nat, c: char, more: Blanks) | Comma(at: nat, more: Blanks)
    | Comment(at: nat, words: string, more: Blanks)

  /** The characters of a string, as they are or behind a backslash, and the quote that ends it. */
  datatype Pieces = Quote | Raw(c: char, rest: Pieces) | Escaped(c: char, rest: Pieces)

  /** What stands before a form: ' ` @ ~ ~@ #' #_ #= # or a tag behind #. */
  datatype Mark = Tick | Backtick | At | Tilde | Splice | Var | Discard | Eval | Hash | Tag(name: string)

  datatype Written =
    | Word(at: nat, word: string)
    | Glyph(at: nat, c: char, letters: string)
    | Literal(at: nat, pieces: Pieces)
    | Listed(at: nat, open: char, items: Items)
    | Marked(at: nat, before: Blanks, meta: Written, between: Blanks, form: Written)
    | Quoted(at: nat, mark: Mark, before: Blanks, form: Written)

  /** Forms one after the other, each behind what stands between them. */
  datatype Items = End(blanks: Blanks) | More(blanks: Blanks, form: Written, rest: Items)

  /** The white space of Unicode. */
  predicate IsWhite(c: char) {
    c as int in {
      0x09, 0x0A, 0x0B, 0x0C, 0x0D, 0x20, 0x85, 0xA0, 0x1680, 0x2000, 0x2001, 0x2002, 0x2003, 0x2004, 0x2005,
      0x2006, 0x2007, 0x2008, 0x2009, 0x200A, 0x2028, 0x2029, 0x202F, 0x205F, 0x3000}
  }

  /** No word goes on past one of these. */
  predicate IsDelimiter(c: char) {
    IsWhite(c) || c in {'(', ')', '[', ']', '{', '}', '\"', ',', ';'}
  }

  /** These begin something else than a word. */
  predicate IsMark(c: char) {
    c in {'\\', '^', '\'', '`', '@', '~', '#'}
  }

  function Closer(open: char): char {
    if open == '(' then ')' else if open == '[' then ']' else '}'
  }

  // ----- their text -----

  function BlankText(bs: Blanks): string {
    match bs
    case Nothing(_) => ""
    case White(_, c, more) => [c] + BlankText(more)
    case Comma(_, more) => "," + BlankText(more)
    case Comment(_, words, more) => ";" + (words + ("\n" + BlankText(more)))
  }

  function PieceText(ps: Pieces): string {
    match ps
    case Quote => "\""
    case Raw(c, rest) => [c] + PieceText(rest)
    case Escaped(c, rest) => ['\\', c] + PieceText(rest)
  }

  function MarkText(m: Mark): string {
    match m
    case Tick => "'"
    case Backtick => "`"
    case At => "@"
    case Tilde => "~"
    case Splice => "~@"
    case Var => "#'"
    case Discard => "#_"
    case Eval => "#="
    case Hash => "#"
    case Tag(name) => "#" + name
  }

  function Print(w: Written): string {
    match w
    case Word(_, word) => word
    case Glyph(_, c, letters) => ['\\', c] + letters
    case Literal(_, pieces) => "\"" + PieceText(pieces)
    case Listed(_, open, items) => [open] + (PrintItems(items) + [Closer(open)])
    case Marked(_, before, meta, between, form) =>
      "^" + ((BlankText(before) + Print(meta)) + (BlankText(between) + Print(form)))
    case Quoted(_, mark, before, form) => MarkText(mark) + (BlankText(before) + Print(form))
  }

  function PrintItems(items: Items): string {
    match items
    case End(blanks) => BlankText(blanks)
    case More(blanks, form, rest) => (BlankText(blanks) + Print(form)) + PrintItems(rest)
  }

  // ----- where they end -----

  function BlankEnd(bs: Blanks): nat {
    match bs
    case Nothing(at) => at
    case White(_, _, more) => BlankEnd(more)
    case Comma(_, more) => BlankEnd(more)
    case Comment(_, _, more) => BlankEnd(more)
  }

  function PieceSize(ps: Pieces): nat {
    match ps
    case Quote => 1
    case Raw(_, rest) => 1 + PieceSize(rest)
    case Escaped(_, rest) => 2 + PieceSize(rest)
  }

  function Finish(w: Written): nat {
    match w
    case Word(at, word) => at + |word|
    case Glyph(at, _, letters) => at + 2 + |letters|
    case Literal(at, pieces) => at + 1 + PieceSize(pieces)
    case Listed(_, _, items) => ItemsEnd(items) + 1
    case Marked(_, _, _, _, form) => Finish(form)
    case Quoted(_, _, _, form) => Finish(form)
  }

  function ItemsEnd(items: Items): nat {
    match items
    case End(blanks) => BlankEnd(blanks)
    case More(_, _, rest) => ItemsEnd(rest)
  }

  // ----- which of them are well written -----

  predicate BlanksOk(bs: Blanks) {
    match bs
    case Nothing(_) => true
    case White(_, c, more) => IsWhite(c) && BlanksOk(more)
    case Comma(_, more) => BlanksOk(more)
    case Comment(_, words, more) => '\n' !in words && BlanksOk(more)
  }

  predicate PiecesOk(ps: Pieces) {
    match ps
    case Quote => true
    case Raw(c, rest) => c != '\"' && c != '\\' && PiecesOk(rest)
    case Escaped(_, rest) => PiecesOk(rest)
  }

  /** Nothing in it ends a word. */
  predicate IsSolid(s: string) {
    forall k :: 0 <= k < |s| ==> !IsDelimiter(s[k])
  }

  /** It ends in a word, which would go on into a word right behind it. */
  predicate IsOpen(w: Written) {
    match w
    case Word(_, _) => true
    case Glyph(_, _, _) => true
    case Literal(_, _) => false
    case Listed(_, _, _) => false
    case Marked(_, _, _, _, form) => IsOpen(form)
    case Quoted(_, _, _, form) => IsOpen(form)
  }

  /** What may stand behind a prefix: # alone stands right before a list, a map or a string, or is a
      tag without a name; a tag's name is a word. */
  predicate MarkOk(m: Mark, next: char) {
    match m
    case Tilde => next != '@'
    case Hash => IsDelimiter(next)
    case Tag(name) =>
      name != "" && name[0] != '\'' && name[0] != '_' && name[0] != '=' && IsSolid(name) && IsDelimiter(next)
    case _ => true
  }

  /** Each part is written as it may be. */
  predicate Sound(w: Written) {
    match w
    case Word(_, word) => word != "" && !IsMark(word[0]) && IsSolid(word)
    case Glyph(_, _, letters) => IsSolid(letters)
    case Literal(_, pieces) => PiecesOk(pieces)
    case Listed(_, open, items) => open in {'(', '[', '{'} && SoundItems(items)
    case Marked(_, before, meta, between, form) => BlanksOk(before) && Sound(meta) && BlanksOk(between) && Sound(form)
    case Quoted(_, _, before, form) => BlanksOk(before) && Sound(form)
  }

  predicate SoundItems(items: Items) {
    match items
    case End(blanks) => BlanksOk(blanks)
    case More(blanks, form, rest) => BlanksOk(blanks) && Sound(form) && SoundItems(rest)
  }

  /** The text ends a word that stands before it. */
  predicate Parts(s: string) {
    s == "" || IsDelimiter(s[0])
  }

  /** And no part runs into the next one. */
  predicate Spaced(w: Written) {
    match w
    case Word(_, _) => true
    case Glyph(_, _, _) => true
    case Literal(_, _) => true
    case Listed(_, _, items) => SpacedItems(items)
    case Marked(_, _, meta, between, form) =>
      Spaced(meta) && Spaced(form) && (IsOpen(meta) ==> Parts(BlankText(between) + Print(form)))
    case Quoted(_, mark, before, form) =>
      var follow := BlankText(before) + Print(form);
      Spaced(form) && follow != "" && MarkOk(mark, follow[0])
  }

  predicate SpacedItems(items: Items) {
    items.More? ==>
      Spaced(items.form) && SpacedItems(items.rest) && (IsOpen(items.form) ==> Parts(PrintItems(items.rest)))
  }

  /** Blanks stand at `at`, and end at `end`. */
  predicate BlanksIn(at: nat, bs: Blanks, end: nat)
    decreases bs
  {
    bs.at == at &&
    match bs
    case Nothing(_) => at == end
    case White(_, _, more) => BlanksIn(at + 1, more, end)
    case Comma(_, more) => BlanksIn(at + 1, more, end)
    case Comment(_, words, more) => BlanksIn(at + 1 + |words| + 1, more, end)
  }

  /** The parts stand one behind the other. */
  predicate InPlace(w: Written) {
    match w
    case Word(_, _) => true
    case Glyph(_, _, _) => true
    case Literal(_, _) => true
    case Listed(at, _, items) => ItemsInPlace(at + 1, items)
    case Marked(at, before, meta, between, form) =>
      && BlanksIn(at + 1, before, meta.at) && InPlace(meta) && BlanksIn(Finish(meta), between, form.at) && InPlace(form)
    case Quoted(at, mark, before, form) => BlanksIn(at + |MarkText(mark)|, before, form.at) && InPlace(form)
  }

  predicate ItemsInPlace(at: nat, items: Items)
    decreases items
  {
    match items
    case End(blanks) => BlanksIn(at, blanks, BlankEnd(blanks))
    case More(blanks, form, rest) =>
      BlanksIn(at, blanks, form.at) && InPlace(form) && ItemsInPlace(Finish(form), rest)
  }

  predicate WellWritten(w: Written) {
    Sound(w) && Spaced(w) && InPlace(w)
  }

  predicate IsDiscard(w: Written) {
    w.Quoted? && w.mark.Discard?
  }

  // ----- what they are read as -----

  function Reading(w: Written): Form {
    Form(w.at, Finish(w), if w.Listed? then Readings(w.items) else [])
  }

  function Readings(items: Items): seq<Form> {
    match items
    case End(_) => []
    case More(_, form, rest) => (if IsDiscard(form) then [] else [Reading(form)]) + Readings(rest)
  }

  // ----- where the parts stand in a text -----

  /** The text has `s` from `at` to `end`. */
  predicate Has(text: string, at: nat, s: string, end: nat) {
    at + |s| == end <= |text| && text[at..end] == s
  }

  lemma {:induction false} HasAt(text: string, at: nat, s: string, end: nat, k: nat)
    requires Has(text, at, s, end) && k < |s|
    ensures at + k < |text| && text[at + k] == s[k]
  {
    assert text[at..end][k] == text[at + k];
  }

  lemma {:induction false} HasParts(text: string, at: nat, a: string, b: string, end: nat) returns (mid: nat)
    requires Has(text, at, a + b, end)
    ensures mid == at + |a| && Has(text, at, a, mid) && Has(text, mid, b, end)
  {
    mid := at + |a|;
    var all := a + b;
    assert all[..|a|] == a && all[|a|..] == b;
    assert text[at..mid] == text[at..end][..|a|];
    assert text[mid..end] == text[at..end][|a|..];
  }

  lemma {:induction false} HasHead(text: string, at: nat, c: char, b: string, end: nat)
    requires Has(text, at, [c] + b, end)
    ensures at < |text| && text[at] == c && Has(text, at + 1, b, end)
  {
    var mid := HasParts(text, at, [c], b, end);
    HasAt(text, at, [c], mid, 0);
  }

  /** A word does not go on here. */
  predicate Stops(text: string, at: nat) {
    at == |text| || (at < |text| && IsDelimiter(text[at]))
  }

  predicate StandBlanks(text: string, bs: Blanks) {
    match bs
    case Nothing(at) => at <= |text|
    case White(at, c, more) => at < |text| && text[at] == c && more.at == at + 1 && StandBlanks(text, more)
    case Comma(at, more) => at < |text| && text[at] == ',' && more.at == at + 1 && StandBlanks(text, more)
    case Comment(at, words, more) =>
      && at < |text| && text[at] == ';' && more.at > 0 && Has(text, at + 1, words, more.at - 1)
      && more.at <= |text| && text[more.at - 1] == '\n' && StandBlanks(text, more)
  }

  predicate StandPieces(text: string, at: nat, ps: Pieces, end: nat)
    decreases ps
  {
    at < |text| &&
    match ps
    case Quote => text[at] == '\"' && end == at + 1
    case Raw(c, rest) => text[at] == c && StandPieces(text, at + 1, rest, end)
    case Escaped(c, rest) =>
      text[at] == '\\' && at + 1 < |text| && text[at + 1] == c && StandPieces(text, at + 2, rest, end)
  }

  predicate Stands(text: string, w: Written) {
    w.at < |text| && Finish(w) <= |text| &&
    match w
    case Word(at, word) => Has(text, at, word, Finish(w)) && Stops(text, Finish(w))
    case Glyph(at, c, letters) =>
      text[at] == '\\' && Has(text, at + 2, letters, Finish(w)) && Stops(text, Finish(w))
    case Literal(at, pieces) => text[at] == '\"' && StandPieces(text, at + 1, pieces, Finish(w))
    case Listed(at, open, items) =>
      && text[at] == open && items.blanks.at == at + 1 && StandItems(text, items)
      && text[ItemsEnd(items)] == Closer(open)
    case Marked(at, before, meta, between, form) =>
      && text[at] == '^' && before.at == at + 1 && StandBlanks(text, before) && BlankEnd(before) == meta.at
      && Stands(text, meta) && between.at == Finish(meta) && StandBlanks(text, between)
      && BlankEnd(between) == form.at && Stands(text, form)
    case Quoted(at, mark, before, form) =>
      && Has(text, at, MarkText(mark), before.at) && before.at < |text| && MarkOk(mark, text[before.at])
      && StandBlanks(text, before) && BlankEnd(before) == form.at && Stands(text, form)
  }

  predicate StandItems(text: string, items: Items) {
    StandBlanks(text, items.blanks) && ItemsEnd(items) <= |text| &&
    (items.More? ==>
       && BlankEnd(items.blanks) == items.form.at && Stands(text, items.form)
       && items.rest.blanks.at == Finish(items.form) && StandItems(text, items.rest))
  }

  // ----- in printed text they stand so -----

  lemma {:induction false} PrintedBlanks(text: string, at: nat, bs: Blanks, end: nat)
    requires Has(text, at, BlankText(bs), end) && BlanksIn(at, bs, BlankEnd(bs))
    ensures StandBlanks(text, bs) && BlankEnd(bs) == end
    decreases bs
  {
    match bs
    case Nothing(_) =>
    case White(_, c, more) =>
      HasHead(text, at, c, BlankText(more), end);
      PrintedBlanks(text, at + 1, more, end);
    case Comma(_, more) =>
      HasHead(text, at, ',', BlankText(more), end);
      PrintedBlanks(text, at + 1, more, end);
    case Comment(_, words, more) =>
      var next := PrintedComment(text, at, words, BlankText(more), end);
      PrintedBlanks(text, next, more, end);
  }

  lemma {:induction false} PrintedComment(text: string, at: nat, words: string, more: string, end: nat)
    returns (next: nat)
    requires Has(text, at, ";" + (words + ("\n" + more)), end)
    ensures next == at + 1 + |words| + 1 && at < next - 1 < |text| && text[at] == ';' && text[next - 1] == '\n'
    ensures Has(text, at + 1, words, next - 1) && Has(text, next, more, end)
  {
    HasHead(text, at, ';', words + ("\n" + more), end);
    var line := HasParts(text, at + 1, words, "\n" + more, end);
    HasHead(text, line, '\n', more, end);
    next := line + 1;
  }

  lemma {:induction false} BlanksInEnd(at: nat, bs: Blanks, end: nat)
    requires BlanksIn(at, bs, end)
    ensures BlankEnd(bs) == end && bs.at == at
    decreases bs
  {
    match bs
    case Nothing(_) =>
    case White(_, _, more) => BlanksInEnd(at + 1, more, end);
    case Comma(_, more) => BlanksInEnd(at + 1, more, end);
    case Comment(_, words, more) => BlanksInEnd(at + 1 + |words| + 1, more, end);
  }

  lemma {:induction false} PrintedPieces(text: string, at: nat, ps: Pieces, end: nat)
    requires Has(text, at, PieceText(ps), end)
    ensures StandPieces(text, at, ps, end) && end == at + PieceSize(ps)
    decreases ps
  {
    match ps
    case Quote => HasAt(text, at, PieceText(ps), end, 0);
    case Raw(c, rest) =>
      HasHead(text, at, c, PieceText(rest), end);
      PrintedPieces(text, at + 1, rest, end);
    case Escaped(c, rest) =>
      HasAt(text, at, PieceText(ps), end, 0);
      HasAt(text, at, PieceText(ps), end, 1);
      var next := HasParts(text, at, ['\\', c], PieceText(rest), end);
      PrintedPieces(text, next, rest, end);
  }

  lemma {:induction false} PartsThere(text: string, at: nat, s: string, end: nat)
    requires Has(text, at, s, end) && Parts(s) && (s == "" ==> Stops(text, at))
    ensures Stops(text, at)
  {
    if s != "" { HasAt(text, at, s, end, 0); }
  }

  lemma {:induction false} Printed(text: string, w: Written, end: nat)
    requires WellWritten(w) && Has(text, w.at, Print(w), end) && (IsOpen(w) ==> Stops(text, end))
    ensures Stands(text, w) && Finish(w) == end
    decreases w, 2
  {
    match w
    case Word(_, _) =>
    case Glyph(at, c, letters) => GlyphParts(text, at, c, letters, end);
    case Literal(at, pieces) =>
      HasHead(text, at, '\"', PieceText(pieces), end);
      PrintedPieces(text, at + 1, pieces, end);
    case Listed(_, _, _) => PrintedList(text, w, end);
    case Marked(_, _, _, _, _) => PrintedMeta(text, w, end);
    case Quoted(_, _, _, _) => PrintedQuote(text, w, end);
  }

  lemma {:induction false} GlyphParts(text: string, at: nat, c: char, letters: string, end: nat)
    requires Has(text, at, ['\\', c] + letters, end)
    ensures at + 2 <= end && text[at] == '\\' && text[at + 1] == c && Has(text, at + 2, letters, end)
  {
    HasAt(text, at, ['\\', c] + letters, end, 0);
    HasAt(text, at, ['\\', c] + letters, end, 1);
    var mid := HasParts(text, at, ['\\', c], letters, end);
  }

  lemma {:induction false} ListParts(text: string, at: nat, open: char, inside: string, close: char, end: nat)
    requires Has(text, at, [open] + (inside + [close]), end)
    ensures at + 2 <= end && text[at] == open && Has(text, at + 1, inside, end - 1) && text[end - 1] == close
  {
    HasHead(text, at, open, inside + [close], end);
    var mid := HasParts(text, at + 1, inside, [close], end);
    HasAt(text, mid, [close], end, 0);
  }

  lemma {:induction false} PrintedList(text: string, w: Written, end: nat)
    requires w.Listed? && WellWritten(w) && Has(text, w.at, Print(w), end)
    ensures Stands(text, w) && Finish(w) == end
    decreases w, 1
  {
    ListParts(text, w.at, w.open, PrintItems(w.items), Closer(w.open), end);
    PrintedItems(text, w.at + 1, w.items, end - 1);
    ItemsAt(w.at + 1, w.items);
  }

  lemma {:induction false} ItemsAt(at: nat, items: Items)
    requires ItemsInPlace(at, items)
    ensures items.blanks.at == at
  {
  }

  /** A form behind blanks. */
  lemma {:induction false} PrintedTail(text: string, at: nat, bs: Blanks, form: Written, end: nat)
    requires Has(text, at, BlankText(bs) + Print(form), end) && BlanksIn(at, bs, form.at) && WellWritten(form)
    requires IsOpen(form) ==> Stops(text, end)
    ensures StandBlanks(text, bs) && bs.at == at && BlankEnd(bs) == form.at && Stands(text, form) && Finish(form) == end
    decreases form, 3
  {
    var mid := HasParts(text, at, BlankText(bs), Print(form), end);
    BlanksInEnd(at, bs, form.at);
    PrintedBlanks(text, at, bs, mid);
    Printed(text, form, end);
  }

  lemma {:induction false} StandMeta(text: string, w: Written)
    requires w.Marked? && w.at < |text| && text[w.at] == '^' && w.before.at == w.at + 1
    requires StandBlanks(text, w.before) && BlankEnd(w.before) == w.meta.at && Stands(text, w.meta)
    requires w.between.at == Finish(w.meta) && StandBlanks(text, w.between)
    requires BlankEnd(w.between) == w.form.at && Stands(text, w.form)
    ensures Stands(text, w)
  {
  }

  lemma {:induction false} PrintedMeta(text: string, w: Written, end: nat)
    requires w.Marked? && WellWritten(w) && Has(text, w.at, Print(w), end) && (IsOpen(w.form) ==> Stops(text, end))
    ensures Stands(text, w) && Finish(w) == end
    decreases w, 1
  {
    var first, tail := BlankText(w.before) + Print(w.meta), BlankText(w.between) + Print(w.form);
    HasHead(text, w.at, '^', first + tail, end);
    var mid := HasParts(text, w.at + 1, first, tail, end);
    PrintedBoth(text, w, first, mid, tail, end);
  }

  lemma {:induction false} PrintedBoth(text: string, w: Written, first: string, mid: nat, tail: string, end: nat)
    requires w.Marked? && first == BlankText(w.before) + Print(w.meta) && tail == BlankText(w.between) + Print(w.form)
    requires w.at < |text| && text[w.at] == '^'
    requires Has(text, w.at + 1, first, mid) && Has(text, mid, tail, end)
    requires BlanksIn(w.at + 1, w.before, w.meta.at) && WellWritten(w.meta) && (IsOpen(w.meta) ==> Parts(tail))
    requires BlanksIn(Finish(w.meta), w.between, w.form.at) && WellWritten(w.form)
    requires IsOpen(w.form) ==> Stops(text, end)
    ensures Stands(text, w) && Finish(w) == end
    decreases w, 0
  {
    if IsOpen(w.meta) {
      FirstOf(w.form);
      PartsThere(text, mid, tail, end);
    }
    PrintedTail(text, w.at + 1, w.before, w.meta, mid);
    PrintedTail(text, mid, w.between, w.form, end);
    StandMeta(text, w);
  }

  lemma {:induction false} PrintedQuote(text: string, w: Written, end: nat)
    requires w.Quoted? && WellWritten(w) && Has(text, w.at, Print(w), end) && (IsOpen(w.form) ==> Stops(text, end))
    ensures Stands(text, w) && Finish(w) == end
    decreases w, 1
  {
    var follow := BlankText(w.before) + Print(w.form);
    var mid := HasParts(text, w.at, MarkText(w.mark), follow, end);
    HasAt(text, mid, follow, end, 0);
    PrintedTail(text, mid, w.before, w.form, end);
  }

  lemma {:induction false} PrintedItems(text: string, at: nat, items: Items, end: nat)
    requires SpacedItems(items) && SoundItems(items) && ItemsInPlace(at, items) && Has(text, at, PrintItems(items), end)
    requires Stops(text, end)
    ensures StandItems(text, items) && ItemsEnd(items) == end
    decreases items, 5
  {
    if items.End? {
      PrintedBlanks(text, at, items.blanks, end);
    } else {
      var first, rest := BlankText(items.blanks) + Print(items.form), PrintItems(items.rest);
      var mid := HasParts(text, at, first, rest, end);
      if IsOpen(items.form) { PartsThere(text, mid, rest, end); }
      PrintedMore(text, at, items, mid, end);
    }
  }

  lemma {:induction false} PrintedMore(text: string, at: nat, items: Items, mid: nat, end: nat)
    requires items.More? && Has(text, at, BlankText(items.blanks) + Print(items.form), mid)
    requires BlanksIn(at, items.blanks, items.form.at) && WellWritten(items.form)
    requires IsOpen(items.form) ==> Stops(text, mid)
    requires SoundItems(items.rest) && SpacedItems(items.rest) && ItemsInPlace(Finish(items.form), items.rest)
    requires Has(text, mid, PrintItems(items.rest), end) && Stops(text, end)
    ensures StandItems(text, items) && ItemsEnd(items) == end
    decreases items, 4
  {
    PrintedTail(text, at, items.blanks, items.form, mid);
    ItemsAt(mid, items.rest);
    PrintedItems(text, mid, items.rest, end);
  }

  /** Text a form can begin with. */
  predicate Leads(c: char) {
    !IsWhite(c) && c !in {',', ';', ')', ']', '}'}
  }

  lemma {:induction false} FirstOf(w: Written)
    requires Sound(w)
    ensures Print(w) != "" && Leads(Print(w)[0])
  {
    if w.Word? { assert !IsDelimiter(w.word[0]); }
  }

  // ----- reading what stands so -----

  lemma {:induction false} DelimiterEnds(c: char)
    ensures Ends(c) <==> IsDelimiter(c)
    ensures IsSpace(c) <==> IsWhite(c)
  {
  }

  /** A form can begin here, or nothing follows. */
  predicate Begins(text: string, at: nat) {
    at == |text| || (at < |text| && !IsWhite(text[at]) && text[at] != ',' && text[at] != ';')
  }

  lemma {:induction false} LineBack(text: string, at: nat, words: string, end: nat)
    requires Has(text, at, words, end) && '\n' !in words && end < |text| && text[end] == '\n'
    ensures LineEnd(text, at) == end
    decreases |words|
  {
    if words != "" {
      assert words == [words[0]] + words[1..];
      HasHead(text, at, words[0], words[1..], end);
      LineBack(text, at + 1, words[1..], end);
    }
  }

  lemma {:induction false} CommentSkipped(text: string, at: nat, next: nat)
    requires at < next - 1 < |text| && text[at] == ';' && LineEnd(text, at + 1) == next - 1 && text[next - 1] == '\n'
    ensures Space(text, at) == Space(text, next)
  {
    assert Space(text, next - 1) == Space(text, next);
  }

  /** Blanks are skipped. */
  lemma {:induction false} BlanksBack(text: string, bs: Blanks)
    requires StandBlanks(text, bs) && BlanksOk(bs) && Begins(text, BlankEnd(bs))
    ensures bs.at <= |text| && Space(text, bs.at) == BlankEnd(bs)
  {
    if bs.at < |text| { DelimiterEnds(text[bs.at]); }
    match bs
    case Nothing(_) =>
    case White(_, _, more) => BlanksBack(text, more);
    case Comma(_, more) => BlanksBack(text, more);
    case Comment(at, words, more) =>
      LineBack(text, at + 1, words, more.at - 1);
      BlanksBack(text, more);
      CommentSkipped(text, at, more.at);
  }

  lemma {:induction false} SolidBack(text: string, at: nat, s: string, end: nat)
    requires Has(text, at, s, end) && IsSolid(s) && Stops(text, end)
    ensures Token(text, at) == end
    decreases |s|
  {
    if at < |text| { DelimiterEnds(text[at]); }
    if s != "" {
      assert s == [s[0]] + s[1..];
      HasHead(text, at, s[0], s[1..], end);
      SolidBack(text, at + 1, s[1..], end);
    }
  }

  lemma {:induction false} PiecesBack(text: string, at: nat, ps: Pieces, end: nat)
    requires StandPieces(text, at, ps, end) && PiecesOk(ps)
    ensures StringEnd(text, at) == end
    decreases ps
  {
    match ps
    case Quote =>
    case Raw(_, rest) => PiecesBack(text, at + 1, rest, end);
    case Escaped(_, rest) => PiecesBack(text, at + 2, rest, end);
  }

  lemma {:induction false} WordBack(text: string, at: nat, word: string, end: nat)
    requires Has(text, at, word, end) && Stops(text, end) && word != "" && !IsMark(word[0]) && IsSolid(word)
    ensures text[at] == word[0] && Closing(text[at]).None? && LeadOf(text[at]).Plain? && Token(text, at + 1) == end
  {
    assert !IsDelimiter(word[0]) && word == [word[0]] + word[1..];
    HasHead(text, at, word[0], word[1..], end);
    SolidBack(text, at + 1, word[1..], end);
  }

  lemma {:induction false} MarkFirst(text: string, at: nat, m: Mark, end: nat)
    requires Has(text, at, MarkText(m), end)
    ensures at < |text| && text[at] == MarkText(m)[0] && LeadOf(text[at]).Reader? && Closing(text[at]).None?
    ensures |MarkText(m)| > 1 ==> at + 1 < |text| && text[at + 1] == MarkText(m)[1]
  {
    HasAt(text, at, MarkText(m), end, 0);
    if |MarkText(m)| > 1 { HasAt(text, at, MarkText(m), end, 1); }
  }

  lemma {:induction false} MarkBack(text: string, at: nat, m: Mark, end: nat)
    requires Has(text, at, MarkText(m), end) && end < |text| && MarkOk(m, text[end])
    ensures Prefixed(text, at) == end
  {
    MarkFirst(text, at, m, end);
    DelimiterEnds(text[end]);
    if m.Tag? {
      HasHead(text, at, '#', m.name, end);
      SolidBack(text, at + 1, m.name, end);
      assert !IsDelimiter(m.name[0]);
    }
  }

  lemma {:induction false} StandsLeads(text: string, w: Written)
    requires Stands(text, w) && Sound(w)
    ensures w.at < |text| && Leads(text[w.at]) && Begins(text, w.at) && Space(text, w.at) == w.at
  {
    match w
    case Word(at, word) => WordBack(text, at, word, Finish(w)); assert !IsDelimiter(word[0]);
    case Quoted(at, mark, before, _) => MarkFirst(text, at, mark, before.at);
    case _ =>
    DelimiterEnds(text[w.at]);
  }

  lemma {:induction false} SameRead(text: string, at: nat, here: nat)
    requires at <= here <= |text| && Space(text, at) == here == Space(text, here)
    ensures ReadForm(text, at) == ReadForm(text, here)
  {
  }

  /** Reading a form behind blanks. */
  lemma {:induction false} BehindBack(text: string, bs: Blanks, w: Written)
    requires StandBlanks(text, bs) && BlanksOk(bs) && BlankEnd(bs) == w.at && Stands(text, w) && Sound(w)
    ensures bs.at <= |text| && ReadForm(text, bs.at).end == Finish(w)
    decreases w, 3
  {
    StandsLeads(text, w);
    BlanksBack(text, bs);
    StandsRead(text, w);
    SameRead(text, bs.at, w.at);
  }

  lemma {:induction false} AfterMeta(text: string, at: nat, first: nat, next: nat, end: nat)
    requires at < |text| && text[at] == '^' && next <= |text| && first == at + 1
    requires ReadForm(text, first).end == next && ReadForm(text, next).end == end
    ensures Closing(text[at]).None? && After(text, at) == end
  {
  }

  lemma {:induction false} AfterQuote(text: string, at: nat, next: nat, end: nat)
    requires at < |text| && LeadOf(text[at]).Reader? && Prefixed(text, at) == next && ReadForm(text, next).end == end
    ensures Closing(text[at]).None? && After(text, at) == end
  {
  }

  lemma {:induction false} MetaAfter(text: string, w: Written)
    requires w.Marked? && Stands(text, w) && Sound(w)
    ensures Closing(text[w.at]).None? && After(text, w.at) == Finish(w.form)
    decreases w, 0
  {
    BehindBack(text, w.before, w.meta);
    BehindBack(text, w.between, w.form);
    AfterMeta(text, w.at, w.before.at, w.between.at, Finish(w.form));
  }

  lemma {:induction false} QuoteAfter(text: string, w: Written)
    requires w.Quoted? && Stands(text, w) && Sound(w)
    ensures Closing(text[w.at]).None? && After(text, w.at) == Finish(w.form)
    decreases w, 0
  {
    MarkFirst(text, w.at, w.mark, w.before.at);
    MarkBack(text, w.at, w.mark, w.before.at);
    BehindBack(text, w.before, w.form);
    AfterQuote(text, w.at, w.before.at, Finish(w.form));
  }

  lemma {:induction false} StandsAfter(text: string, w: Written)
    requires Stands(text, w) && Sound(w) && !w.Listed?
    ensures Closing(text[w.at]).None? && After(text, w.at) == Finish(w)
    decreases w, 1
  {
    match w
    case Word(at, word) => WordBack(text, at, word, Finish(w));
    case Glyph(at, _, letters) => SolidBack(text, at + 2, letters, Finish(w));
    case Literal(at, pieces) => PiecesBack(text, at + 1, pieces, Finish(w));
    case Listed(_, _, _) =>
    case Marked(_, _, _, _, _) => MetaAfter(text, w);
    case Quoted(_, _, _, _) => QuoteAfter(text, w);
  }

  /** The reader gives a form back that stands so. */
  lemma {:induction false} StandsRead(text: string, w: Written)
    requires Stands(text, w) && Sound(w)
    ensures ReadForm(text, w.at) == Reading(w)
    decreases w, 2
  {
    StandsLeads(text, w);
    if w.Listed? {
      ItemsRead(text, w.items, Some(Closer(w.open)));
    } else {
      StandsAfter(text, w);
    }
  }

  /** The forms end here: at what closes them, or with the text. */
  predicate EndsAt(text: string, end: nat, closing: Option<char>) {
    match closing
    case Some(c) => end < |text| && text[end] == c && c in {')', ']', '}'}
    case None => end == |text|
  }

  lemma {:induction false} NotClosing(text: string, end: nat, closing: Option<char>, at: nat)
    requires EndsAt(text, end, closing) && at < |text| && Leads(text[at])
    ensures closing != Some(text[at])
  {
  }

  lemma {:induction false} DiscardThere(text: string, w: Written)
    requires Stands(text, w) && Sound(w)
    ensures Discards(text, w.at) <==> IsDiscard(w)
  {
    match w
    case Word(at, word) => WordBack(text, at, word, Finish(w));
    case Quoted(at, mark, before, _) => MarkFirst(text, at, mark, before.at);
    case _ =>
  }

  lemma {:induction false} FirstRead(text: string, blanks: Blanks, form: Written)
    requires StandBlanks(text, blanks) && BlanksOk(blanks) && BlankEnd(blanks) == form.at
    requires Stands(text, form) && Sound(form)
    ensures form.at < |text| && Leads(text[form.at]) && blanks.at <= |text| && Space(text, blanks.at) == form.at
    ensures (Discards(text, form.at) <==> IsDiscard(form)) && ReadForm(text, form.at) == Reading(form)
    decreases form, 3
  {
    StandsLeads(text, form);
    BlanksBack(text, blanks);
    DiscardThere(text, form);
    StandsRead(text, form);
  }

  lemma {:induction false} MoreRead(text: string, at: nat, closing: Option<char>, here: nat, first: Form, next: nat,
                                    others: seq<Form>, end: nat)
    requires at <= here < |text| && Space(text, at) == here && closing != Some(text[here])
    requires ReadForm(text, here) == first && first.end == next <= |text| && Forms(text, next, closing) == (others, end)
    ensures Forms(text, at, closing) == (if Discards(text, here) then others else [first] + others, end)
  {
    FormsJoin(text, at, closing, here, first, (others, end));
  }

  lemma {:induction false} ReadingsMore(items: Items)
    requires items.More?
    ensures Readings(items) == if IsDiscard(items.form) then Readings(items.rest)
            else [Reading(items.form)] + Readings(items.rest)
  {
  }

  lemma {:induction false} ItemsRead(text: string, items: Items, closing: Option<char>)
    requires StandItems(text, items) && SoundItems(items) && EndsAt(text, ItemsEnd(items), closing)
    ensures items.blanks.at <= |text|
    ensures Forms(text, items.blanks.at, closing) ==
            (Readings(items), ItemsEnd(items) + if closing.Some? then 1 else 0)
    decreases items, 5
  {
    if items.End? { BlanksBack(text, items.blanks); }
    else { MoreItemsRead(text, items, closing); }
  }

  lemma {:induction false} MoreItemsRead(text: string, items: Items, closing: Option<char>)
    requires items.More? && StandBlanks(text, items.blanks) && BlanksOk(items.blanks)
    requires BlankEnd(items.blanks) == items.form.at && Stands(text, items.form) && Sound(items.form)
    requires items.rest.blanks.at == Finish(items.form) && StandItems(text, items.rest)
    requires SoundItems(items.rest) && EndsAt(text, ItemsEnd(items.rest), closing)
    ensures items.blanks.at <= |text|
    ensures Forms(text, items.blanks.at, closing) ==
            (Readings(items), ItemsEnd(items.rest) + if closing.Some? then 1 else 0)
    decreases items, 4
  {
    var form, rest := items.form, items.rest;
    var end := ItemsEnd(rest) + if closing.Some? then 1 else 0;
    FirstRead(text, items.blanks, form);
    ItemsRead(text, rest, closing);
    NotClosing(text, ItemsEnd(rest), closing, form.at);
    JoinRead(text, items, closing, items.blanks.at, form.at, rest.blanks.at, end);
  }

  lemma {:induction false} JoinRead(text: string, items: Items, closing: Option<char>, at: nat, here: nat, next: nat,
                                    end: nat)
    requires items.More? && at <= here < |text| && Space(text, at) == here && closing != Some(text[here])
    requires ReadForm(text, here) == Reading(items.form) && next == Finish(items.form) <= |text|
    requires Discards(text, here) <==> IsDiscard(items.form)
    requires Forms(text, next, closing) == (Readings(items.rest), end)
    ensures Forms(text, at, closing) == (Readings(items), end)
  {
    MoreRead(text, at, closing, here, Reading(items.form), next, Readings(items.rest), end);
    ReadingsMore(items);
  }

  // ----- both -----

  /** The reader gives a written form back, wherever it stands. */
  lemma {:induction false} FormBack(text: string, w: Written, end: nat)
    requires WellWritten(w) && Has(text, w.at, Print(w), end) && (IsOpen(w) ==> Stops(text, end))
    ensures w.at <= |text| && ReadForm(text, w.at) == Reading(w) && ReadForm(text, w.at).end == end
  {
    Printed(text, w, end);
    StandsRead(text, w);
  }

  /** A written text is read as the forms it is written from, the discarded ones left out. */
  lemma {:induction false} ReadsBack(items: Items)
    requires SoundItems(items) && SpacedItems(items) && ItemsInPlace(0, items)
    ensures Forms(PrintItems(items), 0, None) == (Readings(items), |PrintItems(items)|)
  {
    var text := PrintItems(items);
    assert text[0..|text|] == text;
    PrintedItems(text, 0, items, |text|);
    ItemsAt(0, items);
    ItemsRead(text, items, None);
  }
}
