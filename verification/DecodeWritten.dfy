/** What a JSON string says, piece by piece as it is written: exactly the strings made of these pieces
    are read, and as what they say (internal/cproject/decode.go:200-310; RFC 8259, section 7; RFC 3629,
    section 3). */
module DecodeWritten {
  import opened DecodeText

  // ----- UTF-8 -----

  predicate Follows(c: Byte) {
    0x80 <= c < 0xC0
  }

  function Bits(c: Byte): int {
    c as int - 0x80
  }

  /** The bytes are the one way to write the character. */
  predicate Spells(b: seq<Byte>, r: nat) {
    || (|b| == 1 && b[0] < 0x80 && r == b[0] as int)
    || (|b| == 2 && 0xC2 <= b[0] < 0xE0 && Follows(b[1]) && r == (b[0] as int - 0xC0) * 0x40 + Bits(b[1]))
    || (|b| == 3 && 0xE0 <= b[0] < 0xF0 && Follows(b[1]) && Follows(b[2])
        && r == (b[0] as int - 0xE0) * 0x1000 + Bits(b[1]) * 0x40 + Bits(b[2])
        && (0x800 <= r < 0xD800 || 0xE000 <= r))
    || (|b| == 4 && 0xF0 <= b[0] < 0xF5 && Follows(b[1]) && Follows(b[2]) && Follows(b[3])
        && r == (b[0] as int - 0xF0) * 0x40000 + Bits(b[1]) * 0x1000 + Bits(b[2]) * 0x40 + Bits(b[3])
        && 0x10000 <= r < 0x110000)
  }

  /** Half a pair is no character. */
  predicate IsCharacter(r: nat) {
    r < 0xD800 || 0xE000 <= r < 0x110000
  }

  const REPLACEMENT := 0xFFFD

  lemma {:induction false} TwoBytes(r: nat)
    requires 0x80 <= r < 0x800
    ensures Spells(Utf8(r), r)
  {
    var x, c := r / 0x40, r % 0x40;
    assert r == 0x40 * x + c && 2 <= x < 0x20;
    assert Utf8(r) == [(0xC0 + x) as Byte, (0x80 + c) as Byte];
  }

  lemma {:induction false} ThreeBytes(r: nat)
    requires 0x800 <= r < 0x10000 && IsCharacter(r)
    ensures Spells(Utf8(r), r)
  {
    var x, c := r / 0x40, r % 0x40;
    var a, b := x / 0x40, x % 0x40;
    assert r == 0x1000 * a + (0x40 * b + c) && r / 0x1000 == a && a < 0x10;
    assert Utf8(r) == [(0xE0 + a) as Byte, (0x80 + b) as Byte, (0x80 + c) as Byte];
  }

  lemma {:induction false} FourSpell(a: nat, b: nat, c: nat, d: nat, r: nat)
    requires a < 5 && b < 0x40 && c < 0x40 && d < 0x40 && r == 0x40000 * a + 0x1000 * b + 0x40 * c + d
    requires 0x10000 <= r < 0x110000
    ensures Spells([(0xF0 + a) as Byte, (0x80 + b) as Byte, (0x80 + c) as Byte, (0x80 + d) as Byte], r)
  {
  }

  lemma {:induction false} FourParts(r: nat)
    requires r < 0x110000
    ensures r / 0x40000 < 5
    ensures r == 0x40000 * (r / 0x40000) + 0x1000 * (r / 0x1000 % 0x40) + 0x40 * (r / 0x40 % 0x40) + r % 0x40
  {
    var x := r / 0x40;
    var y := x / 0x40;
    assert r / 0x1000 == y && r / 0x40000 == y / 0x40;
  }

  lemma {:induction false} FourBytes(r: nat)
    requires 0x10000 <= r < 0x110000
    ensures Spells(Utf8(r), r)
  {
    FourParts(r);
    var a, b, c, d := r / 0x40000, r / 0x1000 % 0x40, r / 0x40 % 0x40, r % 0x40;
    FourWritten(r, a, b, c, d);
    FourSpell(a, b, c, d, r);
  }

  lemma {:induction false} IsByte(x: nat)
    requires x < 0x100
    ensures ToByte(x) == x as Byte
  {
  }

  lemma {:induction false} FourWritten(r: nat, a: nat, b: nat, c: nat, d: nat)
    requires 0x10000 <= r < 0x110000 && a < 5 && b < 0x40 && c < 0x40 && d < 0x40
    requires a == r / 0x40000 && b == r / 0x1000 % 0x40 && c == r / 0x40 % 0x40 && d == r % 0x40
    ensures Utf8(r) == [(0xF0 + a) as Byte, (0x80 + b) as Byte, (0x80 + c) as Byte, (0x80 + d) as Byte]
  {
    IsByte(0xF0 + a);
    IsByte(0x80 + b);
    IsByte(0x80 + c);
    IsByte(0x80 + d);
  }

  lemma {:induction false} Utf8Exactly(r: nat)
    ensures Spells(Utf8(r), if IsCharacter(r) then r else REPLACEMENT)
  {
    if r < 0x80 {
    } else if r < 0x800 { TwoBytes(r); }
    else if !IsCharacter(r) { assert Utf8(r) == [0xEF, 0xBF, 0xBD]; }
    else if r < 0x10000 { ThreeBytes(r); }
    else { FourBytes(r); }
  }

  lemma {:induction false} RadixOnce(a: int, b: int, c: int, d: int)
    requires 0 <= b < 0x40 && 0 <= d < 0x40 && a * 0x40 + b == c * 0x40 + d
    ensures a == c && b == d
  {
  }

  /** A character is spelled in one way only. */
  lemma {:induction false} SpelledOnce(a: seq<Byte>, b: seq<Byte>, r: nat)
    requires Spells(a, r) && Spells(b, r)
    ensures a == b
  {
    assert |a| == |b|;
    if |a| > 3 {
      var x, y := (a[0] as int - 0xF0) * 0x40 + Bits(a[1]), (b[0] as int - 0xF0) * 0x40 + Bits(b[1]);
      RadixOnce(x * 0x40 + Bits(a[2]), Bits(a[3]), y * 0x40 + Bits(b[2]), Bits(b[3]));
      RadixOnce(x, Bits(a[2]), y, Bits(b[2]));
    } else if |a| > 2 {
      RadixOnce((a[0] as int - 0xE0) * 0x40 + Bits(a[1]), Bits(a[2]), (b[0] as int - 0xE0) * 0x40 + Bits(b[1]),
        Bits(b[2]));
    }
  }

  // ----- the pieces of a string -----

  /** A hexadecimal digit and how it is written. */
  datatype Hex = Hex(value: nat, capital: bool)

  datatype Four = Four(a: Hex, b: Hex, c: Hex, d: Hex)

  /** `Half` is half a pair that nothing pairs with: the byte after it, or the escape, is lost. */
  datatype Piece =
    | Raw(byte: Byte)
    | Short(letter: Byte)
    | Unit(u: Four)
    | Pair(u: Four, low: Four)
    | Half(u: Four, lost: Byte)
    | HalfEscape(u: Four, lost: Byte)

  datatype Pieces = End | Next(piece: Piece, more: Pieces)

  predicate HexOk(x: Hex) {
    x.value < 16
  }

  function HexText(x: Hex): Byte
    requires HexOk(x)
  {
    if x.value < 10 then (0x30 + x.value) as Byte
    else if x.capital then (0x41 + (x.value - 10)) as Byte
    else (0x61 + (x.value - 10)) as Byte
  }

  predicate FourOk(u: Four) {
    HexOk(u.a) && HexOk(u.b) && HexOk(u.c) && HexOk(u.d)
  }

  function Value(u: Four): nat {
    u.a.value * 0x1000 + u.b.value * 0x100 + u.c.value * 0x10 + u.d.value
  }

  function Digits(u: Four): seq<Byte>
    requires FourOk(u)
  {
    [HexText(u.a), HexText(u.b), HexText(u.c), HexText(u.d)]
  }

  predicate IsHalf(u: Four) {
    0xD800 <= Value(u) < 0xE000
  }

  /** The letters of the short escapes with what they stand for: quote, backslash, slash, backspace, form
      feed, line feed, carriage return, tab. */
  const SHORTS: map<Byte, Byte> := map[0x22 := 0x22, 0x5C := 0x5C, 0x2F := 0x2F, 0x62 := 0x08, 0x66 := 0x0C,
    0x6E := 0x0A, 0x72 := 0x0D, 0x74 := 0x09]

  predicate PieceOk(p: Piece) {
    match p
    case Raw(byte) => byte != QUOTE && byte != BACKSLASH
    case Short(letter) => letter in SHORTS
    case Unit(u) => FourOk(u) && !IsHalf(u)
    case Pair(u, low) => FourOk(u) && FourOk(low) && IsHalf(u)
    case Half(u, lost) => FourOk(u) && IsHalf(u) && lost != BACKSLASH
    case HalfEscape(u, lost) => FourOk(u) && IsHalf(u) && lost != SMALL_U
  }

  function UnitText(u: Four): seq<Byte>
    requires FourOk(u)
  {
    [BACKSLASH, SMALL_U] + Digits(u)
  }

  /** What stands behind the four digits of the piece. */
  function Behind(p: Piece): seq<Byte>
    requires PieceOk(p) && !p.Raw? && !p.Short?
  {
    match p
    case Unit(_) => []
    case Pair(_, low) => UnitText(low)
    case Half(_, lost) => [lost]
    case HalfEscape(_, lost) => [BACKSLASH, lost]
  }

  function PieceText(p: Piece): seq<Byte>
    requires PieceOk(p)
  {
    match p
    case Raw(byte) => [byte]
    case Short(letter) => [BACKSLASH, letter]
    case _ => [BACKSLASH, SMALL_U] + (Digits(p.u) + Behind(p))
  }

  /** The character a piece says, where it is not just a byte: a high half and a low half say one beyond
      the first 65536, any other half the replacement character. */
  function Character(p: Piece): nat
    requires !p.Raw? && !p.Short?
  {
    match p
    case Unit(u) => Value(u)
    case Pair(u, low) =>
      if 0xD800 <= Value(u) < 0xDC00 && 0xDC00 <= Value(low) < 0xE000
      then 0x10000 + (Value(u) - 0xD800) * 0x400 + (Value(low) - 0xDC00)
      else REPLACEMENT
    case Half(_, _) => REPLACEMENT
    case HalfEscape(_, _) => REPLACEMENT
  }

  /** The bytes a piece says. */
  predicate Says(p: Piece, bytes: seq<Byte>) {
    match p
    case Raw(byte) => bytes == [byte]
    case Short(letter) => letter in SHORTS && bytes == [SHORTS[letter]]
    case _ => Spells(bytes, Character(p))
  }

  predicate PiecesOk(ps: Pieces) {
    ps.Next? ==> PieceOk(ps.piece) && PiecesOk(ps.more)
  }

  /** The pieces, the closing quote, and what follows. */
  function Text(ps: Pieces, tail: seq<Byte>): seq<Byte>
    requires PiecesOk(ps)
  {
    if ps.End? then [QUOTE] + tail else PieceText(ps.piece) + Text(ps.more, tail)
  }

  /** What reading makes of a piece. */
  function Made(p: Piece): seq<Byte>
    requires PieceOk(p)
  {
    match p
    case Raw(byte) => [byte]
    case Short(letter) => [PlainEscape(letter).value]
    case Unit(u) => Utf8(Value(u))
    case Pair(u, low) => Utf8(DecodePair(Value(u), Value(low)))
    case Half(u, _) => Utf8(Value(u))
    case HalfEscape(u, _) => Utf8(Value(u))
  }

  function AllMade(ps: Pieces): seq<Byte>
    requires PiecesOk(ps)
  {
    if ps.End? then [] else Made(ps.piece) + AllMade(ps.more)
  }

  /** It is what the piece says. */
  lemma {:induction false} MadeSays(p: Piece)
    requires PieceOk(p)
    ensures Says(p, Made(p))
  {
    match p
    case Raw(_) =>
    case Short(_) =>
    case Unit(u) => ValueSmall(u); Utf8Exactly(Value(u));
    case Pair(u, low) => Utf8Exactly(DecodePair(Value(u), Value(low)));
    case Half(u, _) => Utf8Exactly(Value(u));
    case HalfEscape(u, _) => Utf8Exactly(Value(u));
  }

  lemma {:induction false} ValueSmall(u: Four)
    requires FourOk(u)
    ensures Value(u) < 0x10000
  {
  }

  // ----- what is written is read -----

  lemma {:induction false} HexRead(x: Hex)
    requires HexOk(x)
    ensures HexDigit(HexText(x)) == Some(x.value)
  {
  }

  lemma {:induction false} HexStep(x: Hex, rest: seq<Byte>, n: nat, r: nat)
    requires HexOk(x) && n > 0
    ensures HexFrom([HexText(x)] + rest, n, r) == HexFrom(rest, n - 1, r * 16 + x.value)
  {
    HexRead(x);
    assert ([HexText(x)] + rest)[1..] == rest;
  }

  lemma {:induction false} FourFirst(a: Byte, b: Byte, c: Byte, d: Byte, rest: seq<Byte>)
    ensures [a, b, c, d] + rest == [a] + ([b] + ([c] + ([d] + rest)))
  {
  }

  lemma {:induction false} DigitsRead(u: Four, rest: seq<Byte>)
    requires FourOk(u)
    ensures HexFrom(Digits(u) + rest, 4, 0) == Got(Value(u), rest)
  {
    var s3 := [HexText(u.d)] + rest;
    var s2 := [HexText(u.c)] + s3;
    var s1 := [HexText(u.b)] + s2;
    FourFirst(HexText(u.a), HexText(u.b), HexText(u.c), HexText(u.d), rest);
    HexStep(u.a, s1, 4, 0);
    HexStep(u.b, s2, 3, u.a.value);
    HexStep(u.c, s3, 2, u.a.value * 16 + u.b.value);
    HexStep(u.d, rest, 1, (u.a.value * 16 + u.b.value) * 16 + u.c.value);
  }

  lemma {:induction false} PairRead(u: Four, low: Four, rest: seq<Byte>)
    requires FourOk(u) && FourOk(low) && IsHalf(u)
    ensures UnicodeEscape(Digits(u) + (UnitText(low) + rest)) == Got(DecodePair(Value(u), Value(low)), rest)
  {
    var after := UnitText(low) + rest;
    DigitsRead(u, after);
    DigitsRead(low, rest);
    assert after[2..] == Digits(low) + rest;
  }

  lemma {:induction false} HalfRead(u: Four, lost: Byte, rest: seq<Byte>)
    requires FourOk(u) && IsHalf(u) && lost != BACKSLASH
    ensures UnicodeEscape(Digits(u) + ([lost] + rest)) == Got(Value(u), rest)
  {
    var after := [lost] + rest;
    DigitsRead(u, after);
    assert after[1..] == rest;
  }

  lemma {:induction false} HalfEscapeRead(u: Four, lost: Byte, rest: seq<Byte>)
    requires FourOk(u) && IsHalf(u) && lost != SMALL_U
    ensures UnicodeEscape(Digits(u) + ([BACKSLASH, lost] + rest)) == Got(Value(u), rest)
  {
    var after := [BACKSLASH, lost] + rest;
    DigitsRead(u, after);
    assert after[2..] == rest;
  }

  lemma {:induction false} EscapeParts(p: Piece, rest: seq<Byte>)
    requires PieceOk(p) && !p.Raw? && !p.Short?
    ensures PieceText(p) + rest == [BACKSLASH, SMALL_U] + (Digits(p.u) + (Behind(p) + rest))
  {
    Regrouped([BACKSLASH, SMALL_U], Digits(p.u), Behind(p), rest);
  }

  lemma {:induction false} Regrouped(a: seq<Byte>, b: seq<Byte>, c: seq<Byte>, d: seq<Byte>)
    ensures a + (b + c) + d == a + (b + (c + d))
  {
  }

  lemma {:induction false} TwoFirst(input: seq<Byte>, rest: seq<Byte>)
    requires input == [BACKSLASH, SMALL_U] + rest
    ensures |input| > 1 && input[0] == BACKSLASH && input[1] == SMALL_U && input[2..] == rest
  {
  }

  lemma {:induction false} FirstTwo(input: seq<Byte>)
    requires |input| > 1 && input[0] == BACKSLASH && input[1] == SMALL_U
    ensures input == [BACKSLASH, SMALL_U] + input[2..]
  {
  }

  /** What a \u escape gives, and what is left. */
  lemma {:induction false} EscapeRead(p: Piece, rest: seq<Byte>)
    requires PieceOk(p) && !p.Raw? && !p.Short?
    ensures var o := UnicodeEscape(Digits(p.u) + (Behind(p) + rest));
            o.Got? && Utf8(o.value) == Made(p) && o.rest == rest
  {
    match p
    case Unit(u) =>
      DigitsRead(u, rest);
      assert Behind(p) + rest == rest;
    case Pair(u, low) => PairRead(u, low, rest);
    case Half(u, lost) => HalfRead(u, lost, rest);
    case HalfEscape(u, lost) => HalfEscapeRead(u, lost, rest);
  }

  lemma {:induction false} UnicodeRead(p: Piece, rest: seq<Byte>, input: seq<Byte>, before: seq<Byte>)
    requires PieceOk(p) && !p.Raw? && !p.Short?
    requires |input| > 1 && input[0] == BACKSLASH && input[1] == SMALL_U
    requires input[2..] == Digits(p.u) + (Behind(p) + rest)
    ensures StringFrom(input, before) == StringFrom(rest, before + Made(p))
  {
    EscapeRead(p, rest);
  }

  lemma {:induction false} PieceRead(p: Piece, rest: seq<Byte>, before: seq<Byte>)
    requires PieceOk(p)
    ensures StringFrom(PieceText(p) + rest, before) == StringFrom(rest, before + Made(p))
  {
    var input := PieceText(p) + rest;
    if p.Raw? { assert input[1..] == rest; }
    else if p.Short? { assert input[2..] == rest; }
    else {
      EscapeParts(p, rest);
      TwoFirst(input, Digits(p.u) + (Behind(p) + rest));
      UnicodeRead(p, rest, input, before);
    }
  }

  lemma {:induction false} Joined(a: seq<Byte>, b: seq<Byte>, c: seq<Byte>)
    ensures a + b + c == a + (b + c)
  {
  }

  /** A string made of pieces is read to its closing quote, as what the pieces make. */
  lemma {:induction false} WrittenReads(ps: Pieces, tail: seq<Byte>, before: seq<Byte>)
    requires PiecesOk(ps)
    ensures StringFrom(Text(ps, tail), before) == Got(before + AllMade(ps), tail)
    decreases ps
  {
    if ps.End? {
      assert Text(ps, tail)[1..] == tail && before + [] == before;
    } else {
      PieceRead(ps.piece, Text(ps.more, tail), before);
      WrittenReads(ps.more, tail, before + Made(ps.piece));
      Joined(before, Made(ps.piece), AllMade(ps.more));
    }
  }

  // ----- nothing else is read -----

  lemma {:induction false} DigitOf(c: Byte) returns (x: Hex)
    requires HexDigit(c).Some?
    ensures HexOk(x) && HexText(x) == c
  {
    x := Hex(HexDigit(c).value, c < 0x61);
  }

  lemma {:induction false} DigitsOf(input: seq<Byte>) returns (u: Four)
    requires HexFrom(input, 4, 0).Got?
    ensures FourOk(u) && Digits(u) + HexFrom(input, 4, 0).rest == input && Value(u) == HexFrom(input, 4, 0).value
  {
    var s1 := input[1..];
    var s2 := s1[1..];
    var s3 := s2[1..];
    assert HexFrom(s1, 3, HexDigit(input[0]).value).Got?;
    assert HexFrom(s2, 2, HexDigit(input[0]).value * 16 + HexDigit(s1[0]).value).Got?;
    var a := DigitOf(input[0]);
    var b := DigitOf(s1[0]);
    var c := DigitOf(s2[0]);
    var d := DigitOf(s3[0]);
    u := Four(a, b, c, d);
    var rest := s3[1..];
    assert input == Digits(u) + rest;
    DigitsRead(u, rest);
  }

  lemma {:induction false} FirstPiece(input: seq<Byte>, before: seq<Byte>) returns (p: Piece, rest: seq<Byte>)
    requires StringFrom(input, before).Got? && input[0] != QUOTE
    ensures PieceOk(p) && PieceText(p) + rest == input
    ensures StringFrom(rest, before + Made(p)) == StringFrom(input, before)
  {
    if input[0] != BACKSLASH { p, rest := Raw(input[0]), input[1..]; }
    else if input[1] != SMALL_U { p, rest := Short(input[1]), input[2..]; }
    else { p, rest := UnicodePiece(input, before); }
    PieceRead(p, rest, before);
  }

  lemma {:induction false} UnicodePiece(input: seq<Byte>, before: seq<Byte>) returns (p: Piece, rest: seq<Byte>)
    requires StringFrom(input, before).Got? && |input| > 1 && input[0] == BACKSLASH && input[1] == SMALL_U
    ensures PieceOk(p) && PieceText(p) + rest == input
  {
    p, rest := EscapePiece(input[2..]);
    EscapeParts(p, rest);
    FirstTwo(input);
  }

  lemma {:induction false} EscapePiece(input: seq<Byte>) returns (p: Piece, rest: seq<Byte>)
    requires UnicodeEscape(input).Got? && UnicodeEscape(input).rest != []
    ensures PieceOk(p) && !p.Raw? && !p.Short? && Digits(p.u) + (Behind(p) + rest) == input
  {
    var u := DigitsOf(input);
    var after := HexFrom(input, 4, 0).rest;
    rest := UnicodeEscape(input).rest;
    if !IsHalf(u) { p := Unit(u); }
    else if after[0] != BACKSLASH { p := Half(u, after[0]); }
    else if after[1] != SMALL_U { p := HalfEscape(u, after[1]); }
    else {
      var low := DigitsOf(after[2..]);
      p := Pair(u, low);
      FirstTwo(after);
    }
    assert Behind(p) + rest == after;
  }

  /** Whatever is read is a string made of pieces. */
  lemma {:induction false} ReadWritten(input: seq<Byte>, before: seq<Byte>) returns (ps: Pieces, tail: seq<Byte>)
    requires StringFrom(input, before).Got?
    ensures PiecesOk(ps) && input == Text(ps, tail)
    decreases |input|
  {
    if input[0] == QUOTE {
      ps, tail := End, input[1..];
      assert input == [QUOTE] + tail;
    } else {
      var p, rest := FirstPiece(input, before);
      ps, tail := ReadWritten(rest, before + Made(p));
      ps := Next(p, ps);
    }
  }

  // ----- a whole string -----

  /** Tab, line feed, carriage return or space. */
  predicate IsBlank(c: Byte) {
    c == 9 || c == 10 || c == 13 || c == 32
  }

  predicate AllBlank(blanks: seq<Byte>) {
    forall k :: 0 <= k < |blanks| ==> IsBlank(blanks[k])
  }

  lemma {:induction false} TrimBlanks(blanks: seq<Byte>, rest: seq<Byte>)
    requires AllBlank(blanks) && rest != [] && !IsBlank(rest[0])
    ensures Trim(blanks + rest) == rest
  {
    if blanks == [] { assert blanks + rest == rest; }
    else {
      assert (blanks + rest)[1..] == blanks[1..] + rest && IsBlank(blanks[0]);
      TrimBlanks(blanks[1..], rest);
    }
  }

  /** A string stands behind blanks and a quote. */
  lemma {:induction false} SpacedReads(blanks: seq<Byte>, ps: Pieces, tail: seq<Byte>, before: seq<Byte>)
    requires AllBlank(blanks) && PiecesOk(ps)
    ensures ReadStringOf(blanks + ([QUOTE] + Text(ps, tail)), before) == Got(before + AllMade(ps), tail)
  {
    var rest := [QUOTE] + Text(ps, tail);
    TrimBlanks(blanks, rest);
    assert rest[1..] == Text(ps, tail);
    WrittenReads(ps, tail, before);
  }

  lemma {:induction false} TrimmedBlanks(input: seq<Byte>) returns (blanks: seq<Byte>)
    ensures AllBlank(blanks) && blanks + Trim(input) == input
  {
    if input == [] || !IsSpace(input[0]) { return []; }
    var rest := TrimmedBlanks(input[1..]);
    blanks := [input[0]] + rest;
    assert input == [input[0]] + input[1..];
  }

  lemma {:induction false} SpacedWritten(input: seq<Byte>, before: seq<Byte>)
    returns (blanks: seq<Byte>, ps: Pieces, tail: seq<Byte>)
    requires ReadStringOf(input, before).Got?
    ensures AllBlank(blanks) && PiecesOk(ps) && input == blanks + ([QUOTE] + Text(ps, tail))
  {
    blanks := TrimmedBlanks(input);
    var rest := Trim(input);
    ps, tail := ReadWritten(rest[1..], before);
    assert rest == [QUOTE] + rest[1..];
  }
}
