/** Reading JSON strings from a stream (internal/cproject/decode.go:162-372): what a string is
    does not depend on how the stream is cut into reads, and skipping a string stops where
    reading it does. */
module DecodeText {

  datatype Option<+T> = None | Some(value: T)

  newtype Byte = x: int | 0 <= x < 256

  const QUOTE: Byte := 0x22
  const BACKSLASH: Byte := 0x5C
  const SMALL_U: Byte := 0x75

  predicate IsSpace(c: Byte) {
    c == 0x20 || c == 0x0A || c == 0x0D || c == 0x09
  }

  // ----- what a string is -----

  /** A value and the input after it. */
  datatype Outcome<+T> = Got(value: T, rest: seq<Byte>) | Failed

  function HexDigit(c: Byte): Option<nat> {
    if 0x30 <= c <= 0x39 then Some(c as int - 0x30)
    else if 0x61 <= c <= 0x66 then Some(c as int - 0x61 + 10)
    else if 0x41 <= c <= 0x46 then Some(c as int - 0x41 + 10)
    else None
  }

  /** The number `n` hexadecimal digits write, after `r`. */
  function HexFrom(input: seq<Byte>, n: nat, r: nat): (o: Outcome<nat>)
    ensures o.Got? ==> |o.rest| == |input| - n && o.rest == input[n..]
  {
    if n == 0 then Got(r, input)
    else if input == [] then Failed
    else
      match HexDigit(input[0])
      case Some(d) => HexFrom(input[1..], n - 1, r * 16 + d)
      case None => Failed
  }

  predicate IsSurrogate(r: nat) {
    0xD800 <= r < 0xE000
  }

  /** The character a pair of surrogates writes; U+FFFD when they do not pair. */
  function DecodePair(high: nat, low: nat): nat {
    if 0xD800 <= high < 0xDC00 && 0xDC00 <= low < 0xE000 then (high - 0xD800) * 0x400 + (low - 0xDC00) + 0x10000
      else 0xFFFD
  }

  function ToByte(x: int): Byte {
    (x % 256) as Byte
  }

  /** A character in UTF-8; a surrogate or what is out of range is written as U+FFFD. */
  function Utf8(r: nat): seq<Byte> {
    if r < 0x80 then [ToByte(r)]
    else if r < 0x800 then [ToByte(0xC0 + r / 0x40), ToByte(0x80 + r % 0x40)]
    else if IsSurrogate(r) || r > 0x10FFFF then [0xEF, 0xBF, 0xBD]
    else if r < 0x10000 then [ToByte(0xE0 + r / 0x1000), ToByte(0x80 + r / 0x40 % 0x40), ToByte(0x80 + r % 0x40)]
    else [ToByte(0xF0 + r / 0x40000), ToByte(0x80 + r / 0x1000 % 0x40), ToByte(0x80 + r / 0x40 % 0x40),
      ToByte(0x80 + r % 0x40)]
  }

  /** The byte an escape other than \u stands for. */
  function PlainEscape(c: Byte): Option<Byte> {
    if c == QUOTE || c == BACKSLASH || c == 0x2F then Some(c)
    else if c == 0x62 then Some(0x08)
    else if c == 0x66 then Some(0x0C)
    else if c == 0x6E then Some(0x0A)
    else if c == 0x72 then Some(0x0D)
    else if c == 0x74 then Some(0x09)
    else None
  }

  /** After \u: four digits, and where they write a surrogate what pairs with it.  The byte
      after a surrogate is gone whatever it is, and so is the one after a backslash. */
  function UnicodeEscape(input: seq<Byte>): (o: Outcome<nat>)
    ensures o.Got? ==> |o.rest| <= |input| && o.rest == input[|input| - |o.rest|..]
  {
    match HexFrom(input, 4, 0)
    case Failed => Failed
    case Got(r, rest) =>
      if !IsSurrogate(r) || rest == [] then Got(r, rest)
      else if rest[0] != BACKSLASH then Got(r, rest[1..])
      else if |rest| == 1 || rest[1] != SMALL_U then Got(r, rest[if |rest| == 1 then 1 else 2..])
      else
        match HexFrom(rest[2..], 4, 0)
        case Failed => Failed
        case Got(low, after) => Got(DecodePair(r, low), after)
  }

  /** The rest of a string, after its opening quote. */
  function StringFrom(input: seq<Byte>, value: seq<Byte>): (o: Outcome<seq<Byte>>)
    ensures o.Got? ==> |o.rest| <= |input|
    decreases |input|
  {
    if input == [] then Failed
    else if input[0] == QUOTE then Got(value, input[1..])
    else if input[0] != BACKSLASH then StringFrom(input[1..], value + [input[0]])
    else if |input| == 1 then Failed
    else if input[1] == SMALL_U then
      match UnicodeEscape(input[2..])
      case Failed => Failed
      case Got(r, rest) => StringFrom(rest, value + Utf8(r))
    else
      match PlainEscape(input[1])
      case None => Failed
      case Some(c) => StringFrom(input[2..], value + [c])
  }

  /** Where a skipped string ends, after its opening quote. */
  function SkipFrom(input: seq<Byte>): (o: Outcome<()>)
    ensures o.Got? ==> |o.rest| <= |input|
    decreases |input|
  {
    if input == [] then Failed
    else if input[0] == QUOTE then Got((), input[1..])
    else if input[0] != BACKSLASH then SkipFrom(input[1..])
    else if |input| == 1 then Failed
    else SkipFrom(input[2..])
  }

  function Trim(input: seq<Byte>): (rest: seq<Byte>)
    ensures |rest| <= |input| && (rest == [] || !IsSpace(rest[0]))
  {
    if input == [] || !IsSpace(input[0]) then input else Trim(input[1..])
  }

  /** A whole string. */
  function ReadStringOf(input: seq<Byte>, before: seq<Byte>): Outcome<seq<Byte>> {
    var rest := Trim(input);
    if rest == [] || rest[0] != QUOTE then Failed else StringFrom(rest[1..], before)
  }

  function SkipStringOf(input: seq<Byte>): Outcome<()> {
    var rest := Trim(input);
    if rest == [] || rest[0] != QUOTE then Failed else SkipFrom(rest[1..])
  }

  // ----- skipping stops where reading does -----

  /** Reading meets an escape that writes half a surrogate pair right before a quote. */
  predicate LoneBeforeQuote(input: seq<Byte>)
    decreases |input|
  {
    if |input| < 2 || input[0] == QUOTE then false
    else if input[0] != BACKSLASH then LoneBeforeQuote(input[1..])
    else if input[1] != SMALL_U then LoneBeforeQuote(input[2..])
    else
      match HexFrom(input[2..], 4, 0)
      case Failed => false
      case Got(r, rest) =>
        if IsSurrogate(r) && rest != [] && rest[0] == QUOTE then true
        else
          match UnicodeEscape(input[2..])
          case Failed => false
          case Got(_, after) => LoneBeforeQuote(after)
  }

  /** Digits are skipped one by one. */
  lemma {:induction false} SkipDigits(input: seq<Byte>, n: nat, r: nat)
    requires HexFrom(input, n, r).Got?
    ensures n <= |input| && SkipFrom(input) == SkipFrom(input[n..])
  {
    if n > 0 {
      SkipDigits(input[1..], n - 1, r * 16 + HexDigit(input[0]).value);
      assert input[1..][n-1..] == input[n..];
    } else {
      assert input[0..] == input;
    }
  }

  /** So is a whole \u escape, but for a quote it swallows. */
  lemma {:induction false} SkipUnicode(input: seq<Byte>)
    requires UnicodeEscape(input).Got?
    ensures var digits := HexFrom(input, 4, 0);
            && digits.Got?
            && var swallows := IsSurrogate(digits.value) && digits.rest != [] && digits.rest[0] == QUOTE;
               && (!swallows ==> SkipFrom(input) == SkipFrom(UnicodeEscape(input).rest))
               && (swallows ==> SkipFrom(input) == Got((), UnicodeEscape(input).rest))
  {
    SkipDigits(input, 4, 0);
    var digits := HexFrom(input, 4, 0);
    var rest := digits.rest;
    if IsSurrogate(digits.value) && |rest| > 1 && rest[0] == BACKSLASH && rest[1] == SMALL_U {
      SkipDigits(rest[2..], 4, 0);
    }
  }

  /** Where reading a string succeeds, skipping it stops at the same place exactly when no half
      pair stands before a quote; otherwise it stops earlier, at such a quote. */
  lemma {:induction false} SkipStopsWhereReadDoes(input: seq<Byte>, value: seq<Byte>)
    requires StringFrom(input, value).Got?
    ensures SkipFrom(input).Got?
    ensures SkipFrom(input).rest == StringFrom(input, value).rest <==> !LoneBeforeQuote(input)
    ensures LoneBeforeQuote(input) ==> |SkipFrom(input).rest| > |StringFrom(input, value).rest|
    decreases |input|
  {
    if input[0] == QUOTE {
    } else if input[0] != BACKSLASH {
      SkipStopsWhereReadDoes(input[1..], value + [input[0]]);
    } else if input[1] != SMALL_U {
      SkipStopsWhereReadDoes(input[2..], value + [PlainEscape(input[1]).value]);
    } else {
      var escape := UnicodeEscape(input[2..]);
      SkipUnicode(input[2..]);
      StringShrinks(escape.rest, value + Utf8(escape.value));
      SkipStopsWhereReadDoes(escape.rest, value + Utf8(escape.value));
    }
  }

  lemma {:induction false} StringShrinks(input: seq<Byte>, value: seq<Byte>)
    requires StringFrom(input, value).Got?
    ensures |StringFrom(input, value).rest| < |input|
    decreases |input|
  {
    if input[0] != QUOTE && input[0] != BACKSLASH { StringShrinks(input[1..], value + [input[0]]); }
  }

  /** The rest of a string in which every half of a pair has its other half: what RFC 8259,
      section 7, lets a printer write. */
  predicate WellWritten(input: seq<Byte>)
    decreases |input|
  {
    if input == [] then false
    else if input[0] == QUOTE then true
    else if input[0] != BACKSLASH then input[0] >= 0x20 && WellWritten(input[1..])
    else if |input| == 1 then false
    else if input[1] != SMALL_U then PlainEscape(input[1]).Some? && WellWritten(input[2..])
    else
      match HexFrom(input[2..], 4, 0)
      case Failed => false
      case Got(r, rest) => if IsSurrogate(r) then Paired(r, rest) && WellWritten(UnicodeEscape(input[2..]).rest)
        else WellWritten(rest)
  }

  predicate Paired(high: nat, rest: seq<Byte>) {
    && 0xD800 <= high < 0xDC00 && |rest| >= 2 && rest[0] == BACKSLASH && rest[1] == SMALL_U
    && HexFrom(rest[2..], 4, 0).Got? && 0xDC00 <= HexFrom(rest[2..], 4, 0).value < 0xE000
  }

  /** Such a string is read, and skipping it stops at the same place. */
  lemma {:induction false} WellWrittenReads(input: seq<Byte>, value: seq<Byte>)
    requires WellWritten(input)
    ensures StringFrom(input, value).Got? && SkipFrom(input).Got?
            && SkipFrom(input).rest == StringFrom(input, value).rest
  {
    WellWrittenGot(input, value);
    SkipStopsWhereReadDoes(input, value);
  }

  lemma {:induction false} WellWrittenGot(input: seq<Byte>, value: seq<Byte>)
    requires WellWritten(input)
    ensures StringFrom(input, value).Got? && !LoneBeforeQuote(input)
    decreases |input|
  {
    if input[0] == QUOTE {
    } else if input[0] != BACKSLASH {
      WellWrittenGot(input[1..], value + [input[0]]);
    } else if input[1] != SMALL_U {
      WellWrittenGot(input[2..], value + [PlainEscape(input[1]).value]);
    } else {
      var escape := UnicodeEscape(input[2..]);
      WellWrittenGot(escape.rest, value + Utf8(escape.value));
    }
  }

  // ----- what a printer writes -----

  function HexByte(d: nat): Byte
    requires d < 16
  {
    if d < 10 then (0x30 + d) as Byte else (0x57 + d) as Byte
  }

  function EscapedByte(c: Byte): seq<Byte> {
    if c == QUOTE || c == BACKSLASH then [BACKSLASH, c]
    else if c < 0x20 then [BACKSLASH, SMALL_U, 0x30, 0x30, HexByte(c as nat / 16), HexByte(c as nat % 16)]
    else [c]
  }

  /** A value as RFC 8259, section 7, lets a printer write it, its closing quote and what
      follows. */
  function Printed(value: seq<Byte>, tail: seq<Byte>): seq<Byte> {
    if value == [] then [QUOTE] + tail else EscapedByte(value[0]) + Printed(value[1..], tail)
  }

  /** What is printed is read back, and no half pair stands in it. */
  lemma {:induction false} ReadsBack(value: seq<Byte>, tail: seq<Byte>, before: seq<Byte>)
    ensures StringFrom(Printed(value, tail), before) == Got(before + value, tail)
    ensures !LoneBeforeQuote(Printed(value, tail))
  {
    if value == [] {
      assert before + value == before;
    } else {
      var c := value[0];
      ReadsBack(value[1..], tail, before + [c]);
      assert before + [c] + value[1..] == before + value;
      EscapedReads(c, Printed(value[1..], tail), before);
    }
  }

  lemma {:induction false} EscapedReads(c: Byte, rest: seq<Byte>, before: seq<Byte>)
    ensures StringFrom(EscapedByte(c) + rest, before) == StringFrom(rest, before + [c])
    ensures LoneBeforeQuote(EscapedByte(c) + rest) == LoneBeforeQuote(rest)
  {
    var input := EscapedByte(c) + rest;
    if c == QUOTE || c == BACKSLASH {
      assert input[2..] == rest;
    } else if c < 0x20 {
      HexReads(c, rest);
      assert input[2..] == input[2..6] + rest;
      assert Utf8(c as nat) == [c];
    } else {
      assert input[1..] == rest;
    }
  }

  lemma {:induction false} HexReads(c: Byte, rest: seq<Byte>)
    requires c < 0x20
    ensures HexFrom([0x30, 0x30, HexByte(c as nat / 16), HexByte(c as nat % 16)] + rest, 4, 0) == Got(c as nat, rest)
  {
    var hi, lo := HexByte(c as nat / 16), HexByte(c as nat % 16);
    var input := [0x30, 0x30, hi, lo] + rest;
    assert input[1..] == [0x30, hi, lo] + rest;
    assert input[1..][1..] == [hi, lo] + rest;
    assert input[1..][1..][1..] == [lo] + rest;
    assert input[1..][1..][1..][1..] == rest;
    assert HexDigit(hi) == Some(c as nat / 16) && HexDigit(lo) == Some(c as nat % 16);
    assert HexFrom(rest, 0, c as nat) == Got(c as nat, rest);
    assert HexFrom([lo] + rest, 1, c as nat / 16) == Got(c as nat, rest);
    assert HexFrom([hi, lo] + rest, 2, 0) == Got(c as nat, rest);
    assert HexFrom([0x30, hi, lo] + rest, 3, 0) == Got(c as nat, rest);
  }

  // ----- the decoder -----

  /** What one read hands over at most, and whether it tells of the end along with the last bytes. */
  datatype Grant = Grant(size: nat, early: bool)

  predicate IsPlain(c: Byte) {
    c != QUOTE && c != BACKSLASH
  }

  lemma {:induction false} PlainReads(plain: seq<Byte>, rest: seq<Byte>, value: seq<Byte>)
    requires forall k :: 0 <= k < |plain| ==> IsPlain(plain[k])
    ensures StringFrom(plain + rest, value) == StringFrom(rest, value + plain)
  {
    if plain == [] {
      assert plain + rest == rest && value + plain == value;
    } else {
      assert (plain + rest)[1..] == plain[1..] + rest;
      assert value + [plain[0]] + plain[1..] == value + plain;
      PlainReads(plain[1..], rest, value + [plain[0]]);
    }
  }

  /** What the escape `input` starts with makes of a value, and the input after it. */
  predicate EscapeGives(input: seq<Byte>, value: seq<Byte>, r: Option<seq<Byte>>, rest: seq<Byte>) {
    if input == [] then r == None
    else if input[0] == SMALL_U then
      match UnicodeEscape(input[1..])
      case Failed => r == None
      case Got(u, after) => r == Some(value + Utf8(u)) && rest == after
    else
      match PlainEscape(input[0])
      case None => r == None
      case Some(c) => r == Some(value + [c]) && rest == input[1..]
  }

  lemma {:induction false} EscapeStep(input: seq<Byte>, value: seq<Byte>, r: Option<seq<Byte>>, rest: seq<Byte>)
    requires EscapeGives(input, value, r, rest)
    ensures r.None? ==> StringFrom([BACKSLASH] + input, value).Failed?
    ensures r.Some? ==> StringFrom([BACKSLASH] + input, value) == StringFrom(rest, r.value) && |rest| <= |input|
  {
    var whole := [BACKSLASH] + input;
    if input != [] { assert whole[2..] == input[1..]; }
  }

  class Decoder {
    ghost const whole: seq<Byte>
    var source: seq<Byte>
    var grants: seq<Grant>
    var ended: bool
    var buf: array<Byte>
    var pos: nat
    var end: nat
    var moved: nat

    constructor (source: seq<Byte>, grants: seq<Grant>, capacity: nat)
      requires capacity > 0
      ensures Valid() && fresh(buf) && Rest() == source && whole == source && Offset() == 0
    {
      this.source, this.grants, ended, whole := source, grants, false, source;
      buf := new Byte[capacity];
      pos, end, moved := 0, 0, 0;
    }

    /** The input not yet consumed. */
    ghost function Rest(): seq<Byte>
      reads this, buf
      requires pos <= end <= buf.Length
    {
      buf[pos..end] + source
    }

    function Offset(): nat
      reads this
    {
      moved + pos
    }

    /** What is not consumed is what follows the offset. */
    ghost predicate Valid()
      reads this, buf
    {
      && pos <= end <= buf.Length && 0 < buf.Length
      && Offset() <= |whole| && Rest() == whole[Offset()..]
      && (ended ==> source == [])
    }

    /** Hands the next `n` bytes of the source over to the buffer. */
    method Put(n: nat)
      requires Valid() && n <= |source| && end + n <= buf.Length
      modifies this`source, this`end, buf
      ensures Valid() && Rest() == old(Rest()) && end == old(end) + n && source == old(source)[n..]
    {
      ghost var held := buf[pos..end];
      forall k | 0 <= k < n { buf[end + k] := source[k]; }
      assert buf[pos..end] == held && buf[end..end + n] == source[..n];
      assert buf[pos..end + n] == held + source[..n];
      assert held + source == held + source[..n] + source[n..];
      end := end + n;
      source := source[n..];
    }

    /** Reads once into the free part of the buffer. */
    method ReadInto() returns (n: nat)
      requires Valid() && !ended && end < buf.Length
      modifies this`source, this`grants, this`ended, this`end, buf
      ensures Valid() && Rest() == old(Rest()) && end == old(end) + n && source == old(source)[n..]
      ensures n <= |old(source)| && (n == 0 <==> old(source) == []) && (n == 0 ==> ended)
    {
      n := |source|;
      var early := false;
      if grants != [] {
        if 0 < grants[0].size < n { n := grants[0].size; } else if grants[0].size == 0 && n > 0 { n := 1; }
        early := grants[0].early;
        grants := grants[1..];
      }
      if buf.Length - end < n { n := buf.Length - end; }
      Put(n);
      ended := n == 0 || (early && source == []);
    }

    /** Moves what is left of the buffer to its start, makes room where there is none and reads
        once more; false at the end of the input. */
    method Fill() returns (more: bool)
      requires Valid()
      modifies this`source, this`grants, this`ended, this`buf, this`pos, this`end, this`moved, buf
      ensures Valid() && Rest() == old(Rest()) && (buf == old(buf) || fresh(buf))
      ensures more ==> |source| < |old(source)| && end - pos > old(end - pos)
      ensures !more ==> old(source) == [] && end - pos == old(end - pos)
    {
      if ended { return false; }
      if pos > 0 {
        ghost var kept := buf[pos..end];
        forall k | 0 <= k < end - pos { buf[k] := buf[pos + k]; }
        moved := moved + pos;
        end := end - pos;
        pos := 0;
        assert buf[pos..end] == kept;
      }
      if end == buf.Length {
        var larger := new Byte[2 * buf.Length];
        forall k | 0 <= k < end { larger[k] := buf[k]; }
        assert larger[pos..end] == buf[pos..end];
        buf := larger;
      }
      var n := ReadInto();
      more := n > 0;
    }

    /** Skips white space and returns the next byte. */
    method Peek() returns (c: Option<Byte>)
      requires Valid()
      modifies this`source, this`grants, this`ended, this`buf, this`pos, this`end, this`moved, buf
      ensures Valid() && Rest() == Trim(old(Rest())) && (buf == old(buf) || fresh(buf))
      ensures c == if Rest() == [] then None else Some(Rest()[0])
      ensures c.Some? ==> pos < end
    {
      while true
        invariant Valid() && Trim(Rest()) == Trim(old(Rest())) && (buf == old(buf) || fresh(buf))
        decreases |source|, end - pos
      {
        if pos < end {
          assert Rest()[0] == buf[pos];
          if !IsSpace(buf[pos]) { return Some(buf[pos]); }
          Consume();
        } else {
          var more := Fill();
          if !more { return None; }
        }
      }
    }

    method Expect(c: Byte) returns (ok: bool)
      requires Valid()
      modifies this`source, this`grants, this`ended, this`buf, this`pos, this`end, this`moved, buf
      ensures Valid() && (buf == old(buf) || fresh(buf))
      ensures var rest := Trim(old(Rest())); ok == (rest != [] && rest[0] == c) && (ok ==> Rest() == rest[1..])
    {
      var got := Peek();
      if got != Some(c) { return false; }
      Consume();
      return true;
    }

    method Consume()
      requires Valid() && pos < end
      modifies this`pos
      ensures Valid() && old(Rest()) != [] && Rest() == old(Rest())[1..]
    {
      pos := pos + 1;
      assert Rest() == old(Rest())[1..];
    }

    method ReadByte() returns (c: Option<Byte>)
      requires Valid()
      modifies this`source, this`grants, this`ended, this`buf, this`pos, this`end, this`moved, buf
      ensures Valid() && (buf == old(buf) || fresh(buf))
      ensures var rest := old(Rest()); if rest == [] then c.None? && Rest() == [] else
              c == Some(rest[0])
              && Rest() == rest[1..]
    {
      if pos == end {
        var more := Fill();
        if !more { return None; }
      }
      c := Some(buf[pos]);
      Consume();
    }

    method ReadDigit() returns (d: Option<nat>)
      requires Valid()
      modifies this`source, this`grants, this`ended, this`buf, this`pos, this`end, this`moved, buf
      ensures Valid() && (buf == old(buf) || fresh(buf))
      ensures var rest := old(Rest());
              d == (if rest == [] then None else HexDigit(rest[0]))
              && (d.Some? ==> Rest() == rest[1..])
    {
      var c := ReadByte();
      d := if c.Some? then HexDigit(c.value) else None;
    }

    /** Reads `n` hexadecimal digits. */
    method ReadHex(n: nat) returns (r: Option<nat>)
      requires Valid()
      modifies this`source, this`grants, this`ended, this`buf, this`pos, this`end, this`moved, buf
      ensures Valid() && (buf == old(buf) || fresh(buf))
      ensures match HexFrom(old(Rest()), n, 0) case Got(v, rest) => r == Some(v) && Rest() == rest
              case Failed => r == None
    {
      var value: nat := 0;
      for k := 0 to n
        invariant Valid() && (buf == old(buf) || fresh(buf))
        invariant HexFrom(Rest(), n - k, value) == HexFrom(old(Rest()), n, 0)
      {
        var d := ReadDigit();
        if d.None? { return None; }
        value := value * 16 + d.value;
      }
      r := Some(value);
    }

    /** The character of an escape after \u. */
    method ReadUnicode() returns (r: Option<nat>)
      requires Valid()
      modifies this`source, this`grants, this`ended, this`buf, this`pos, this`end, this`moved, buf
      ensures Valid() && (buf == old(buf) || fresh(buf))
      ensures match UnicodeEscape(old(Rest())) case Got(v, rest) => r == Some(v) && Rest() == rest
              case Failed => r == None
    {
      r := ReadHex(4);
      if r.None? || !IsSurrogate(r.value) { return; }
      var next := ReadByte();
      if next == Some(BACKSLASH) {
        var u := ReadByte();
        if u == Some(SMALL_U) {
          var low := ReadHex(4);
          if low.None? { return None; }
          r := Some(DecodePair(r.value, low.value));
        }
      }
    }

    /** Takes what stands in the buffer before a quote or a backslash. */
    method TakePlain(dst: seq<Byte>) returns (more: seq<Byte>)
      requires Valid()
      modifies this`pos
      ensures Valid() && StringFrom(Rest(), more) == StringFrom(old(Rest()), dst) && |Rest()| <= |old(Rest())|
      ensures pos < end ==> !IsPlain(buf[pos])
    {
      var start := pos;
      ghost var input := Rest();
      while pos < end && IsPlain(buf[pos])
        invariant start <= pos <= end
        invariant forall k :: start <= k < pos ==> IsPlain(buf[k])
      {
        pos := pos + 1;
      }
      ghost var plain := buf[start..pos];
      assert buf[start..end] == plain + buf[pos..end];
      assert input == plain + Rest();
      assert Rest() == input[|plain|..] == whole[Offset()..];
      PlainReads(plain, Rest(), dst);
      more := dst + buf[start..pos];
    }

    /** Appends what the escape after a backslash stands for. */
    method ReadEscape(dst: seq<Byte>) returns (r: Option<seq<Byte>>)
      requires Valid()
      modifies this`source, this`grants, this`ended, this`buf, this`pos, this`end, this`moved, buf
      ensures Valid() && (buf == old(buf) || fresh(buf))
      ensures EscapeGives(old(Rest()), dst, r, Rest())
    {
      var escape := ReadByte();
      if escape.None? { return None; }
      if escape.value == SMALL_U {
        var u := ReadUnicode();
        if u.None? { return None; }
        r := Some(dst + Utf8(u.value));
      } else {
        var plain := PlainEscape(escape.value);
        if plain.None? { return None; }
        r := Some(dst + [plain.value]);
      }
    }

    /** Takes a quote, which closes the string, or a whole escape. */
    method TakeSpecial(dst: seq<Byte>) returns (closed: bool, r: Option<seq<Byte>>)
      requires Valid() && pos < end && !IsPlain(buf[pos])
      modifies this`source, this`grants, this`ended, this`buf, this`pos, this`end, this`moved, buf
      ensures Valid() && (buf == old(buf) || fresh(buf))
      ensures closed ==> r == Some(dst) && StringFrom(old(Rest()), dst) == Got(dst, Rest())
      ensures !closed && r.None? ==> StringFrom(old(Rest()), dst).Failed?
      ensures !closed && r.Some? ==>
              StringFrom(old(Rest()), dst) == StringFrom(Rest(), r.value)
              && |Rest()| < |old(Rest())|
    {
      var c := buf[pos];
      assert Rest()[0] == c && Rest() == [c] + Rest()[1..];
      Consume();
      if c == QUOTE { return true, Some(dst); }
      ghost var input := Rest();
      closed := false;
      r := ReadEscape(dst);
      EscapeStep(input, dst, r, Rest());
    }

    /** Appends the decoded string at the input to `dst`. */
    method ReadString(dst: seq<Byte>) returns (r: Option<seq<Byte>>)
      requires Valid()
      modifies this`source, this`grants, this`ended, this`buf, this`pos, this`end, this`moved, buf
      ensures Valid() && (buf == old(buf) || fresh(buf))
      ensures match ReadStringOf(old(Rest()), dst) case Got(v, after) => r == Some(v) && Rest() == after
              case Failed => r == None
    {
      var ok := Expect(QUOTE);
      if !ok { return None; }
      ghost var goal := StringFrom(Rest(), dst);
      var value := dst;
      while true
        invariant Valid() && (buf == old(buf) || fresh(buf)) && StringFrom(Rest(), value) == goal
        decreases |Rest()|, |source|
      {
        value := TakePlain(value);
        if pos == end {
          var more := Fill();
          if !more { return None; }
        } else {
          var closed, next := TakeSpecial(value);
          if closed || next.None? { return next; }
          value := next.value;
        }
      }
    }

    /** Skips an escape that is whole in the buffer. */
    method SkipTwo()
      requires Valid() && pos + 1 < end && buf[pos] == BACKSLASH
      modifies this`pos
      ensures Valid() && SkipFrom(Rest()) == SkipFrom(old(Rest())) && |Rest()| < |old(Rest())|
    {
      ghost var before := Rest();
      assert before[0] == buf[pos] && |before| > 1;
      Consume();
      Consume();
      assert before[1..][1..] == before[2..];
    }

    /** Skips a string without decoding it. */
    method SkipString() returns (ok: bool)
      requires Valid()
      modifies this`source, this`grants, this`ended, this`buf, this`pos, this`end, this`moved, buf
      ensures Valid() && (buf == old(buf) || fresh(buf))
      ensures match SkipStringOf(old(Rest())) case Got(_, rest) => ok && Rest() == rest case Failed => !ok
    {
      ok := Expect(QUOTE);
      if !ok { return; }
      ghost var goal := SkipFrom(Rest());
      while true
        invariant Valid() && (buf == old(buf) || fresh(buf)) && SkipFrom(Rest()) == goal
        decreases |Rest()|, |source|
      {
        if pos < end && buf[pos] == QUOTE {
          Consume();
          return true;
        } else if pos < end && buf[pos] != BACKSLASH {
          Consume();
        } else if pos + 1 < end {
          SkipTwo();
        } else {
          // An escape and its byte are kept in one window.
          var more := Fill();
          if !more { return false; }
        }
      }
    }
  }
}
