/** Splitting Clojure source into forms (internal/clojureproject/source.go:38-121): every text is
    read to its end, forms lie side by side and inside each other, and the text of a form read on
    its own gives the same form again. */
module ClojureReader {
  import opened Characters

  datatype Option<+T> = None | Some(value: T)

  datatype Form = Form(start: nat, end: nat, children: seq<Form>)

  /** What ends a token. */
  predicate Ends(c: char) {
    IsSpace(c) || c == '(' || c == ')' || c == '[' || c == ']' || c == '{' || c == '}' || c == '\"' || c == ','
      || c == ';'
  }

  function Closing(c: char): Option<char> {
    if c == '(' then Some(')') else if c == '[' then Some(']') else if c == '{' then Some('}') else None
  }

  function LineEnd(text: string, at: nat): (next: nat)
    requires at <= |text|
    ensures at <= next <= |text|
    decreases |text| - at
  {
    if at < |text| && text[at] != '\n' then LineEnd(text, at + 1) else at
  }

  /** Past white space, commas and comments. */
  function Space(text: string, at: nat): (next: nat)
    requires at <= |text|
    ensures at <= next <= |text|
    decreases |text| - at, 1
  {
    if at == |text| then at
    else if IsSpace(text[at]) || text[at] == ',' then Space(text, at + 1)
    else if text[at] == ';' then Space(text, LineEnd(text, at + 1))
    else at
  }

  function Token(text: string, at: nat): (next: nat)
    requires at <= |text|
    ensures at <= next <= |text|
    decreases |text| - at
  {
    if at < |text| && !Ends(text[at]) then Token(text, at + 1) else at
  }

  /** Past the end of a string, from inside it. */
  function StringEnd(text: string, at: nat): (next: nat)
    requires at <= |text|
    ensures at <= next <= |text|
    decreases |text| - at
  {
    if at == |text| then at
    else if text[at] == '\\' then (if at + 2 <= |text| then StringEnd(text, at + 2) else |text|)
    else if text[at] == '\"' then at + 1
    else StringEnd(text, at + 1)
  }

  predicate Discards(text: string, at: nat)
    requires at < |text|
  {
    text[at] == '#' && at + 1 < |text| && text[at+1] == '_'
  }

  /** The forms up to a closing bracket, or to the end of the text. */
  function Forms(text: string, at: nat, closing: Option<char>): (r: (seq<Form>, nat))
    requires at <= |text|
    ensures at <= r.1 <= |text|
    decreases |text| - at, 3
  {
    var here := Space(text, at);
    if here == |text| then ([], here)
    else if closing == Some(text[here]) then ([], here + 1)
    else
      var first := ReadForm(text, here);
      var rest := Forms(text, first.end, closing);
      (if Discards(text, here) then rest.0 else [first] + rest.0, rest.1)
  }

  /** One form, after white space; its end is where reading goes on. */
  function ReadForm(text: string, at: nat): (f: Form)
    requires at <= |text|
    ensures f.start == Space(text, at) && f.start <= f.end <= |text| && (f.start < |text| ==> f.start < f.end)
    decreases |text| - at, 2
  {
    var start := Space(text, at);
    if start == |text| then Form(start, start, [])
    else if Closing(text[start]).Some? then
      var inside := Forms(text, start + 1, Closing(text[start]));
      Form(start, inside.1, inside.0)
    else Form(start, After(text, start), [])
  }

  /** What a form begins with that is no bracketed list. */
  datatype Lead = Text | Character | Meta | Reader | Plain

  function LeadOf(c: char): Lead {
    if c == '\"' then Text
    else if c == '\\' then Character
    else if c == '^' then Meta
    else if c == '\'' || c == '`' || c == '@' || c == '~' || c == '#' then Reader
    else Plain
  }

  /** Where the form starts that a reader prefix stands before. */
  function Prefixed(text: string, start: nat): (next: nat)
    requires start < |text|
    ensures start < next <= |text|
  {
    if start + 1 == |text| then start + 1
    else
      var c, d := text[start], text[start+1];
      if c == '#' then
        if d == '(' || d == '{' || d == '\"' then start + 1
        else if d == '\'' || d == '_' || d == '=' then start + 2
        else Token(text, start + 1)
      else if c == '~' && d == '@' then start + 2
      else start + 1
  }

  /** Where a form ends that is no bracketed list. */
  function After(text: string, start: nat): (next: nat)
    requires start < |text|
    ensures start < next <= |text|
    decreases |text| - start, 1
  {
    match LeadOf(text[start])
    case Text => StringEnd(text, start + 1)
    case Character => Token(text, if start + 1 < |text| then start + 2 else start + 1)
    case Meta => ReadForm(text, ReadForm(text, start + 1).end).end
    case Reader => ReadForm(text, Prefixed(text, start)).end
    case Plain => Token(text, start + 1)
  }

  // ----- where forms lie -----

  /** The forms lie side by side in a stretch of text, each holding the forms in it. */
  predicate Lie(forms: seq<Form>, low: nat, high: nat)
    decreases forms
  {
    forms == [] ||
    (var f := forms[0];
     low <= f.start < f.end <= high && Lie(f.children, f.start + 1, f.end) && Lie(forms[1..], f.end, high))
  }

  lemma {:induction false} LieWider(forms: seq<Form>, low: nat, lower: nat, high: nat)
    requires Lie(forms, low, high) && lower <= low
    ensures Lie(forms, lower, high)
  {
  }

  lemma {:induction false} FormsLie(text: string, at: nat, closing: Option<char>)
    requires at <= |text|
    ensures Lie(Forms(text, at, closing).0, at, Forms(text, at, closing).1)
    decreases |text| - at, 3
  {
    var here := Space(text, at);
    if here < |text| && closing != Some(text[here]) {
      var first := ReadForm(text, here);
      SpaceStays(text, at);
      FormLies(text, here);
      FormsLie(text, first.end, closing);
      var rest := Forms(text, first.end, closing);
      LieWider(rest.0, first.end, at, rest.1);
    }
  }

  lemma {:induction false} SpaceStays(text: string, at: nat)
    requires at <= |text|
    ensures Space(text, Space(text, at)) == Space(text, at)
    decreases |text| - at
  {
    if at < |text| {
      if IsSpace(text[at]) || text[at] == ',' { SpaceStays(text, at + 1); }
      else if text[at] == ';' { SpaceStays(text, LineEnd(text, at + 1)); }
    }
  }

  /** The forms in a form lie in its text, behind its first character. */
  lemma {:induction false} FormLies(text: string, at: nat)
    requires at <= |text|
    ensures var f := ReadForm(text, at); f.start < |text| ==> Lie(f.children, f.start + 1, f.end)
    decreases |text| - at, 2
  {
    var start := Space(text, at);
    if start < |text| && Closing(text[start]).Some? { FormsLie(text, start + 1, Closing(text[start])); }
  }

  // ----- reading a part of the text -----

  function Shift(f: Form, d: nat): Form {
    Form(f.start + d, f.end + d, ShiftAll(f.children, d))
  }

  function ShiftAll(forms: seq<Form>, d: nat): seq<Form> {
    if forms == [] then [] else [Shift(forms[0], d)] + ShiftAll(forms[1..], d)
  }

  lemma {:induction false} ShiftAllAt(forms: seq<Form>, d: nat, k: nat)
    requires k < |forms|
    ensures |ShiftAll(forms, d)| == |forms| && ShiftAll(forms, d)[k] == Shift(forms[k], d)
    decreases k
  {
    if k > 0 { ShiftAllAt(forms[1..], d, k - 1); } else { ShiftAllLength(forms, d); }
  }

  lemma {:induction false} ShiftAllLength(forms: seq<Form>, d: nat)
    ensures |ShiftAll(forms, d)| == |forms|
  {
    if forms != [] { ShiftAllLength(forms[1..], d); }
  }

  /** What is left of a text without its first `s` characters. */
  predicate Tail(text: string, s: nat, u: string) {
    |text| == |u| + s && forall k {:trigger u[k]} :: 0 <= k < |u| ==> u[k] == text[k + s]
  }

  lemma {:induction false} SpaceFrom(text: string, s: nat, u: string, at: nat)
    requires Tail(text, s, u) && at <= |u|
    ensures Space(text, at + s) == Space(u, at) + s
    decreases |u| - at
  {
    if at < |u| {
      if IsSpace(u[at]) || u[at] == ',' { SpaceFrom(text, s, u, at + 1); }
      else if u[at] == ';' {
        LineEndFrom(text, s, u, at + 1);
        SpaceFrom(text, s, u, LineEnd(u, at + 1));
      }
    }
  }

  lemma {:induction false} LineEndFrom(text: string, s: nat, u: string, at: nat)
    requires Tail(text, s, u) && at <= |u|
    ensures LineEnd(text, at + s) == LineEnd(u, at) + s
    decreases |u| - at
  {
    if at < |u| && u[at] != '\n' { LineEndFrom(text, s, u, at + 1); }
  }

  lemma {:induction false} TokenFrom(text: string, s: nat, u: string, at: nat)
    requires Tail(text, s, u) && at <= |u|
    ensures Token(text, at + s) == Token(u, at) + s
    decreases |u| - at
  {
    if at < |u| && !Ends(u[at]) { TokenFrom(text, s, u, at + 1); }
  }

  lemma {:induction false} StringFrom(text: string, s: nat, u: string, at: nat)
    requires Tail(text, s, u) && at <= |u|
    ensures StringEnd(text, at + s) == StringEnd(u, at) + s
    decreases |u| - at
  {
    if at < |u| {
      if u[at] == '\\' { if at + 2 <= |u| { StringFrom(text, s, u, at + 2); } }
      else if u[at] != '\"' { StringFrom(text, s, u, at + 1); }
    }
  }

  lemma {:induction false} ShiftMore(first: Form, rest: seq<Form>, d: nat)
    ensures ShiftAll([first] + rest, d) == [Shift(first, d)] + ShiftAll(rest, d)
  {
    assert ([first] + rest)[1..] == rest;
  }

  /** A form and the forms after it. */
  function Join(discards: bool, first: Form, rest: (seq<Form>, nat)): (seq<Form>, nat) {
    (if discards then rest.0 else [first] + rest.0, rest.1)
  }

  function ShiftRead(r: (seq<Form>, nat), d: nat): (seq<Form>, nat) {
    (ShiftAll(r.0, d), r.1 + d)
  }

  lemma {:induction false} ShiftJoin(discards: bool, first: Form, rest: (seq<Form>, nat), d: nat)
    ensures Join(discards, Shift(first, d), ShiftRead(rest, d)) == ShiftRead(Join(discards, first, rest), d)
  {
    ShiftMore(first, rest.0, d);
  }

  lemma {:induction false} FormsAre(text: string, at: nat, closing: Option<char>, here: nat)
    requires at <= here < |text| && Space(text, at) == here && closing != Some(text[here])
    ensures ReadForm(text, here).start == here && here < ReadForm(text, here).end
    ensures Forms(text, at, closing) ==
            Join(Discards(text, here), ReadForm(text, here), Forms(text, ReadForm(text, here).end, closing))
  {
    SpaceStays(text, at);
  }

  /** Reading does not look back: without what stands before, forms are the same, shifted. */
  lemma {:induction false} FormsFrom(text: string, s: nat, u: string, at: nat, closing: Option<char>)
    requires Tail(text, s, u) && at <= |u|
    ensures Forms(text, at + s, closing) == ShiftRead(Forms(u, at, closing), s)
    decreases |u| - at, 3
  {
    SpaceFrom(text, s, u, at);
    var here := Space(u, at);
    if here < |u| {
      assert u[here] == text[here + s];
      if closing != Some(u[here]) { NextFrom(text, s, u, at, closing, here); }
    }
  }

  lemma {:induction false} FormsJoin(text: string, at: nat, closing: Option<char>, here: nat, first: Form,
                                     rest: (seq<Form>, nat))
    requires at <= here < |text| && Space(text, at) == here && closing != Some(text[here])
    requires ReadForm(text, here) == first && first.end <= |text| && Forms(text, first.end, closing) == rest
    ensures Forms(text, at, closing) == Join(Discards(text, here), first, rest)
  {
    FormsAre(text, at, closing, here);
  }

  lemma {:induction false} NextFrom(text: string, s: nat, u: string, at: nat, closing: Option<char>, here: nat)
    requires Tail(text, s, u) && at <= here < |u| && Space(u, at) == here && Space(text, at + s) == here + s
    requires closing != Some(u[here]) && text[here + s] == u[here]
    ensures Forms(text, at + s, closing) == ShiftRead(Forms(u, at, closing), s)
    decreases |u| - at, 2, 4
  {
    FormsAre(u, at, closing, here);
    var first := ReadForm(u, here);
    var rest := Forms(u, first.end, closing);
    FormFrom(text, s, u, here);
    FormsFrom(text, s, u, first.end, closing);
    DiscardsFrom(text, s, u, here);
    FormsJoin(text, at + s, closing, here + s, Shift(first, s), ShiftRead(rest, s));
    ShiftJoin(Discards(u, here), first, rest, s);
  }

  lemma {:induction false} DiscardsFrom(text: string, s: nat, u: string, at: nat)
    requires Tail(text, s, u) && at < |u|
    ensures Discards(text, at + s) == Discards(u, at)
  {
    assert u[at] == text[at + s];
    if at + 1 < |u| { assert u[at + 1] == text[at + 1 + s]; }
  }

  lemma {:induction false} FormFrom(text: string, s: nat, u: string, at: nat)
    requires Tail(text, s, u) && at <= |u|
    ensures ReadForm(text, at + s) == Shift(ReadForm(u, at), s)
    decreases |u| - at, 2, 3
  {
    SpaceFrom(text, s, u, at);
    var start := Space(u, at);
    if start < |u| {
      assert u[start] == text[start + s];
      if Closing(u[start]).Some? { ListFrom(text, s, u, at, start); } else { AfterFrom(text, s, u, start); }
    }
  }

  lemma {:induction false} ListFrom(text: string, s: nat, u: string, at: nat, start: nat)
    requires Tail(text, s, u) && at <= start < |u| && Space(u, at) == start && Space(text, at + s) == start + s
    requires text[start + s] == u[start] && Closing(u[start]).Some?
    ensures ReadForm(text, at + s) == Shift(ReadForm(u, at), s)
    decreases |u| - start, 2, 2
  {
    FormsFrom(text, s, u, start + 1, Closing(u[start]));
  }

  lemma {:induction false} PrefixedFrom(text: string, s: nat, u: string, start: nat)
    requires Tail(text, s, u) && start < |u|
    ensures Prefixed(text, start + s) == Prefixed(u, start) + s
  {
    assert u[start] == text[start + s];
    if start + 1 < |u| { assert u[start + 1] == text[start + 1 + s]; }
    TokenFrom(text, s, u, start + 1);
  }

  lemma {:induction false} MetaFrom(text: string, s: nat, u: string, start: nat)
    requires Tail(text, s, u) && start < |u| && LeadOf(u[start]).Meta?
    ensures After(text, start + s) == After(u, start) + s
    decreases |u| - start, 0
  {
    assert u[start] == text[start + s];
    FormFrom(text, s, u, start + 1);
    var mid := ReadForm(u, start + 1).end;
    assert ReadForm(text, start + s + 1).end == mid + s;
    FormFrom(text, s, u, mid);
  }

  lemma {:induction false} ReaderFrom(text: string, s: nat, u: string, start: nat)
    requires Tail(text, s, u) && start < |u| && LeadOf(u[start]).Reader?
    ensures After(text, start + s) == After(u, start) + s
    decreases |u| - start, 0
  {
    assert u[start] == text[start + s];
    PrefixedFrom(text, s, u, start);
    FormFrom(text, s, u, Prefixed(u, start));
  }

  lemma {:induction false} AfterFrom(text: string, s: nat, u: string, start: nat)
    requires Tail(text, s, u) && start < |u|
    ensures After(text, start + s) == After(u, start) + s
    decreases |u| - start, 1
  {
    assert u[start] == text[start + s];
    match LeadOf(u[start])
    case Text => StringFrom(text, s, u, start + 1);
    case Character => TokenFrom(text, s, u, if start + 1 < |u| then start + 2 else start + 1);
    case Meta => MetaFrom(text, s, u, start);
    case Reader => ReaderFrom(text, s, u, start);
    case Plain => TokenFrom(text, s, u, start + 1);
  }

  // ----- and without what follows -----

  function Min(a: nat, b: nat): nat {
    if a < b then a else b
  }

  lemma {:induction false} LineEndTo(text: string, e: nat, at: nat)
    requires at <= e <= |text|
    ensures LineEnd(text[..e], at) == Min(LineEnd(text, at), e)
    decreases |text| - at
  {
    if at < e && text[at] != '\n' { LineEndTo(text, e, at + 1); }
  }

  lemma {:induction false} SpaceTo(text: string, e: nat, at: nat)
    requires at <= e <= |text|
    ensures Space(text[..e], at) == Min(Space(text, at), e)
    decreases |text| - at
  {
    if at < e {
      if IsSpace(text[at]) || text[at] == ',' { SpaceTo(text, e, at + 1); }
      else if text[at] == ';' {
        LineEndTo(text, e, at + 1);
        if LineEnd(text, at + 1) <= e { SpaceTo(text, e, LineEnd(text, at + 1)); }
      }
    }
  }

  lemma {:induction false} TokenTo(text: string, e: nat, at: nat)
    requires at <= e <= |text|
    ensures Token(text[..e], at) == Min(Token(text, at), e)
    decreases |text| - at
  {
    if at < e && !Ends(text[at]) { TokenTo(text, e, at + 1); }
  }

  lemma {:induction false} StringTo(text: string, e: nat, at: nat)
    requires at <= e <= |text| && StringEnd(text, at) <= e
    ensures StringEnd(text[..e], at) == StringEnd(text, at)
    decreases |text| - at
  {
    if at < e {
      if text[at] == '\\' { if at + 2 <= |text| { StringTo(text, e, at + 2); } }
      else if text[at] != '\"' { StringTo(text, e, at + 1); }
    }
  }

  /** Reading does not look past where it ends: with the text cut there, forms are the same. */
  lemma {:induction false} FormsTo(text: string, e: nat, at: nat, closing: Option<char>)
    requires at <= e < |text| && Forms(text, at, closing).1 <= e
    ensures Forms(text[..e], at, closing) == Forms(text, at, closing)
    decreases |text| - at, 3
  {
    SpaceTo(text, e, at);
    var here := Space(text, at);
    if closing != Some(text[here]) {
      var first := ReadForm(text, here);
      SpaceStays(text, at);
      FormTo(text, e, here);
      FormsTo(text, e, first.end, closing);
      DiscardsTo(text, e, here);
    }
  }

  lemma {:induction false} DiscardsTo(text: string, e: nat, here: nat)
    requires here < e <= |text| && Space(text, here) == here && ReadForm(text, here).end <= e
    ensures Discards(text[..e], here) == Discards(text, here)
  {
  }

  lemma {:induction false} FormTo(text: string, e: nat, at: nat)
    requires at <= e < |text| && ReadForm(text, at).end <= e
    ensures ReadForm(text[..e], at) == ReadForm(text, at)
    decreases |text| - at, 2
  {
    SpaceTo(text, e, at);
    var start := Space(text, at);
    if Closing(text[start]).Some? {
      FormsTo(text, e, start + 1, Closing(text[start]));
    } else {
      AfterTo(text, e, start);
    }
  }

  lemma {:induction false} PrefixedTo(text: string, e: nat, start: nat)
    requires start < e < |text| && Prefixed(text, start) <= e && ReadForm(text, Prefixed(text, start)).end <= e
    ensures Prefixed(text[..e], start) == Prefixed(text, start)
  {
    TokenTo(text, e, start + 1);
  }

  lemma {:induction false} AfterTo(text: string, e: nat, start: nat)
    requires start < e < |text| && After(text, start) <= e
    ensures After(text[..e], start) == After(text, start)
    decreases |text| - start, 1
  {
    match LeadOf(text[start])
    case Text => StringTo(text, e, start + 1);
    case Character => TokenTo(text, e, start + 2);
    case Meta =>
      FormTo(text, e, start + 1);
      FormTo(text, e, ReadForm(text, start + 1).end);
    case Reader =>
      PrefixedTo(text, e, start);
      FormTo(text, e, Prefixed(text, start));
    case Plain => TokenTo(text, e, start + 1);
  }

  // ----- a form on its own -----

  /** The text of a form, read on its own, is the one form it was. */
  lemma {:induction false} FormAlone(text: string, at: nat)
    requires at < |text| && Space(text, at) == at
    ensures var f := ReadForm(text, at);
            var own := text[at..f.end];
            && Shift(ReadForm(own, 0), at) == f
            && Forms(own, 0, None) == (if Discards(text, at) then [] else [ReadForm(own, 0)], |own|)
  {
    var f := ReadForm(text, at);
    var own := text[at..f.end];
    CutForm(text, at);
    FormFrom(text[..f.end], at, own, 0);
    SpaceFrom(text[..f.end], at, own, 0);
    assert ReadForm(own, 0).end == |own|;
    assert Forms(own, |own|, None) == ([], |own|);
    assert [ReadForm(own, 0)] + [] == [ReadForm(own, 0)];
    assert Forms(own, 0, None) == (if Discards(own, 0) then [] else [ReadForm(own, 0)], |own|);
    CutDiscards(text, at);
  }

  lemma {:induction false} CutForm(text: string, at: nat)
    requires at < |text| && Space(text, at) == at
    ensures ReadForm(text[..ReadForm(text, at).end], at) == ReadForm(text, at)
            && Space(text[..ReadForm(text, at).end], at) == at
  {
    var e := ReadForm(text, at).end;
    SpaceTo(text, e, at);
    if e < |text| { FormTo(text, e, at); } else { assert text[..e] == text; }
  }

  lemma {:induction false} CutDiscards(text: string, at: nat)
    requires at < |text| && Space(text, at) == at
    ensures Discards(text[at..ReadForm(text, at).end], 0) == Discards(text, at)
  {
    var own := text[at..ReadForm(text, at).end];
    assert own[0] == text[at];
    if Discards(text, at) { assert Prefixed(text, at) == at + 2 && ReadForm(text, at).end >= at + 2; }
    assert |own| > 1 ==> own[1] == text[at+1];
  }

  function TextOf(text: string, f: Form): string
    requires f.start <= f.end <= |text|
  {
    text[f.start..f.end]
  }

  /** So the arguments of a call are found from the call's own text: each child of the form there
      has the text it has in the file, at its place less the call's. */
  lemma {:induction false} ArgumentsFromCall(text: string, at: nat, k: nat)
    requires at < |text| && Closing(text[at]).Some? && Space(text, at) == at
    requires k < |ReadForm(text, at).children|
    ensures var f := ReadForm(text, at);
            var own := text[at..f.end];
            && |ReadForm(own, 0).children| == |f.children|
            && var mine := ReadForm(own, 0).children[k];
               && mine.start + at == f.children[k].start && mine.end + at == f.children[k].end
               && f.children[k].start <= f.children[k].end <= f.end
               && TextOf(own, mine) == TextOf(text, f.children[k])
  {
    var f := ReadForm(text, at);
    var alone := ReadForm(text[at..f.end], 0).children;
    FormAlone(text, at);
    ShiftAllLength(alone, at);
    ShiftAllAt(alone, at, k);
    assert f.children[k] == Shift(alone[k], at);
    FormLies(text, at);
    ChildLies(f.children, f.start + 1, f.end, k);
    SliceOf(text, at, f.end, alone[k].start, alone[k].end);
  }

  lemma {:induction false} SliceOf(text: string, low: nat, high: nat, a: nat, b: nat)
    requires low <= high <= |text| && a <= b <= high - low
    ensures text[low..high][a..b] == text[low + a..low + b]
  {
    var x, y := text[low..high][a..b], text[low + a..low + b];
    assert |x| == |y|;
    forall k | 0 <= k < |x| ensures x[k] == y[k] { assert x[k] == text[low..high][a + k] == text[low + (a + k)]; }
  }

  lemma {:induction false} ChildLies(forms: seq<Form>, low: nat, high: nat, k: nat)
    requires Lie(forms, low, high) && k < |forms|
    ensures low <= forms[k].start < forms[k].end <= high
    decreases k
  {
    if k > 0 { ChildLies(forms[1..], forms[0].end, high, k - 1); }
  }

  // ----- the reader -----

  method SkipSpace(text: string, from: nat) returns (at: nat)
    requires from <= |text|
    ensures at == Space(text, from)
  {
    at := from;
    while at < |text|
      invariant from <= at <= |text| && Space(text, at) == Space(text, from)
    {
      if IsSpace(text[at]) || text[at] == ',' {
        at := at + 1;
      } else if text[at] == ';' {
        ghost var comment := at;
        at := at + 1;
        while at < |text| && text[at] != '\n'
          invariant comment < at <= |text| && LineEnd(text, at) == LineEnd(text, comment + 1)
        {
          at := at + 1;
        }
      } else {
        break;
      }
    }
  }

  method SkipToken(text: string, from: nat) returns (at: nat)
    requires from <= |text|
    ensures at == Token(text, from)
  {
    at := from;
    while at < |text| && !Ends(text[at])
      invariant from <= at <= |text| && Token(text, at) == Token(text, from)
    {
      at := at + 1;
    }
  }

  method SkipString(text: string, from: nat) returns (at: nat)
    requires from <= |text|
    ensures at == StringEnd(text, from)
  {
    at := from;
    while at < |text|
      invariant from <= at && (at <= |text| ==> StringEnd(text, at) == StringEnd(text, from))
      invariant at > |text| ==> StringEnd(text, from) == |text|
      decreases |text| - at
    {
      if text[at] == '\\' { at := at + 2; }
      else if text[at] == '\"' { return at + 1; }
      else { at := at + 1; }
    }
    if at > |text| { at := |text|; }
  }

  function Prepend(out: seq<Form>, r: (seq<Form>, nat)): (seq<Form>, nat) {
    (out + r.0, r.1)
  }

  lemma {:induction false} PrependJoin(out: seq<Form>, discards: bool, first: Form, rest: (seq<Form>, nat))
    ensures Prepend(out, Join(discards, first, rest)) == Prepend(if discards then out else out + [first], rest)
    ensures Prepend([], rest) == rest
  {
    assert out + ([first] + rest.0) == out + [first] + rest.0;
    assert [] + rest.0 == rest.0;
  }

  /** Reads the forms up to a closing bracket, or to the end of the text. */
  method ReadForms(text: string, from: nat, closing: Option<char>) returns (out: seq<Form>, at: nat)
    requires from <= |text|
    ensures (out, at) == Forms(text, from, closing)
    decreases |text| - from, 3
  {
    out, at := [], from;
    ghost var goal := Forms(text, from, closing);
    PrependJoin([], true, Form(0, 0, []), goal);
    while true
      invariant from <= at <= |text| && goal == Prepend(out, Forms(text, at, closing))
      decreases |text| - at
    {
      ghost var before := at;
      at := SkipSpace(text, at);
      if at == |text| || closing == Some(text[at]) {
        assert out + [] == out;
        return out, if at == |text| then at else at + 1;
      }
      FormsAre(text, before, closing, at);
      var node := ReadFormAt(text, at);
      PrependJoin(out, Discards(text, at), node, Forms(text, node.end, closing));
      if !Discards(text, at) { out := out + [node]; }
      at := node.end;
    }
  }

  /** Reads one form. */
  method ReadFormAt(text: string, from: nat) returns (f: Form)
    requires from <= |text|
    ensures f == ReadForm(text, from)
    decreases |text| - from, 2
  {
    var start := SkipSpace(text, from);
    if start == |text| { return Form(start, start, []); }
    if Closing(text[start]).Some? {
      var children, end := ReadForms(text, start + 1, Closing(text[start]));
      return Form(start, end, children);
    }
    var end;
    match LeadOf(text[start]) {
      case Text => end := SkipString(text, start + 1);
      case Character => end := SkipToken(text, if start + 1 < |text| then start + 2 else start + 1);
      case Meta =>
        var meta := ReadFormAt(text, start + 1);
        var marked := ReadFormAt(text, meta.end);
        end := marked.end;
      case Reader =>
        var inner := ReadFormAt(text, Prefixed(text, start));
        end := inner.end;
      case Plain => end := SkipToken(text, start + 1);
    }
    f := Form(start, end, []);
  }
}
