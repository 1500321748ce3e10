/** Lists in canonical form: sorted by a linear order and free of repeats. */
module Canon {
  import opened Ordering

  // ----- linear orders -----

  ghost predicate Chained<T(!new)>(s: seq<T>, less: (T, T) -> bool) {
    && (forall x, y :: x in s && y in s && less(x, y) ==> x != y && !less(y, x))
    && (forall x, y, z :: x in s && y in s && z in s && less(x, y) && less(y, z) ==> less(x, z))
  }

  /** `less` puts the elements of the list in one line. */
  ghost predicate Linear<T(!new)>(s: seq<T>, less: (T, T) -> bool) {
    && Chained(s, less)
    && (forall x, y :: x in s && y in s ==> x == y || less(x, y) || less(y, x))
  }

  ghost predicate Rising<T(!new)>(s: seq<T>, less: (T, T) -> bool) {
    forall i, j :: 0 <= i < j < |s| ==> s[i] == s[j] || less(s[i], s[j])
  }

  lemma {:induction false} Fewer<T(!new)>(s: seq<T>, t: seq<T>, less: (T, T) -> bool)
    requires Linear(s, less) && forall x :: x in t ==> x in s
    ensures Linear(t, less)
  {
  }

  lemma {:induction false} InsertRises<T(!new)>(s: seq<T>, x: T, less: (T, T) -> bool)
    requires Linear(s + [x], less) && Rising(s, less)
    ensures Rising(Insert(s, x, less), less)
  {
    if s != [] {
      var last, rest := s[|s|-1], s[..|s|-1];
      assert x in s + [x] && last in s + [x];
      if !less(x, last) {
        forall i | 0 <= i < |s| ensures s[i] == x || less(s[i], x) {
          assert s[i] in s + [x];
          if i < |s| - 1 { assert s[i] == last || less(s[i], last); }
        }
      } else {
        Fewer(s + [x], rest + [x], less);
        InsertRises(rest, x, less);
        var t := Insert(rest, x, less);
        InsertKeeps(rest, x, less);
        KeptMembers(t, rest + [x]);
        forall i | 0 <= i < |t| ensures t[i] == last || less(t[i], last) {
          assert t[i] in rest + [x];
          if t[i] != x { var j :| 0 <= j < |rest| && rest[j] == t[i]; assert s[j] == s[|s|-1] || less(s[j], s[|s|-1]); }
        }
      }
    }
  }

  lemma {:induction false} SortedRises<T(!new)>(s: seq<T>, less: (T, T) -> bool)
    requires Linear(s, less)
    ensures Rising(Sorted(s, less), less)
  {
    if s != [] {
      var last, rest := s[|s|-1], s[..|s|-1];
      Fewer(s, rest, less);
      SortedRises(rest, less);
      SortedKeeps(rest, less);
      KeptMembers(Sorted(rest, less), rest);
      Fewer(s, Sorted(rest, less) + [last], less);
      InsertRises(Sorted(rest, less), last, less);
    }
  }

  // ----- leaving out repeats -----

  /** The list without each element that repeats the one before it. */
  function Squeeze<T(==)>(s: seq<T>): seq<T> {
    if |s| < 2 then s
    else if s[|s|-2] == s[|s|-1] then Squeeze(s[..|s|-1])
    else Squeeze(s[..|s|-1]) + [s[|s|-1]]
  }

  lemma {:induction false} SqueezeKeeps<T>(s: seq<T>)
    ensures forall x :: x in Squeeze(s) <==> x in s
    ensures s != [] ==> Squeeze(s) != [] && Squeeze(s)[|Squeeze(s)|-1] == s[|s|-1]
  {
    if |s| >= 2 {
      SqueezeKeeps(s[..|s|-1]);
      assert s == s[..|s|-1] + [s[|s|-1]] && s[|s|-2] in s[..|s|-1];
    }
  }

  lemma {:induction false} SqueezeOrders<T(!new)>(s: seq<T>, less: (T, T) -> bool)
    requires Chained(s, less) && Rising(s, less)
    ensures Ordered(Squeeze(s), less)
  {
    if |s| >= 2 {
      var rest, last := s[..|s|-1], s[|s|-1];
      SqueezeOrders(rest, less);
      SqueezeKeeps(rest);
      var t := Squeeze(rest);
      if s[|s|-2] != last {
        forall i | 0 <= i < |t| ensures less(t[i], last) {
          assert t[i] in rest;
          var j :| 0 <= j < |rest| && rest[j] == t[i];
          assert s[j] == s[|s|-2] || less(s[j], s[|s|-2]);
          assert s[|s|-2] in s && less(s[|s|-2], last);
        }
      }
    }
  }

  function CanonicalOf<T(==)>(s: seq<T>, less: (T, T) -> bool): seq<T> {
    Squeeze(Sorted(s, less))
  }

  lemma {:induction false} CanonicalKeeps<T>(s: seq<T>, less: (T, T) -> bool)
    ensures forall x :: x in CanonicalOf(s, less) <==> x in s
  {
    SortedKeeps(s, less);
    KeptMembers(Sorted(s, less), s);
    SqueezeKeeps(Sorted(s, less));
  }

  lemma {:induction false} CanonicalOrders<T(!new)>(s: seq<T>, less: (T, T) -> bool)
    requires Linear(s, less)
    ensures Ordered(CanonicalOf(s, less), less)
  {
    SortedRises(s, less);
    SortedKeeps(s, less);
    KeptMembers(Sorted(s, less), s);
    Fewer(s, Sorted(s, less), less);
    SqueezeOrders(Sorted(s, less), less);
  }

  /** Sorts and leaves out repeats in place. */
  method Canonical<T(==)>(values: seq<T>, less: (T, T) -> bool) returns (r: seq<T>)
    ensures r == CanonicalOf(values, less)
  {
    var sorted := Sorted(values, less);
    var result := new T[|sorted|](i requires 0 <= i < |sorted| => sorted[i]);
    var write := 0;
    for i := 0 to |sorted|
      invariant write <= i
      invariant result[..write] == Squeeze(sorted[..i])
      invariant forall k :: i <= k < |sorted| ==> result[k] == sorted[k]
    {
      SqueezeKeeps(sorted[..i]);
      assert sorted[..i+1][..i] == sorted[..i];
      var value := result[i];
      if write == 0 || result[write-1] != value {
        result[write] := value;
        write := write + 1;
      }
    }
    assert sorted[..|sorted|] == sorted;
    r := result[..write];
  }

  // ----- one list only -----

  lemma {:induction false} NotAgain<T(!new)>(a: seq<T>, less: (T, T) -> bool)
    requires Ordered(a, less) && Chained(a, less) && a != []
    ensures forall x :: x in a[1..] <==> x in a && x != a[0]
  {
    forall x | x in a[1..] ensures x in a && x != a[0] {
      var i :| 0 <= i < |a[1..]| && a[1..][i] == x;
      assert less(a[0], a[i+1]);
    }
    assert a == [a[0]] + a[1..];
  }

  lemma {:induction false} RestOrdered<T(!new)>(a: seq<T>, less: (T, T) -> bool)
    requires Ordered(a, less) && Chained(a, less) && a != []
    ensures Ordered(a[1..], less) && Chained(a[1..], less)
  {
    forall i, j | 0 <= i < j < |a[1..]| ensures less(a[1..][i], a[1..][j]) { assert less(a[i+1], a[j+1]); }
  }

  /** Two ordered lists of the same elements are the same. */
  lemma {:induction false} SameMembersSame<T(!new)>(a: seq<T>, b: seq<T>, less: (T, T) -> bool)
    requires Ordered(a, less) && Ordered(b, less) && Chained(a, less) && Chained(b, less)
    requires forall x :: x in a <==> x in b
    ensures a == b
  {
    assert a != [] ==> a[0] in b;
    assert b != [] ==> b[0] in a;
    if a != [] && b != [] {
      SameFirst(a, b, less);
      NotAgain(a, less);
      NotAgain(b, less);
      RestOrdered(a, less);
      RestOrdered(b, less);
      SameMembersSame(a[1..], b[1..], less);
      assert a == [a[0]] + a[1..] && b == [b[0]] + b[1..];
    }
  }

  lemma {:induction false} AdjacentOrders<T(!new)>(s: seq<T>, less: (T, T) -> bool)
    requires Chained(s, less)
    requires forall i :: 0 < i < |s| ==> less(s[i-1], s[i])
    ensures Ordered(s, less)
  {
    if s != [] {
      var rest, last := s[..|s|-1], s[|s|-1];
      AdjacentOrders(rest, less);
      forall i | 0 <= i < |s| - 1 ensures less(s[i], last) {
        if i < |s| - 2 { assert less(rest[i], rest[|s|-2]); }
      }
      forall i, j | 0 <= i < j < |s| ensures less(s[i], s[j]) {
        if j < |s| - 1 { assert less(rest[i], rest[j]); }
      }
    }
  }

  // ----- comparing field after field -----

  /** The first differing field decides. */
  predicate FieldsLess(a: seq<string>, b: seq<string>) {
    if a == [] || b == [] then false
    else if a[0] != b[0] then Less(a[0], b[0])
    else FieldsLess(a[1..], b[1..])
  }

  lemma {:induction false} FieldsTotal(a: seq<string>, b: seq<string>)
    requires |a| == |b|
    ensures a == b || FieldsLess(a, b) || FieldsLess(b, a)
  {
    if a != [] {
      LessTotal(a[0], b[0]);
      if a[0] == b[0] {
        FieldsTotal(a[1..], b[1..]);
        if a[1..] == b[1..] { assert a == [a[0]] + a[1..] && b == [b[0]] + b[1..]; }
      }
    }
  }

  lemma {:induction false} FieldsFirst(a: seq<string>, b: seq<string>, x: seq<string>, y: seq<string>)
    requires |a| == |b| && a != b
    ensures FieldsLess(a + x, b + y) == FieldsLess(a, b)
  {
    if a[0] == b[0] {
      assert a == [a[0]] + a[1..] && b == [b[0]] + b[1..];
      assert (a + x)[1..] == a[1..] + x && (b + y)[1..] == b[1..] + y;
      FieldsFirst(a[1..], b[1..], x, y);
    }
  }

  lemma {:induction false} FieldsOneWay(a: seq<string>, b: seq<string>)
    requires FieldsLess(a, b)
    ensures !FieldsLess(b, a) && a != b
  {
    if a[0] != b[0] { LessAsymmetric(a[0], b[0]); } else { FieldsOneWay(a[1..], b[1..]); }
  }

  lemma {:induction false} FieldsOn(a: seq<string>, b: seq<string>, c: seq<string>)
    requires FieldsLess(a, b) && FieldsLess(b, c)
    ensures FieldsLess(a, c)
  {
    if a[0] == b[0] && b[0] == c[0] { FieldsOn(a[1..], b[1..], c[1..]); }
    else if a[0] != b[0] && b[0] != c[0] {
      LessTransitive(a[0], b[0], c[0]);
      LessAsymmetric(a[0], c[0]);
    }
  }

  // ----- compact ids -----

  function Compact(prefix: char, n: nat): string {
    [prefix] + Decimal(n)
  }

  function Trim(id: string, prefix: char): string {
    if id != "" && id[0] == prefix then id[1..] else id
  }

  /** Ids that are the prefix and a number are compared by number, others as text. */
  predicate CompactLess(a: string, b: string, prefix: char) {
    var m, n := Number(Trim(a, prefix)), Number(Trim(b, prefix));
    if m.Some? && n.Some? && m.value != n.value then m.value < n.value else Less(a, b)
  }

  predicate IsCompact(id: string, prefix: char) {
    && id != "" && id[0] == prefix
    && var n := Number(id[1..]); n.Some? && n.value > 0 && Compact(prefix, n.value) == id
  }

  lemma {:induction false} CompactNumber(prefix: char, n: nat)
    ensures Number(Trim(Compact(prefix, n), prefix)) == Some(n)
    ensures n > 0 ==> IsCompact(Compact(prefix, n), prefix)
  {
    assert Compact(prefix, n)[1..] == Decimal(n);
    NumberOfDecimal(n);
  }

  lemma {:induction false} CompactOrder(prefix: char, m: nat, n: nat)
    ensures CompactLess(Compact(prefix, m), Compact(prefix, n), prefix) <==> m < n
    ensures Compact(prefix, m) == Compact(prefix, n) ==> m == n
  {
    CompactNumber(prefix, m);
    CompactNumber(prefix, n);
    if m == n && Less(Compact(prefix, m), Compact(prefix, m)) {
      LessAsymmetric(Compact(prefix, m), Compact(prefix, m));
    }
  }

  // ----- a digest's text -----

  /** The fields one after another, each after its length. */
  function Encoded(fields: seq<string>): string {
    if fields == [] then "" else Decimal(|fields[0]|) + ":" + fields[0] + Encoded(fields[1..])
  }

  lemma {:induction false} NoColon(n: nat)
    ensures ':' !in Decimal(n)
  {
    if n >= 10 { NoColon(n / 10); }
  }

  /** How much stands before the first mark. */
  function Before(s: string, mark: char): (n: nat)
    ensures n <= |s|
  {
    if s == "" || s[0] == mark then 0 else 1 + Before(s[1..], mark)
  }

  lemma {:induction false} BeforeMark(a: string, mark: char, x: string)
    requires mark !in a
    ensures Before(a + [mark] + x, mark) == |a|
  {
    if a == "" { assert a + [mark] + x == [mark] + x; }
    else {
      assert (a + [mark] + x)[1..] == a[1..] + [mark] + x;
      BeforeMark(a[1..], mark, x);
    }
  }

  /** Texts cut at their first mark are cut alike. */
  lemma {:induction false} SameCut(a: string, b: string, mark: char, x: string, y: string)
    requires mark !in a && mark !in b && a + [mark] + x == b + [mark] + y
    ensures a == b && x == y
  {
    var s, t := a + [mark] + x, b + [mark] + y;
    BeforeMark(a, mark, x);
    BeforeMark(b, mark, y);
    assert s[..|a|] == a && t[..|b|] == b && s[|a|+1..] == x && t[|b|+1..] == y;
  }

  /** Different lists of fields are digested from different texts. */
  lemma {:induction false} EncodedOnce(a: seq<string>, b: seq<string>)
    requires Encoded(a) == Encoded(b)
    ensures a == b
  {
    if a != [] && b != [] {
      var m, n := Decimal(|a[0]|), Decimal(|b[0]|);
      var x, y := a[0] + Encoded(a[1..]), b[0] + Encoded(b[1..]);
      assert Encoded(a) == m + [':'] + x && Encoded(b) == n + [':'] + y;
      NoColon(|a[0]|);
      NoColon(|b[0]|);
      SameCut(m, n, ':', x, y);
      NumberOfDecimal(|a[0]|);
      NumberOfDecimal(|b[0]|);
      assert x[..|a[0]|] == a[0] && y[..|b[0]|] == b[0];
      assert x[|a[0]|..] == Encoded(a[1..]) && y[|b[0]|..] == Encoded(b[1..]);
      EncodedOnce(a[1..], b[1..]);
      assert a == [a[0]] + a[1..] && b == [b[0]] + b[1..];
    }
  }
}
