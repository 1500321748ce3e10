/** Text order, decimal numerals and sorting, as the sealing of graphs uses them. */
module Ordering {

  datatype Option<+T> = None | Some(value: T)

  // ----- text -----

  predicate Less(a: string, b: string) {
    if b == "" then false
    else if a == "" then true
    else if a[0] != b[0] then a[0] < b[0]
    else Less(a[1..], b[1..])
  }

  lemma {:induction false} LessAsymmetric(a: string, b: string)
    requires Less(a, b)
    ensures !Less(b, a) && a != b
  {
    if a != "" && a[0] == b[0] { LessAsymmetric(a[1..], b[1..]); }
  }

  lemma {:induction false} LessTotal(a: string, b: string)
    ensures Less(a, b) || Less(b, a) || a == b
  {
    if a != "" && b != "" && a[0] == b[0] {
      LessTotal(a[1..], b[1..]);
      if a[1..] == b[1..] { assert a == [a[0]] + a[1..] && b == [b[0]] + b[1..]; }
    }
  }

  lemma {:induction false} LessTransitive(a: string, b: string, c: string)
    requires Less(a, b) && Less(b, c)
    ensures Less(a, c)
  {
    if a != "" && a[0] == b[0] && b[0] == c[0] { LessTransitive(a[1..], b[1..], c[1..]); }
  }

  lemma {:induction false} LessAfter(p: string, a: string, b: string)
    ensures Less(p + a, p + b) == Less(a, b)
  {
    if p == "" { assert p + a == a && p + b == b; }
    else {
      assert (p + a)[1..] == p[1..] + a && (p + b)[1..] == p[1..] + b;
      LessAfter(p[1..], a, b);
    }
  }

  // ----- numerals -----

  function Digit(d: nat): char
    requires d < 10
  {
    '0' + d as char
  }

  function Decimal(n: nat): (s: string)
    ensures s != ""
  {
    if n < 10 then [Digit(n)] else Decimal(n / 10) + [Digit(n % 10)]
  }

  /** The number a numeral writes. */
  function Number(s: string): Option<nat> {
    if s == "" then None
    else
      var c := s[|s|-1];
      if c < '0' || c > '9' then None
      else
        var d := (c - '0') as nat;
        if |s| == 1 then Some(d)
        else match Number(s[..|s|-1]) case None => None case Some(n) => Some(n * 10 + d)
  }

  lemma {:induction false} NumberOfDecimal(n: nat)
    ensures Number(Decimal(n)) == Some(n)
  {
    var s := Decimal(n);
    if n < 10 { assert s == [Digit(n)]; }
    else {
      NumberOfDecimal(n / 10);
      assert s[..|s|-1] == Decimal(n / 10) && s[|s|-1] == Digit(n % 10);
    }
  }

  /** Of two numerals as long as each other the smaller number's is first. */
  lemma {:induction false} DecimalLess(m: nat, n: nat)
    requires m < n && |Decimal(m)| == |Decimal(n)|
    ensures Less(Decimal(m), Decimal(n))
  {
    if n >= 10 {
      assert m >= 10;
      var a, b := Decimal(m / 10), Decimal(n / 10);
      if m / 10 < n / 10 {
        DecimalLess(m / 10, n / 10);
        LessThen(a, b, [Digit(m % 10)], [Digit(n % 10)]);
      } else {
        assert m / 10 == n / 10;
        LessAfter(a, [Digit(m % 10)], [Digit(n % 10)]);
      }
    }
  }

  lemma {:induction false} LessThen(a: string, b: string, x: string, y: string)
    requires Less(a, b) && |a| == |b|
    ensures Less(a + x, b + y)
  {
    if a[0] == b[0] {
      LessThen(a[1..], b[1..], x, y);
      assert (a + x)[1..] == a[1..] + x && (b + y)[1..] == b[1..] + y;
    }
  }

  lemma {:induction false} LongerDecimal(m: nat, n: nat)
    requires m <= n
    ensures |Decimal(m)| <= |Decimal(n)|
  {
    if m >= 10 { LongerDecimal(m / 10, n / 10); }
  }

  /** Where counting on makes a numeral longer, text order and number order part. */
  lemma {:induction false} DecimalCarries(m: nat)
    requires |Decimal(m)| < |Decimal(m + 1)|
    ensures !Less(Decimal(m), Decimal(m + 1))
  {
    Nines(m);
  }

  lemma {:induction false} Nines(m: nat)
    requires |Decimal(m)| < |Decimal(m + 1)|
    ensures Decimal(m)[0] == '9' && Decimal(m + 1)[0] == '1'
  {
    if m < 9 {
    } else if m == 9 {
      assert Decimal(10) == Decimal(1) + [Digit(0)];
    } else {
      assert m % 10 == 9 && (m + 1) / 10 == m / 10 + 1;
      Nines(m / 10);
    }
  }

  // ----- sorting -----

  /** No element stands before a smaller one. */
  ghost predicate Ordered<T(!new)>(s: seq<T>, less: (T, T) -> bool) {
    forall i, j :: 0 <= i < j < |s| ==> less(s[i], s[j])
  }

  /** Equal elements keep their order. */
  function Insert<T>(s: seq<T>, x: T, less: (T, T) -> bool): seq<T> {
    if s == [] || !less(x, s[|s|-1]) then s + [x] else Insert(s[..|s|-1], x, less) + [s[|s|-1]]
  }

  function Sorted<T>(s: seq<T>, less: (T, T) -> bool): seq<T> {
    if s == [] then [] else Insert(Sorted(s[..|s|-1], less), s[|s|-1], less)
  }

  lemma {:induction false} InsertKeeps<T>(s: seq<T>, x: T, less: (T, T) -> bool)
    ensures multiset(Insert(s, x, less)) == multiset(s) + multiset{x}
  {
    if s != [] && less(x, s[|s|-1]) {
      InsertKeeps(s[..|s|-1], x, less);
      assert s == s[..|s|-1] + [s[|s|-1]];
    }
  }

  lemma {:induction false} SortedKeeps<T>(s: seq<T>, less: (T, T) -> bool)
    ensures multiset(Sorted(s, less)) == multiset(s)
  {
    if s != [] {
      SortedKeeps(s[..|s|-1], less);
      InsertKeeps(Sorted(s[..|s|-1], less), s[|s|-1], less);
      assert s == s[..|s|-1] + [s[|s|-1]];
    }
  }

  lemma {:induction false} KeptMembers<T>(a: seq<T>, b: seq<T>)
    requires multiset(a) == multiset(b)
    ensures |a| == |b| && forall x :: x in a <==> x in b
  {
    assert |multiset(a)| == |multiset(b)|;
    forall x ensures x in a <==> x in b { assert x in a <==> x in multiset(a); }
  }

  /** `less` orders any two elements of the list one way. */
  ghost predicate Total<T(!new)>(s: seq<T>, less: (T, T) -> bool) {
    && (forall i, j :: 0 <= i < j < |s| ==> less(s[i], s[j]) || less(s[j], s[i]))
    && forall x, y, z :: x in s && y in s && z in s && less(x, y) && less(y, z) ==> less(x, z)
  }

  lemma {:induction false} InsertOrders<T(!new)>(s: seq<T>, x: T, less: (T, T) -> bool)
    requires Ordered(s, less)
    requires forall y :: y in s ==> less(x, y) || less(y, x)
    requires forall u, v, w ::
             (u in s || u == x) && (v in s || v == x) && (w in s || w == x) && less(u, v)
             && less(v, w)
             ==> less(u, w)
    ensures Ordered(Insert(s, x, less), less)
  {
    if s != [] {
      var last, rest := s[|s|-1], s[..|s|-1];
      if !less(x, last) {
        assert last in s;
        forall i | 0 <= i < |s| ensures less(s[i], x) { if i < |s| - 1 { assert less(s[i], last); } }
      } else {
        InsertOrders(rest, x, less);
        InsertKeeps(rest, x, less);
        var t := Insert(rest, x, less);
        KeptMembers(t, rest + [x]);
        forall i | 0 <= i < |t| ensures less(t[i], last) {
          assert t[i] in rest + [x];
          if t[i] != x { var j :| 0 <= j < |rest| && rest[j] == t[i]; assert less(s[j], s[|s|-1]); }
        }
      }
    }
  }

  lemma {:induction false} SortedOrders<T(!new)>(s: seq<T>, less: (T, T) -> bool)
    requires Total(s, less)
    ensures Ordered(Sorted(s, less), less)
  {
    if s != [] {
      var last, rest := s[|s|-1], s[..|s|-1];
      assert forall x :: x in rest ==> x in s;
      SortedOrders(rest, less);
      SortedKeeps(rest, less);
      KeptMembers(Sorted(rest, less), rest);
      forall y | y in Sorted(rest, less) ensures less(last, y) || less(y, last) {
        var j :| 0 <= j < |rest| && rest[j] == y;
        assert less(s[j], s[|s|-1]) || less(s[|s|-1], s[j]);
      }
      InsertOrders(Sorted(rest, less), last, less);
    }
  }

  lemma {:induction false} FirstIsFirst<T(!new)>(a: seq<T>, x: T, less: (T, T) -> bool)
    requires Ordered(a, less) && x in a
    ensures a[0] == x || less(a[0], x)
  {
    var i :| 0 <= i < |a| && a[i] == x;
  }

  lemma {:induction false} SameFirst<T(!new)>(a: seq<T>, b: seq<T>, less: (T, T) -> bool)
    requires Ordered(a, less) && Ordered(b, less) && a != [] && b != [] && a[0] in b && b[0] in a
    requires forall x, y :: x in a && y in a && less(x, y) ==> !less(y, x)
    ensures a[0] == b[0]
  {
    FirstIsFirst(a, b[0], less);
    FirstIsFirst(b, a[0], less);
  }

  lemma {:induction false} SameRest<T>(a: seq<T>, b: seq<T>)
    requires a != [] && b != [] && a[0] == b[0] && multiset(a) == multiset(b)
    ensures multiset(a[1..]) == multiset(b[1..])
  {
    assert a == [a[0]] + a[1..] && b == [b[0]] + b[1..];
    assert multiset(a[1..]) == multiset(a) - multiset{a[0]};
  }

  /** There is one order only. */
  lemma {:induction false} OneOrder<T(!new)>(a: seq<T>, b: seq<T>, less: (T, T) -> bool)
    requires Ordered(a, less) && Ordered(b, less) && multiset(a) == multiset(b)
    requires forall x, y :: x in a && y in a && less(x, y) ==> !less(y, x)
    ensures a == b
  {
    KeptMembers(a, b);
    if a != [] {
      SameFirst(a, b, less);
      SameRest(a, b);
      OneOrder(a[1..], b[1..], less);
      assert a == [a[0]] + a[1..] && b == [b[0]] + b[1..];
    }
  }

  // ----- sorting what some of which is equal -----

  /** No element stands behind one it comes before. */
  ghost predicate Settled<T(!new)>(s: seq<T>, less: (T, T) -> bool) {
    forall i, j :: 0 <= i < j < |s| ==> !less(s[j], s[i])
  }

  lemma {:induction false} InsertSettles<T(!new)>(s: seq<T>, x: T, less: (T, T) -> bool)
    requires Settled(s, less)
    requires forall u, v :: (u in s || u == x) && (v in s || v == x) && less(u, v) ==> !less(v, u)
    requires forall u, v, w ::
             (u in s || u == x) && (v in s || v == x) && (w in s || w == x) && !less(u, v)
             && !less(v, w)
             ==> !less(u, w)
    ensures Settled(Insert(s, x, less), less)
  {
    if s != [] {
      var last, rest := s[|s|-1], s[..|s|-1];
      if !less(x, last) {
        assert last in s;
        forall i | 0 <= i < |s| ensures !less(x, s[i]) { if i < |s| - 1 { assert !less(last, s[i]); } }
      } else {
        InsertSettles(rest, x, less);
        InsertKeeps(rest, x, less);
        var t := Insert(rest, x, less);
        KeptMembers(t, rest + [x]);
        forall i | 0 <= i < |t| ensures !less(last, t[i]) {
          assert t[i] in rest + [x];
          if t[i] != x { var j :| 0 <= j < |rest| && rest[j] == t[i]; assert !less(s[|s|-1], s[j]); }
        }
      }
    }
  }

  /** Sorting settles a list whose elements `less` puts in classes one behind the other. */
  lemma {:induction false} SortedSettles<T(!new)>(s: seq<T>, less: (T, T) -> bool)
    requires forall u, v :: u in s && v in s && less(u, v) ==> !less(v, u)
    requires forall u, v, w :: u in s && v in s && w in s && !less(u, v) && !less(v, w) ==> !less(u, w)
    ensures Settled(Sorted(s, less), less)
  {
    if s != [] {
      var last, rest := s[|s|-1], s[..|s|-1];
      assert forall x :: x in rest ==> x in s;
      SortedSettles(rest, less);
      SortedKeeps(rest, less);
      KeptMembers(Sorted(rest, less), rest);
      InsertSettles(Sorted(rest, less), last, less);
    }
  }

  function Chosen<T>(s: seq<T>, choose: T -> bool): seq<T> {
    if s == [] then [] else Chosen(s[..|s|-1], choose) + if choose(s[|s|-1]) then [s[|s|-1]] else []
  }

  lemma {:induction false} InsertStable<T(!new)>(s: seq<T>, x: T, less: (T, T) -> bool, choose: T -> bool)
    requires forall u, v :: choose(u) && choose(v) ==> !less(u, v)
    ensures Chosen(Insert(s, x, less), choose) == Chosen(s, choose) + if choose(x) then [x] else []
  {
    if s == [] || !less(x, s[|s|-1]) {
      assert (s + [x])[..|s|] == s;
    } else {
      var last, rest := s[|s|-1], s[..|s|-1];
      InsertStable(rest, x, less, choose);
      var t := Insert(rest, x, less);
      assert (t + [last])[..|t|] == t;
    }
  }

  /** Among elements none of which comes before another, sorting changes nothing. */
  lemma {:induction false} SortedStable<T(!new)>(s: seq<T>, less: (T, T) -> bool, choose: T -> bool)
    requires forall u, v :: choose(u) && choose(v) ==> !less(u, v)
    ensures Chosen(Sorted(s, less), choose) == Chosen(s, choose)
  {
    if s != [] {
      SortedStable(s[..|s|-1], less, choose);
      InsertStable(Sorted(s[..|s|-1], less), s[|s|-1], less, choose);
    }
  }

  /** No element stands right behind one it comes before. */
  ghost predicate Stepped<T>(s: seq<T>, less: (T, T) -> bool) {
    forall i :: 0 < i < |s| ==> !less(s[i], s[i-1])
  }

  lemma {:induction false} InsertSteps<T(!new)>(s: seq<T>, x: T, less: (T, T) -> bool)
    requires Stepped(s, less) && forall u, v :: less(u, v) ==> !less(v, u)
    ensures Stepped(Insert(s, x, less), less)
    ensures var t := Insert(s, x, less); t != [] && (t[|t|-1] == x || (s != [] && t[|t|-1] == s[|s|-1]))
  {
    if s != [] && less(x, s[|s|-1]) { InsertSteps(s[..|s|-1], x, less); }
  }

  lemma {:induction false} SortedSteps<T(!new)>(s: seq<T>, less: (T, T) -> bool)
    requires forall u, v :: less(u, v) ==> !less(v, u)
    ensures Stepped(Sorted(s, less), less)
  {
    if s != [] {
      SortedSteps(s[..|s|-1], less);
      InsertSteps(Sorted(s[..|s|-1], less), s[|s|-1], less);
    }
  }

  lemma {:induction false} SteppedStays<T>(s: seq<T>, less: (T, T) -> bool)
    requires Stepped(s, less)
    ensures Sorted(s, less) == s
  {
    if s != [] { SteppedStays(s[..|s|-1], less); }
  }

  /** Sorting again changes nothing. */
  lemma {:induction false} SortedAgain<T(!new)>(s: seq<T>, less: (T, T) -> bool)
    requires forall u, v :: less(u, v) ==> !less(v, u)
    ensures Sorted(Sorted(s, less), less) == Sorted(s, less)
  {
    SortedSteps(s, less);
    SteppedStays(Sorted(s, less), less);
  }

  /** Elements neither of which comes before the other being equal, there is one settled order only. */
  lemma {:induction false} OneSettled<T(!new)>(a: seq<T>, b: seq<T>, less: (T, T) -> bool)
    requires Settled(a, less) && Settled(b, less) && multiset(a) == multiset(b)
    requires forall x, y :: x in a && y in a && !less(x, y) && !less(y, x) ==> x == y
    requires forall x :: x in a ==> !less(x, x)
    ensures a == b
  {
    KeptMembers(a, b);
    if a != [] {
      assert a[0] in b && b[0] in a;
      var i :| 0 <= i < |b| && b[i] == a[0];
      var j :| 0 <= j < |a| && a[j] == b[0];
      assert !less(a[0], b[0]) && !less(b[0], a[0]);
      SameRest(a, b);
      OneSettled(a[1..], b[1..], less);
      assert a == [a[0]] + a[1..] && b == [b[0]] + b[1..];
    }
  }

  lemma {:induction false} Without<T>(s: seq<T>, i: nat)
    requires i < |s|
    ensures multiset(s[..i] + s[i+1..]) == multiset(s) - multiset{s[i]}
  {
    assert s == s[..i] + [s[i]] + s[i+1..];
  }
}
