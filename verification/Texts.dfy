/** What text order, numerals, numbered ids and the order of fields are, said on characters, digits and
    places (Go's string comparison and strconv, as internal/atlas/atlas.go and
    internal/dependencies/catalog.go use them). */
module Texts {
  import opened Ordering
  import opened Canon

  // ----- text order -----

  /** The texts agree up to `k`, where the first ends or has the smaller character. */
  predicate PartsAt(a: string, b: string, k: nat) {
    k <= |a| && k < |b| && a[..k] == b[..k] && (k == |a| || a[k] < b[k])
  }

  lemma {:induction false} PartsLater(a: string, b: string, k: nat)
    requires a != "" && b != "" && a[0] == b[0]
    ensures PartsAt(a, b, k + 1) <==> PartsAt(a[1..], b[1..], k)
  {
    if k < |a| && k < |b| {
      assert a[..k+1] == [a[0]] + a[1..][..k] && b[..k+1] == [b[0]] + b[1..][..k];
      assert a[..k+1][1..] == a[1..][..k] && b[..k+1][1..] == b[1..][..k];
    }
  }

  lemma {:induction false} LessParts(a: string, b: string) returns (k: nat)
    requires Less(a, b)
    ensures PartsAt(a, b, k)
  {
    if a == "" || a[0] != b[0] { return 0; }
    k := LessParts(a[1..], b[1..]);
    PartsLater(a, b, k);
    k := k + 1;
  }

  lemma {:induction false} PartsLess(a: string, b: string, k: nat)
    requires PartsAt(a, b, k)
    ensures Less(a, b)
  {
    if k > 0 {
      assert a[..k][0] == a[0] && b[..k][0] == b[0];
      PartsLater(a, b, k - 1);
      PartsLess(a[1..], b[1..], k - 1);
    }
  }

  /** A text comes first when it ends or has the smaller character where the two part. */
  lemma {:induction false} LessExactly(a: string, b: string)
    ensures Less(a, b) <==> exists k :: PartsAt(a, b, k)
  {
    if Less(a, b) { var k := LessParts(a, b); }
    if k: nat :| PartsAt(a, b, k) { PartsLess(a, b, k); }
  }

  // ----- numerals -----

  function Power(k: nat): (n: nat)
    ensures n > 0
  {
    if k == 0 then 1 else 10 * Power(k - 1)
  }

  /** The digit `k` places from the right. */
  function DigitAt(s: string, k: nat): char
    requires k < |s|
  {
    s[|s|-1-k]
  }

  lemma {:induction false} TenTimes(n: nat, k: nat)
    ensures n / Power(k + 1) == n / 10 / Power(k)
  {
    Quotients(n, 10, Power(k));
  }

  lemma {:induction false} Quotients(n: nat, a: nat, b: nat)
    requires a > 0 && b > 0
    ensures a * b > 0 && n / (a * b) == n / a / b
  {
    NoSmaller(a, 1, b);
    var q := n / a;
    assert n == a * q + n % a && q == b * (q / b) + q % b;
    Twice(n, a, b, q, q / b, q % b, n % a);
  }

  lemma {:induction false} Twice(n: nat, a: nat, b: nat, q: nat, u: nat, v: nat, r: nat)
    requires a * b > 0 && n == a * q + r && q == b * u + v && v < b && r < a
    ensures n / (a * b) == u
  {
    Regroup(a, b, u, v, r);
    Below(a, b, v, r);
    Divides(n, a * b, u, a * v + r);
  }

  lemma {:induction false} Regroup(a: nat, b: nat, u: nat, v: nat, r: nat)
    ensures a * (b * u + v) + r == (a * b) * u + (a * v + r)
  {
    assert a * (b * u + v) == a * (b * u) + a * v;
  }

  lemma {:induction false} Below(a: nat, b: nat, v: nat, r: nat)
    requires v < b && r < a
    ensures 0 <= a * v + r < a * b
  {
    assert a * (v + 1) <= a * b;
  }

  lemma {:induction false} NoSmaller(m: nat, a: nat, b: nat)
    requires a <= b
    ensures m * a <= m * b
  {
  }

  lemma {:induction false} SameQuotient(m: nat, p: nat, r: nat, q: nat, s: nat)
    requires r < m && s < m && m * p + r == m * q + s
    ensures p == q
  {
    if p < q { NoSmaller(m, p + 1, q); }
    if q < p { NoSmaller(m, q + 1, p); }
  }

  lemma {:induction false} Divides(n: nat, m: nat, u: nat, r: nat)
    requires m > 0 && n == m * u + r && r < m
    ensures n / m == u
  {
    SameQuotient(m, n / m, n % m, u, r);
  }

  /** A numeral has the number's decimal digits, one for each place. */
  lemma {:induction false} DecimalDigits(n: nat, k: nat)
    requires k < |Decimal(n)|
    ensures DigitAt(Decimal(n), k) == Digit(n / Power(k) % 10)
  {
    if n < 10 { assert k == 0 && Decimal(n) == [Digit(n)]; }
    else {
      var rest := Decimal(n / 10);
      assert Decimal(n) == rest + [Digit(n % 10)];
      if k > 0 {
        DecimalDigits(n / 10, k - 1);
        TenTimes(n, k - 1);
        assert DigitAt(Decimal(n), k) == DigitAt(rest, k - 1);
      }
    }
  }

  /** And no more places than it needs. */
  lemma {:induction false} DecimalLength(n: nat)
    ensures n < Power(|Decimal(n)|) && (|Decimal(n)| > 1 ==> Power(|Decimal(n)| - 1) <= n)
  {
    if n < 10 { assert Power(1) == 10 * Power(0); }
    else { DecimalLength(n / 10); }
  }

  // ----- numbered ids -----

  /** An id is compact when it is the prefix and a positive number as it is written. */
  lemma {:induction false} CompactExactly(id: string, prefix: char)
    ensures IsCompact(id, prefix) <==> exists n: nat :: n > 0 && id == [prefix] + Decimal(n)
  {
    if IsCompact(id, prefix) {
      assert id == [prefix] + Decimal(Number(id[1..]).value);
      assert exists n: nat :: n > 0 && id == [prefix] + Decimal(n);
    } else if n: nat :| n > 0 && id == [prefix] + Decimal(n) {
      CompactNumber(prefix, n);
    }
  }

  // ----- the order of fields -----

  /** The lists of fields agree before the field `k`, where the first has the smaller text. */
  predicate FieldDecides(a: seq<string>, b: seq<string>, k: nat) {
    k < |a| && k < |b| && a[..k] == b[..k] && a[k] != b[k] && Less(a[k], b[k])
  }

  lemma {:induction false} FieldLater(a: seq<string>, b: seq<string>, k: nat)
    requires a != [] && b != [] && a[0] == b[0]
    ensures FieldDecides(a, b, k + 1) <==> FieldDecides(a[1..], b[1..], k)
  {
    if k + 1 < |a| && k + 1 < |b| {
      assert a[..k+1] == [a[0]] + a[1..][..k] && b[..k+1] == [b[0]] + b[1..][..k];
      assert a[..k+1][1..] == a[1..][..k] && b[..k+1][1..] == b[1..][..k];
    }
  }

  lemma {:induction false} FieldsDecide(a: seq<string>, b: seq<string>, k: nat)
    requires FieldDecides(a, b, k)
    ensures FieldsLess(a, b)
  {
    if k > 0 {
      assert a[..k][0] == a[0] && b[..k][0] == b[0];
      FieldLater(a, b, k - 1);
      FieldsDecide(a[1..], b[1..], k - 1);
    }
  }

  lemma {:induction false} FieldsDecided(a: seq<string>, b: seq<string>) returns (k: nat)
    requires FieldsLess(a, b)
    ensures FieldDecides(a, b, k)
  {
    if a[0] != b[0] { return 0; }
    k := FieldsDecided(a[1..], b[1..]);
    FieldLater(a, b, k);
    k := k + 1;
  }

  /** The first field in which the lists differ decides. */
  lemma {:induction false} FieldsExactly(a: seq<string>, b: seq<string>)
    ensures FieldsLess(a, b) <==> exists k :: FieldDecides(a, b, k)
  {
    if FieldsLess(a, b) { var k := FieldsDecided(a, b); }
    if k: nat :| FieldDecides(a, b, k) { FieldsDecide(a, b, k); }
  }
}
