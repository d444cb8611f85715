/** Strings, their byte-lexicographic order, and the decimal printing shared by the models. */
module Text {

  datatype Option<+T> = None | Some(value: T)

  datatype Result<+T, +E> = Success(value: T) | Failure(error: E)

  function Flatten(lines: seq<string>): string {
    if lines == [] then "" else lines[0] + Flatten(lines[1..])
  }

  // ----- order and sorting -----

  /** The order of Go's sort.Strings. */
  predicate Leq(a: string, b: string) {
    a == "" || (b != "" && (a[0] < b[0] || (a[0] == b[0] && Leq(a[1..], b[1..]))))
  }

  lemma {:induction false} LeqTotal(a: string, b: string)
    ensures Leq(a, b) || Leq(b, a)
  {
    if a != "" && b != "" && a[0] == b[0] {
      LeqTotal(a[1..], b[1..]);
    }
  }

  lemma {:induction false} LeqAntisymmetric(a: string, b: string)
    requires Leq(a, b) && Leq(b, a)
    ensures a == b
  {
    if a != "" && b != "" {
      LeqAntisymmetric(a[1..], b[1..]);
      assert a == [a[0]] + a[1..] && b == [b[0]] + b[1..];
    }
  }

  lemma {:induction false} LeqTransitive(a: string, b: string, c: string)
    requires Leq(a, b) && Leq(b, c)
    ensures Leq(a, c)
  {
    if a != "" && a[0] == b[0] && b[0] == c[0] {
      LeqTransitive(a[1..], b[1..], c[1..]);
    }
  }

  predicate Sorted(s: seq<string>) {
    s == [] || ((forall y | y in s[1..] :: Leq(s[0], y)) && Sorted(s[1..]))
  }

  function Insert(x: string, s: seq<string>): (r: seq<string>)
    ensures multiset(r) == multiset(s) + multiset{x}
  {
    if s == [] || Leq(x, s[0]) then [x] + s
    else
      assert s == [s[0]] + s[1..];
      [s[0]] + Insert(x, s[1..])
  }

  lemma {:induction false} InsertKeepsSorted(x: string, s: seq<string>)
    requires Sorted(s)
    ensures Sorted(Insert(x, s))
  {
    var r := Insert(x, s);
    if s == [] {
    } else if Leq(x, s[0]) {
      assert r[1..] == s;
      forall y | y in s ensures Leq(x, y) {
        if y != s[0] {
          assert y in s[1..];
          LeqTransitive(x, s[0], y);
        }
      }
    } else {
      LeqTotal(x, s[0]);
      InsertKeepsSorted(x, s[1..]);
      assert r[1..] == Insert(x, s[1..]);
      forall y | y in r[1..] ensures Leq(s[0], y) {
        assert y in multiset(r[1..]);
      }
    }
  }

  /** sort.Strings, as a library contract: the sorted permutation of its argument. */
  function Sort(s: seq<string>): (r: seq<string>)
    ensures Sorted(r) && multiset(r) == multiset(s)
  {
    if s == [] then [] else
      assert s == [s[0]] + s[1..];
      InsertKeepsSorted(s[0], Sort(s[1..]));
      Insert(s[0], Sort(s[1..]))
  }

  lemma Uncons<A>(s: seq<A>)
    requires s != []
    ensures s == [s[0]] + s[1..] && multiset(s[1..]) == multiset(s) - multiset{s[0]} && s[0] in multiset(s)
  {
    assert s == [s[0]] + s[1..];
  }

  /** Taking one element out of a sequence takes it out of the multiset. */
  lemma Split<A>(s: seq<A>, x: A) returns (a: seq<A>, b: seq<A>)
    requires x in s
    ensures s == a + [x] + b && multiset(a + b) == multiset(s) - multiset{x}
  {
    var k :| 0 <= k < |s| && s[k] == x;
    a, b := s[..k], s[k+1..];
    assert s == a + [x] + b;
  }

  /** Sorting is canonical: two sorted permutations of one another are the same sequence. */
  lemma {:induction false} SortedPermutationsAreEqual(a: seq<string>, b: seq<string>)
    requires Sorted(a) && Sorted(b) && multiset(a) == multiset(b)
    ensures a == b
  {
    assert |a| == |multiset(a)| == |multiset(b)| == |b|;
    if a != [] {
      Uncons(a);
      Uncons(b);
      if a[0] != b[0] {
        assert a[0] in b && b[0] in a;
        LeqAntisymmetric(a[0], b[0]);
      }
      SortedPermutationsAreEqual(a[1..], b[1..]);
    }
  }

  lemma {:induction false} PrefixIsLeq(a: string, b: string)
    requires a <= b
    ensures Leq(a, b)
  {
    if a != "" {
      PrefixIsLeq(a[1..], b[1..]);
    }
  }

  /** The strings differ first at k. */
  predicate DifferAt(a: string, b: string, k: nat) {
    k < |a| && k < |b| && a[..k] == b[..k] && a[k] != b[k]
  }

  lemma {:induction false} LeqAtDifference(a: string, b: string, k: nat)
    requires DifferAt(a, b, k)
    ensures Leq(a, b) <==> a[k] < b[k]
  {
    if k > 0 {
      assert a[0] == a[..k][0] == b[..k][0] == b[0];
      assert a[1..][..k-1] == a[..k][1..] && b[1..][..k-1] == b[..k][1..];
      LeqAtDifference(a[1..], b[1..], k - 1);
    }
  }

  lemma {:induction false} FirstDifference(a: string, b: string) returns (k: nat)
    requires !(a <= b) && !(b <= a)
    ensures DifferAt(a, b, k)
  {
    if a[0] != b[0] {
      k := 0;
    } else {
      assert a == [a[0]] + a[1..] && b == [b[0]] + b[1..];
      k := FirstDifference(a[1..], b[1..]);
      assert a[..k+1] == [a[0]] + a[1..][..k] && b[..k+1] == [b[0]] + b[1..][..k];
      k := k + 1;
    }
  }

  /** Byte-lexicographic order: a prefix, or smaller where the strings first differ. */
  lemma LeqIsByteOrder(a: string, b: string)
    ensures Leq(a, b) <==> a <= b || exists k: nat :: DifferAt(a, b, k) && a[k] < b[k]
  {
    forall k: nat | DifferAt(a, b, k) ensures Leq(a, b) <==> a[k] < b[k] {
      LeqAtDifference(a, b, k);
    }
    if a <= b {
      PrefixIsLeq(a, b);
    } else if b <= a {
      PrefixIsLeq(b, a);
      if Leq(a, b) {
        LeqAntisymmetric(a, b);
      }
    } else {
      var k := FirstDifference(a, b);
    }
  }

  lemma {:induction false} SortedMeans(s: seq<string>)
    ensures Sorted(s) ==> forall i, j | 0 <= i < j < |s| :: Leq(s[i], s[j])
  {
    if s != [] && Sorted(s) {
      SortedMeans(s[1..]);
      forall i, j | 0 <= i < j < |s| ensures Leq(s[i], s[j]) {
        assert s[j] == s[1..][j-1];
        if i > 0 {
          assert s[i] == s[1..][i-1];
        }
      }
    }
  }

  // ----- decimal numbers -----

  const DIGITS: string := "0123456789"

  /** `%d` of a non-negative number. */
  function Nat(n: nat): (s: string)
    ensures s != "" && forall c | c in s :: c in DIGITS
  {
    if n < 10 then [DIGITS[n]] else Nat(n / 10) + [DIGITS[n % 10]]
  }

  /** `%d` of any integer. */
  function Int(n: int): (s: string)
    ensures s != "" && forall c | c in s :: c in DIGITS || c == '-'
  {
    if n < 0 then "-" + Nat(-n) else Nat(n)
  }

  lemma {:induction false} NatInjective(m: nat, n: nat)
    requires Nat(m) == Nat(n)
    ensures m == n
  {
    var a, b := Nat(m), Nat(n);
    assert a[|a|-1] == DIGITS[m % 10] && b[|b|-1] == DIGITS[n % 10];
    assert (m < 10 <==> |a| == 1) && (n < 10 <==> |b| == 1);
    if m >= 10 {
      assert Nat(m / 10) == a[..|a|-1] && Nat(n / 10) == b[..|b|-1];
      NatInjective(m / 10, n / 10);
    }
  }

  /** The number that a decimal numeral denotes. */
  function Value(s: string): int {
    if s == "" then 0 else 10 * Value(s[..|s|-1]) + (s[|s|-1] as int - '0' as int)
  }

  lemma DigitValue(n: nat)
    requires n < 10
    ensures DIGITS[n] as int == '0' as int + n
  {
  }

  /** The numeral of a number denotes it, without leading zeros. */
  lemma {:induction false} NatIsDecimal(n: nat)
    ensures Value(Nat(n)) == n && (n > 0 ==> Nat(n)[0] != '0')
  {
    var s := Nat(n);
    DigitValue(n % 10);
    if n < 10 {
      assert s[..|s|-1] == "";
    } else {
      NatIsDecimal(n / 10);
      assert s[..|s|-1] == Nat(n / 10);
    }
  }

  lemma IntIsDecimal(n: int)
    ensures n >= 0 ==> Value(Int(n)) == n
    ensures n < 0 ==> Int(n)[0] == '-' && Value(Int(n)[1..]) == -n
  {
    if n >= 0 {
      NatIsDecimal(n);
    } else {
      NatIsDecimal(-n);
      assert Int(n)[1..] == Nat(-n);
    }
  }

  /** Go's integer division: the quotient is truncated toward zero. */
  function Quot(n: int, d: int): int
    requires d > 0
  {
    if n < 0 then -((-n) / d) else n / d
  }

  /** The remainder is smaller than the divisor and has the sign of the dividend. */
  lemma QuotTruncates(n: int, d: int)
    requires d > 0
    ensures n >= 0 ==> 0 <= n - Quot(n, d) * d < d
    ensures n <= 0 ==> -d < n - Quot(n, d) * d <= 0
  {
  }

  // ----- characters of a word -----

  predicate Free(s: string, bad: set<char>) {
    forall c | c in s :: c !in bad
  }
}
