/** Strings: decimal rendering, the `{origin}-{n}` job identifier, and the
    lexicographic order in which a BTreeMap lists its string keys. */
module Text {

  function Digit(d: nat): (c: char)
    requires d < 10
    ensures '0' <= c <= '9'
  {
    ('0' as int + d) as char
  }

  function Decimal(n: nat): (s: string)
    ensures s != []
    ensures forall i :: 0 <= i < |s| ==> '0' <= s[i] <= '9'
  {
    if n < 10 then [Digit(n)] else Decimal(n / 10) + [Digit(n % 10)]
  }

  /** What a numeral means. */
  function Value(s: string): nat
    requires forall i :: 0 <= i < |s| ==> '0' <= s[i] <= '9'
  {
    if s == [] then 0 else 10 * Value(s[..|s| - 1]) + (s[|s| - 1] as int - '0' as int)
  }

  /** A decimal means its number, and does not begin with a superfluous zero. */
  lemma {:induction false} DecimalMeans(n: nat)
    ensures Value(Decimal(n)) == n
    ensures Decimal(n)[0] == '0' ==> n == 0
  {
    var s := Decimal(n);
    if n >= 10 {
      DecimalMeans(n / 10);
      assert s[..|s| - 1] == Decimal(n / 10) && s[0] == Decimal(n / 10)[0];
    } else {
      assert s[..0] == [];
    }
  }

  /** An i32 as `{}` prints it. */
  function SignedDecimal(n: int): string {
    if n < 0 then "-" + Decimal(-n) else Decimal(n)
  }

  lemma {:induction false} DecimalInjective(m: nat, n: nat)
    requires Decimal(m) == Decimal(n)
    ensures m == n
  {
    var s, t := Decimal(m), Decimal(n);
    assert (|s| == 1 <==> m < 10) && (|t| == 1 <==> n < 10);
    assert s[|s| - 1] == Digit(m % 10) && t[|t| - 1] == Digit(n % 10);
    if m >= 10 {
      assert s[..|s| - 1] == Decimal(m / 10) && t[..|t| - 1] == Decimal(n / 10);
      DecimalInjective(m / 10, n / 10);
    }
  }

  lemma SignedMeans(n: int)
    ensures n >= 0 ==> SignedDecimal(n) == Decimal(n) && Value(Decimal(n)) == n
    ensures n < 0 ==> var s := SignedDecimal(n); s == "-" + Decimal(-n) && Value(Decimal(-n)) == -n
  {
    DecimalMeans(if n < 0 then -n else n);
  }

  /** The identifier `format!("{}-{}", origin, n)`. */
  function JobIdOf(origin: string, n: nat): string {
    origin + "-" + Decimal(n)
  }

  lemma LastDash(origin: string, n: nat)
    ensures var id := JobIdOf(origin, n);
            |origin| < |id| && id[|origin|] == '-' &&
            (forall k :: |origin| < k < |id| ==> id[k] != '-')
  {
    var id, d := JobIdOf(origin, n), Decimal(n);
    assert forall k :: |origin| < k < |id| ==> id[k] == d[k - |origin| - 1];
  }

  /** The last dash splits an identifier, so no two (origin, n) pairs share one,
      even when an origin itself contains dashes and digits. */
  lemma JobIdInjective(o: string, m: nat, p: string, n: nat)
    requires JobIdOf(o, m) == JobIdOf(p, n)
    ensures o == p && m == n
  {
    LastDash(o, m);
    LastDash(p, n);
    var id := JobIdOf(o, m);
    assert o == id[..|o|] && p == id[..|p|];
    assert Decimal(m) == id[|o| + 1..] && Decimal(n) == id[|p| + 1..];
    DecimalInjective(m, n);
  }

  // ---------- lexicographic order ----------

  predicate Before(a: string, b: string) {
    b != [] && (a == [] || a[0] < b[0] || (a[0] == b[0] && Before(a[1..], b[1..])))
  }

  lemma {:induction false} BeforeTotal(a: string, b: string)
    ensures a == b || Before(a, b) || Before(b, a)
    ensures !(Before(a, b) && Before(b, a))
    ensures !Before(a, a)
  {
    if a != [] {
      BeforeTotal(a[1..], if b == [] then [] else b[1..]);
      if b != [] && a[0] == b[0] {
        assert a == [a[0]] + a[1..] && b == [b[0]] + b[1..];
      }
    }
  }

  predicate SmallerAt(a: string, b: string, k: nat) {
    k < |a| && k < |b| && a[..k] == b[..k] && a[k] < b[k]
  }

  predicate DiffersBelow(a: string, b: string) {
    exists k: nat :: k < |a| && SmallerAt(a, b, k)
  }

  lemma SmallerFurtherOn(a: string, b: string, k: nat)
    requires a != [] && b != [] && a[0] == b[0]
    ensures SmallerAt(a, b, k + 1) <==> SmallerAt(a[1..], b[1..], k)
  {
    if k + 1 < |a| && k + 1 < |b| {
      assert a[..k + 1] == [a[0]] + a[1..][..k] && b[..k + 1] == [b[0]] + b[1..][..k];
      assert a[1..][..k] == a[..k + 1][1..] && b[1..][..k] == b[..k + 1][1..];
    }
  }

  lemma DiffersFurtherOn(a: string, b: string)
    requires a != [] && b != [] && a[0] == b[0]
    ensures DiffersBelow(a, b) <==> DiffersBelow(a[1..], b[1..])
  {
    if k: nat :| k < |a| && SmallerAt(a, b, k) {
      SmallerFurtherOn(a, b, k - 1);
      assert SmallerAt(a[1..], b[1..], k - 1);
    }
    if k: nat :| k < |a[1..]| && SmallerAt(a[1..], b[1..], k) {
      SmallerFurtherOn(a, b, k);
      assert SmallerAt(a, b, k + 1);
    }
  }

  /** One string is before another if it is a proper prefix, or smaller at the first
      character where they differ. */
  lemma {:induction false} BeforeMeans(a: string, b: string)
    ensures Before(a, b) <==> a < b || DiffersBelow(a, b)
  {
    if a != [] && b != [] && a[0] == b[0] {
      BeforeMeans(a[1..], b[1..]);
      DiffersFurtherOn(a, b);
      assert a == [a[0]] + a[1..] && b == [b[0]] + b[1..];
    } else if a != [] && b != [] {
      assert a[0] < b[0] ==> SmallerAt(a, b, 0);
      assert forall k: nat :: 0 < k < |a| && k < |b| ==> a[..k][0] == a[0] && b[..k][0] == b[0];
    }
  }

  lemma {:induction false} BeforeTransitive(a: string, b: string, c: string)
    requires Before(a, b) && Before(b, c)
    ensures Before(a, c)
  {
    if a != [] && a[0] == b[0] && b[0] == c[0] {
      BeforeTransitive(a[1..], b[1..], c[1..]);
    }
  }
}
