module Prelude {
  datatype Option<+T> = None | Some(value: T)

  /** Python's `t in u` on strings: `t` is a contiguous part of `u`. */
  predicate Occurs<T(==)>(t: seq<T>, u: seq<T>) {
    exists i :: 0 <= i <= |u| && OccursAt(t, u, i)
  }

  predicate OccursAt<T(==)>(t: seq<T>, u: seq<T>, i: int) {
    0 <= i <= |u| - |t| && u[i..i + |t|] == t
  }

  ghost predicate Distinct<T>(s: seq<T>) {
    forall i, j :: 0 <= i < j < |s| ==> s[i] != s[j]
  }

  lemma DistinctConcat<T>(a: seq<T>, b: seq<T>)
    requires Distinct(a) && Distinct(b) && forall x :: x in a ==> x !in b
    ensures Distinct(a + b)
  {
    var s := a + b;
    forall i, j | 0 <= i < j < |s|
      ensures s[i] != s[j]
    {
      if i < |a| <= j {
        assert s[i] == a[i] && s[j] == b[j - |a|];
        assert a[i] in a && b[j - |a|] in b;
      }
    }
  }

  lemma DistinctParts<T>(a: seq<T>, b: seq<T>)
    requires Distinct(a + b)
    ensures Distinct(a) && Distinct(b)
    ensures forall x :: x in a ==> x !in b
  {
    var s := a + b;
    assert forall i :: 0 <= i < |a| ==> s[i] == a[i];
    assert forall j :: 0 <= j < |b| ==> s[|a| + j] == b[j];
    forall i, j | 0 <= i < |b| && 0 <= j < |b| && i < j
      ensures b[i] != b[j]
    {
      assert s[|a| + i] != s[|a| + j];
    }
    forall i, j | 0 <= i < |a| && 0 <= j < |b|
      ensures a[i] != b[j]
    {
      assert s[i] != s[|a| + j];
    }
  }

  lemma Assoc<T>(a: seq<T>, b: seq<T>, c: seq<T>)
    ensures (a + b) + c == a + (b + c)
  {
  }

  lemma InConcat<T>(x: T, a: seq<T>, b: seq<T>)
    ensures x in a + b <==> x in a || x in b
  {
  }

  // ---- decimal numbers ----

  const DIGITS: string := "0123456789"

  /** Decimal digits of a number. */
  function Digits(n: nat): (s: string)
    ensures s != [] && '#' !in s
  {
    if n < 10 then [DIGITS[n]] else Digits(n / 10) + [DIGITS[n % 10]]
  }

  lemma {:induction false} DigitsInjective(m: nat, n: nat)
    requires Digits(m) == Digits(n)
    ensures m == n
  {
    var s := Digits(m);
    assert s[|s| - 1] == DIGITS[m % 10] == DIGITS[n % 10];
    if m >= 10 && n >= 10 {
      assert Digits(m / 10) == s[..|s| - 1] == Digits(n / 10);
      DigitsInjective(m / 10, n / 10);
    }
  }

  /** What a decimal numeral says. */
  ghost function Numeral(s: string): int {
    if s == [] then 0 else 10 * Numeral(s[..|s| - 1]) + (s[|s| - 1] as int - '0' as int)
  }

  /** The digits of a number are its numeral, without a leading zero. */
  lemma {:induction false} DigitsSay(n: nat)
    ensures Numeral(Digits(n)) == n && forall i :: 0 <= i < |Digits(n)| ==> '0' <= Digits(n)[i] <= '9'
    ensures n > 0 ==> Digits(n)[0] != '0'
  {
    var s := Digits(n);
    assert DIGITS[n % 10] as int == '0' as int + n % 10;
    if n < 10 {
      assert s[..0] == [];
    } else {
      DigitsSay(n / 10);
      assert s[..|s| - 1] == Digits(n / 10);
    }
  }
}
