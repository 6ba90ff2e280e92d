/** JavaScript strings as sequences of UTF-16 code units, with the few operations the models share. */
module Text {
  type Unit = u: int | 0 <= u < 0x10000
  type Str = seq<Unit>
  type Digit = d: int | 48 <= d < 58 witness 48

  /** A string literal of ASCII characters as code units. */
  function U(s: string): (r: Str)
    requires forall i :: 0 <= i < |s| ==> s[i] as int < 128
    ensures |r| == |s| && forall i :: 0 <= i < |s| ==> r[i] == s[i] as int
  {
    seq(|s|, i requires 0 <= i < |s| => s[i] as int)
  }

  /** The decimal text of a natural number, as a template literal prints it. */
  function Decimal(n: nat): (r: seq<Digit>)
    ensures |r| > 0 && (n > 0 ==> r[0] != 48)
  {
    if n < 10 then [48 + n] else Decimal(n / 10) + [48 + n % 10]
  }

  function DecimalValue(s: seq<Digit>): nat {
    if s == [] then 0 else DecimalValue(s[..|s| - 1]) * 10 + (s[|s| - 1] as int - 48)
  }

  lemma {:induction false} DecimalRoundTrip(n: nat)
    ensures DecimalValue(Decimal(n)) == n
  {
    if n < 10 {
      assert DecimalValue([]) == 0;
    } else {
      DecimalRoundTrip(n / 10);
      assert Decimal(n)[..|Decimal(n)| - 1] == Decimal(n / 10);
    }
  }

  lemma DecimalInjective(m: nat, n: nat)
    requires Decimal(m) == Decimal(n)
    ensures m == n
  {
    DecimalRoundTrip(m);
    DecimalRoundTrip(n);
  }

  /** The order of `<` on strings and of `Array.prototype.sort`: lexicographic on code units. */
  predicate Less(a: Str, b: Str) {
    b != [] && (a == [] || a[0] < b[0] || (a[0] == b[0] && Less(a[1..], b[1..])))
  }

  /** The strings agree before `i`, where `a` ends or has the smaller unit. */
  predicate DiffersAt(a: Str, b: Str, i: nat) {
    i <= |a| && i < |b| && a[..i] == b[..i] && (i == |a| || a[i] < b[i])
  }

  /** What the order means: at the first difference `a` has the smaller unit, or it ends there. */
  ghost predicate Before(a: Str, b: Str) {
    exists i: nat :: DiffersAt(a, b, i)
  }

  lemma DiffersNext(a: Str, b: Str, i: nat)
    requires a != [] && b != [] && a[0] == b[0]
    ensures DiffersAt(a[1..], b[1..], i) <==> DiffersAt(a, b, i + 1)
  {
    var j := i + 1;
    if j <= |a| && j < |b| {
      assert a[..j] == [a[0]] + a[1..][..i] && b[..j] == [b[0]] + b[1..][..i];
      assert a[..j][1..] == a[1..][..i] && b[..j][1..] == b[1..][..i];
    }
  }

  /** The comparison the programs run decides that order. */
  lemma {:induction false} LessIsBefore(a: Str, b: Str)
    ensures Less(a, b) <==> Before(a, b)
  {
    if b != [] && (a == [] || a[0] < b[0]) {
      assert DiffersAt(a, b, 0);
    } else if b != [] && a[0] == b[0] {
      LessIsBefore(a[1..], b[1..]);
      if Less(a, b) {
        var i: nat :| DiffersAt(a[1..], b[1..], i);
        DiffersNext(a, b, i);
        assert DiffersAt(a, b, i + 1);
      }
      if Before(a, b) {
        var i: nat :| DiffersAt(a, b, i);
        assert i > 0;
        DiffersNext(a, b, i - 1);
      }
    } else {
      forall i: nat ensures !DiffersAt(a, b, i) { NoDifference(a, b, i); }
    }
  }

  lemma NoDifference(a: Str, b: Str, i: nat)
    requires b == [] || (a != [] && a[0] > b[0])
    ensures !DiffersAt(a, b, i)
  {
    if i <= |a| && i < |b| && i > 0 { assert a[..i][0] == a[0] && b[..i][0] == b[0]; }
  }

  lemma LessMeansBefore()
    ensures forall a, b :: Less(a, b) <==> Before(a, b)
  {
    forall a, b ensures Less(a, b) <==> Before(a, b) { LessIsBefore(a, b); }
  }

  lemma {:induction false} LessTrichotomy(a: Str, b: Str)
    ensures a == b || Less(a, b) || Less(b, a)
    ensures !(Less(a, b) && Less(b, a))
    ensures a == b ==> !Less(a, b)
  {
    if a != [] && b != [] && a[0] == b[0] {
      LessTrichotomy(a[1..], b[1..]);
      assert a == [a[0]] + a[1..] && b == [b[0]] + b[1..];
    }
  }

  lemma {:induction false} LessTransitive(a: Str, b: Str, c: Str)
    requires Less(a, b) && Less(b, c)
    ensures Less(a, c)
  {
    if a != [] && a[0] == b[0] && b[0] == c[0] {
      LessTransitive(a[1..], b[1..], c[1..]);
    }
  }

  /** Where the first occurrence of `u` is; the length of the string when there is none. */
  function IndexOf(s: Str, u: Unit): (i: nat)
    ensures i <= |s| && u !in s[..i]
    ensures i < |s| ==> s[i] == u
  {
    if s == [] || s[0] == u then 0
    else var j := IndexOf(s[1..], u); assert s[..1 + j] == [s[0]] + s[1..][..j]; 1 + j
  }

  lemma {:induction false} IndexOfSeparator(a: Str, x: Str, u: Unit)
    requires u !in a
    ensures IndexOf(a + [u] + x, u) == |a|
  {
    if a != [] {
      assert (a + [u] + x)[1..] == a[1..] + [u] + x;
      IndexOfSeparator(a[1..], x, u);
    }
  }

  /** Two texts that agree and whose heads do not hold the separator agree piece by piece. */
  lemma SplitAtSeparator(a: Str, b: Str, x: Str, y: Str, u: Unit)
    requires u !in a && u !in b && a + [u] + x == b + [u] + y
    ensures a == b && x == y
  {
    var s := a + [u] + x;
    IndexOfSeparator(a, x, u);
    IndexOfSeparator(b, y, u);
    assert a == s[..|a|] && b == s[..|b|];
    assert x == s[|a| + 1..] && y == s[|b| + 1..];
  }
}
