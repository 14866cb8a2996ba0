/** Shared vocabulary of the model: time, readings, the exceptions the
    source throws, and small sequence helpers. */
module Common {

  /** A DateTime, as whole minutes since DateTime.MinValue (0001-01-01 00:00). */
  type Timestamp = int

  /** A sensor reading (a float in the source), as an exact ordered number. */
  type Reading = real

  /** DateTime.MinValue, which is also `new DateTime()`. */
  const DateTimeMinValue: Timestamp := 0

  /** DateTime.MaxValue (9999-12-31 23:59:59.9999999), truncated to whole minutes. */
  const DateTimeMaxValue: Timestamp := 5258964959

  datatype Option<+T> = None | Some(value: T)

  /** The exception classes the modelled code throws. */
  datatype Error =
    | ArgumentNull        // ArgumentNullException
    | ArgumentOutOfRange  // ArgumentOutOfRangeException
    | Argument            // ArgumentException
    | InvalidOperation    // InvalidOperationException
    | Format              // FormatException
    | KeyNotFound         // KeyNotFoundException
    | Overflow            // OverflowException (negative array size)
    | NullReference       // NullReferenceException

  /** A value, or the exception that an operation threw instead. */
  datatype Result<+T> = Ok(value: T) | Err(error: Error)

  /** A void operation that either completed or threw. */
  datatype Outcome = Done | Fail(error: Error)

  function Abs(x: Reading): (r: Reading)
    ensures r >= 0.0 && (r == x || r == -x)
  {
    if x < 0.0 then -x else x
  }

  function Last<T>(s: seq<T>): T
    requires |s| > 0
  {
    s[|s| - 1]
  }

  /** The sequence back to front: the top of a stack first. */
  function Reverse<T>(s: seq<T>): (r: seq<T>)
    ensures |r| == |s|
  {
    if s == [] then [] else Reverse(s[1..]) + [s[0]]
  }

  lemma {:induction false} ReverseConcat<T>(a: seq<T>, b: seq<T>)
    ensures Reverse(a + b) == Reverse(b) + Reverse(a)
    decreases |a|
  {
    if a == [] {
      assert a + b == b;
      assert Reverse(b) + Reverse(a) == Reverse(b);
    } else {
      assert (a + b)[1..] == a[1..] + b && (a + b)[0] == a[0];
      ReverseConcat(a[1..], b);
      assert Reverse(a + b) == Reverse(b) + Reverse(a[1..]) + [a[0]];
    }
  }

  lemma ReverseAppend<T>(s: seq<T>, x: T)
    ensures Reverse(s + [x]) == [x] + Reverse(s)
  {
    ReverseConcat(s, [x]);
    assert [x][1..] == [];
    assert Reverse([x]) == [x];
  }

  lemma {:induction false} ReverseReverse<T>(s: seq<T>)
    ensures Reverse(Reverse(s)) == s
    decreases |s|
  {
    if s != [] {
      ReverseReverse(s[1..]);
      ReverseConcat(Reverse(s[1..]), [s[0]]);
      assert [s[0]][1..] == [];
      assert Reverse([s[0]]) == [s[0]];
      assert [s[0]] + s[1..] == s;
    }
  }

  /** Element `i` of the reversed sequence is element `|s| - 1 - i` of `s`. */
  lemma {:induction false} ReverseIndex<T>(s: seq<T>, i: nat)
    requires i < |s|
    ensures Reverse(s)[i] == s[|s| - 1 - i]
    decreases |s|
  {
    if i < |s| - 1 {
      ReverseIndex(s[1..], i);
    }
  }

  /** Strictly ascending timestamps: each appears at most once, in order. */
  predicate StrictlyAscending(s: seq<Timestamp>)
  {
    forall i, j :: 0 <= i < j < |s| ==> s[i] < s[j]
  }

  lemma ConsAscending(x: Timestamp, rest: seq<Timestamp>)
    requires StrictlyAscending(rest)
    requires forall y :: y in rest ==> x < y
    ensures StrictlyAscending([x] + rest)
  {
    var r := [x] + rest;
    forall i, j | 0 <= i < j < |r| ensures r[i] < r[j] {
      if i == 0 { assert r[j] == rest[j - 1]; assert rest[j - 1] in rest; }
      else { assert r[i] == rest[i - 1] && r[j] == rest[j - 1]; }
    }
  }

  // ----- Euclidean division facts used by the cadence walks -----------------

  lemma MulAtLeast(g: int, c: int)
    requires g > 0 && c >= 1
    ensures g * c >= g
  {
  }

  lemma DivModUnique(n: int, g: int, q: int, r: int)
    requires g > 0 && 0 <= r < g && n == g * q + r
    ensures n % g == r && n / g == q
  {
    var q', r' := n / g, n % g;
    assert n == g * q' + r';
    assert g * (q - q') == r' - r;
    if q - q' >= 1 { MulAtLeast(g, q - q'); }
    if q' - q >= 1 { MulAtLeast(g, q' - q); }
  }

  lemma ModShift(d: int, g: int)
    requires g > 0
    ensures (d + g) % g == d % g
  {
    DivModUnique(d + g, g, d / g + 1, d % g);
  }

  /** A positive multiple of `g` is at least `g`. */
  lemma MultipleAtLeast(d: int, g: int)
    requires g > 0 && d > 0 && d % g == 0
    ensures d >= g
  {
    if d < g {
      DivModUnique(d, g, 0, d);
    }
  }

  lemma ModDifference(n: int, m: int, g: int)
    requires g > 0 && n % g == 0 && m % g == 0
    ensures (n - m) % g == 0
  {
    assert n == g * (n / g) && m == g * (m / g);
    assert n - m == g * (n / g - m / g);
    DivModUnique(n - m, g, n / g - m / g, 0);
  }

  /** Decimal rendering of a natural number, as `int.ToString()` gives it. */
  function NatToString(n: nat): (r: string)
    ensures |r| > 0
    ensures forall i :: 0 <= i < |r| ==> '0' <= r[i] <= '9'
    decreases n
  {
    if n < 10 then [Digit(n)] else NatToString(n / 10) + [Digit(n % 10)]
  }

  function Digit(d: nat): (c: char)
    requires d < 10
    ensures '0' <= c <= '9'
  {
    match d
    case 0 => '0' case 1 => '1' case 2 => '2' case 3 => '3' case 4 => '4'
    case 5 => '5' case 6 => '6' case 7 => '7' case 8 => '8' case _ => '9'
  }

  function DigitValue(c: char): nat
    requires '0' <= c <= '9'
  {
    match c
    case '0' => 0 case '1' => 1 case '2' => 2 case '3' => 3 case '4' => 4
    case '5' => 5 case '6' => 6 case '7' => 7 case '8' => 8 case _ => 9
  }

  /** Reads a string of decimal digits back as a number. */
  function ParseNat(s: string): nat
    requires forall i :: 0 <= i < |s| ==> '0' <= s[i] <= '9'
  {
    if s == [] then 0 else 10 * ParseNat(s[..|s| - 1]) + DigitValue(s[|s| - 1])
  }

  lemma {:induction false} ParseNatToString(n: nat)
    ensures ParseNat(NatToString(n)) == n
    decreases n
  {
    var s := NatToString(n);
    if n < 10 {
      assert s[..|s| - 1] == [];
    } else {
      ParseNatToString(n / 10);
      assert s[..|s| - 1] == NatToString(n / 10);
    }
  }
}
