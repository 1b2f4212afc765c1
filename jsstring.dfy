/** The JavaScript string and number operations the keystroke handler relies on,
    with their out-of-range behaviour written out. */
module JsString {

  /** `String.prototype.charAt`: the one-character string at `i`, or the empty
      string when `i` is outside the text. */
  function CharAt(s: string, i: int): (r: string)
    ensures |r| <= 1
    ensures r != [] <==> 0 <= i < |s|
    ensures r != [] ==> r[0] == s[i]
  {
    if 0 <= i < |s| then [s[i]] else []
  }

  /** Limits a `substring` argument to the text's bounds. */
  function Clamp(x: int, len: nat): (r: nat)
    ensures r <= len
  {
    if x < 0 then 0 else if x > len then len else x
  }

  /** `String.prototype.substring`: both ends are clamped into `0..|s|` and
      swapped when the start lies after the end. */
  function Substring(s: string, start: int, end: int): (r: string)
    ensures |r| <= |s|
    ensures 0 <= start <= |s| <= end ==> r == s[start..]
    ensures 0 <= start <= end <= |s| ==> r == s[start..end]
  {
    var a, b := Clamp(start, |s|), Clamp(end, |s|);
    if a <= b then s[a..b] else s[b..a]
  }

  /** `Math.floor(((index - errors) / index) * 100)` taken over the rationals:
      the largest integer not above the share of the cursor that is not
      outweighed by errors, in percent. It is 100 exactly when there are no
      errors and negative exactly when the errors outnumber the cursor. */
  function Accuracy(index: int, errors: nat): (r: int)
    requires index > 0
    ensures r * index <= (index - errors) * 100 < (r + 1) * index
    ensures r <= 100
    ensures r == 100 <==> errors == 0
    ensures r < 0 <==> errors > index
  {
    var q := (index - errors) * 100 / index;
    FloorBounds((index - errors) * 100, index, q);
    q
  }

  /** Euclidean division by a positive divisor is the floor. */
  lemma FloorBounds(n: int, d: int, q: int)
    requires d > 0 && q == n / d
    ensures q * d <= n < (q + 1) * d
    ensures n == 100 * d ==> q == 100
    ensures n < 100 * d ==> q < 100
    ensures n >= 0 <==> q >= 0
  {
    assert n == d * q + n % d;
    assert q * d <= n < q * d + d;
    assert (q + 1) * d == q * d + d;
    if n < 100 * d {
      MulMonotone(q, 100, d);
    }
    if n == 100 * d {
      MulMonotone(q, 100, d);
      MulMonotone(101, q, d);
    }
    MulMonotone(q, -1, d);
    MulMonotone(0, q, d);
  }

  /** Multiplying by a positive factor keeps a strict order; used by contraposition. */
  lemma {:induction false} MulMonotone(a: int, b: int, d: int)
    requires d > 0
    ensures a > b ==> a * d >= b * d + d
    decreases if a > b then a - b else 0
  {
    if a > b + 1 {
      MulMonotone(a - 1, b, d);
      assert a * d == (a - 1) * d + d;
    } else if a == b + 1 {
      assert a * d == b * d + d;
    }
  }
}
