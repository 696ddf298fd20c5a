/** The `StringTest` Java UDF of the regression suite: mask a string by
    keeping its first `a` and its last `b` characters and starring out the
    characters in between. */
module Udf {
  import opened Wrappers

  /** The value of a non-null java.lang.Integer. */
  type Int32 = x: int | -0x8000_0000 <= x < 0x8000_0000

  /** `String.substring` was given an index outside the string. */
  datatype UdfError = StringIndexOutOfBounds

  /** commons-lang `StringUtils.repeat` of a one-character string: a count
      that is zero or negative gives the empty string. */
  function Repeat(c: char, n: int): (r: string)
    ensures |r| == if n <= 0 then 0 else n
    ensures forall i :: 0 <= i < |r| ==> r[i] == c
    decreases n
  {
    if n <= 0 then [] else [c] + Repeat(c, n - 1)
  }

  /** `StringTest.evaluate(field, a, b)`:
      `field.substring(0, a) + repeat("*", len - a - b) + field.substring(len - b)`.
      Any null argument gives null; a substring index outside `[0, len]` throws.
      The begin index `len - b` is computed without 32-bit wrap-around: for
      every `b` where Java's subtraction wraps (`b` near the least Integer)
      both the wrapped and the exact index lie outside `[0, len]`, so the
      call throws either way. */
  function Evaluate(field: Option<string>, a: Option<Int32>, b: Option<Int32>): (r: Result<Option<string>, UdfError>)
    ensures field.None? || a.None? || b.None? ==> r == Success(None)
    ensures field.Some? && a.Some? && b.Some? ==>
              (r.Success? <==> 0 <= a.value <= |field.value| && 0 <= b.value <= |field.value|)
    ensures r.Success? && r.value.None? ==> field.None? || a.None? || b.None?
  {
    if field.None? || a.None? || b.None? then Success(None)
    else
      var s, x, y := field.value, a.value as int, b.value as int;
      if !(0 <= x <= |s|) then Failure(StringIndexOutOfBounds)
      else if !(0 <= |s| - y <= |s|) then Failure(StringIndexOutOfBounds)
      else Success(Some(s[..x] + Repeat('*', |s| - x - y) + s[|s| - y..]))
  }

  /** An independent, character-by-character statement of the mask when the
      kept prefix and suffix do not overlap: position `i` keeps its character
      when it lies in the first `a` or the last `b` positions, and is `'*'`
      otherwise. */
  function MaskAt(s: string, a: nat, b: nat): (r: string)
    requires a + b <= |s|
  {
    seq(|s|, i requires 0 <= i < |s| => if i < a || i >= |s| - b then s[i] else '*')
  }

  /** The result always starts with `field[0..a)` and ends with `field[len-b..len)`. */
  lemma MaskKeepsEnds(s: string, a: Int32, b: Int32)
    requires 0 <= a <= |s| && 0 <= b <= |s|
    ensures Evaluate(Some(s), Some(a), Some(b)).Success?
    ensures var m := Evaluate(Some(s), Some(a), Some(b)).value;
            m.Some? && |m.value| >= a && |m.value| >= b &&
            m.value[..a] == s[..a] && m.value[|m.value| - b..] == s[|s| - b..]
  {
    var m := Evaluate(Some(s), Some(a), Some(b)).value.value;
    var stars := Repeat('*', |s| - a - b);
    assert m == s[..a] + stars + s[|s| - b..];
    assert m[..a] == s[..a];
    assert m[|m| - b..] == s[|s| - b..];
  }

  /** When `a + b <= len` the result has the length of the input, agrees
      with `MaskAt`, and so holds `'*'` at each of its `len - a - b` middle
      positions. */
  lemma {:induction false} MaskWithoutOverlap(s: string, a: Int32, b: Int32)
    requires 0 <= a && 0 <= b && a + b <= |s|
    ensures Evaluate(Some(s), Some(a), Some(b)) == Success(Some(MaskAt(s, a, b)))
    ensures |MaskAt(s, a, b)| == |s|
    ensures forall i :: a <= i < |s| - b ==> MaskAt(s, a, b)[i] == '*'
  {
    var m := Evaluate(Some(s), Some(a), Some(b)).value.value;
    var stars := Repeat('*', |s| - a - b);
    assert m == s[..a] + stars + s[|s| - b..];
    assert |m| == |s|;
    forall i | 0 <= i < |s|
      ensures m[i] == MaskAt(s, a, b)[i]
    {
      if i < a {
        assert m[i] == s[..a][i];
      } else if i < |s| - b {
        assert m[i] == stars[i - a];
      } else {
        assert m[i] == s[|s| - b..][i - (|s| - b)];
      }
    }
    assert m == MaskAt(s, a, b);
  }

  /** When `a + b > len` (both within the string) `repeat` gets a negative
      count, so no star is inserted: the result is the prefix followed by the
      suffix, `a + b` characters long, longer than the input. */
  lemma MaskWithOverlap(s: string, a: Int32, b: Int32)
    requires 0 <= a <= |s| && 0 <= b <= |s| && a + b > |s|
    ensures Evaluate(Some(s), Some(a), Some(b)) == Success(Some(s[..a] + s[|s| - b..]))
    ensures |s[..a] + s[|s| - b..]| == a + b > |s|
  {
    assert Repeat('*', |s| - a - b) == [];
    assert s[..a] + [] + s[|s| - b..] == s[..a] + s[|s| - b..];
  }
}
