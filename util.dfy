/** code/util/Util.py: the two pure helpers shared by the game,
    compare_from_range and is_dark. */
module Util {
  import opened PyCore

  /** compare_from_range(init, value, range): value lies within range of
      init, both ends included. */
  function CompareFromRange(init: real, value: real, range: real): (r: bool)
    ensures r <==> Abs(value - init) <= range
  {
    value <= init + range && value >= init - range
  }

  /** The test does not depend on which of the two numbers is the reference. */
  lemma CompareFromRangeSymmetric(init: real, value: real, range: real)
    ensures CompareFromRange(init, value, range) == CompareFromRange(value, init, range)
  {
  }

  /** No pair of numbers is within a negative range of each other. */
  lemma CompareFromRangeNegative(init: real, value: real, range: real)
    requires range < 0.0
    ensures !CompareFromRange(init, value, range)
  {
  }

  /** The square of the HSP brightness 0.299 r^2 + 0.587 g^2 + 0.114 b^2. */
  function HspSquared(r: int, g: int, b: int): (h: real)
    ensures h >= 0.0
  {
    0.299 * (r * r) as real + 0.587 * (g * g) as real + 0.114 * (b * b) as real
  }

  /** is_dark(colour): unpacks exactly four components [r, g, b, a]
      (ValueError otherwise) and is True when the HSP brightness
      sqrt(HspSquared) is at most 127.5. Comparing the squares is the same
      test because sqrt is monotone (see IsDarkMatchesSqrt). */
  function IsDark(colour: seq<int>): (r: Result<bool>)
    ensures r.Err? <==> |colour| != 4
    ensures r.Err? ==> r.error == ValueError
  {
    if |colour| != 4 then Err(ValueError)
    else Ok(HspSquared(colour[0], colour[1], colour[2]) <= 127.5 * 127.5)
  }

  /** For the non-negative root hsp of HspSquared, IsDark answers exactly
      `not (hsp > 127.5)`, which is what the source computes with math.sqrt. */
  lemma IsDarkMatchesSqrt(colour: seq<int>, hsp: real)
    requires |colour| == 4
    requires hsp >= 0.0 && hsp * hsp == HspSquared(colour[0], colour[1], colour[2])
    ensures IsDark(colour) == Ok(!(hsp > 127.5))
  {
    if hsp > 127.5 {
      assert hsp * hsp > 127.5 * hsp >= 127.5 * 127.5;
    } else {
      assert hsp * hsp <= 127.5 * hsp <= 127.5 * 127.5;
    }
  }

  /** Black is dark and full white is not, whatever the alpha. */
  lemma BlackIsDarkWhiteIsNot(a: int)
    ensures IsDark([0, 0, 0, a]) == Ok(true)
    ensures IsDark([255, 255, 255, a]) == Ok(false)
  {
  }
}
