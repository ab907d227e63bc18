/**
 * The two VAT figures of a skip. The pre-VAT price and the VAT rate (a
 * percentage) are integers, so `price * (1 + vat / 100)` is the rational
 * `price * (100 + vat) / 100` and `price * (vat / 100)` is `price * vat / 100`.
 * `Math.round` returns the integer nearest to its argument and rounds a half
 * upward, i.e. it is `floor(x + 1/2)`.
 */
module Pricing {

  /** Math.round(n / 100): the integer nearest to n / 100, halves going up. */
  function RoundHundredths(n: int): (r: int)
    ensures 100 * r - 50 <= n < 100 * r + 50
  {
    (n + 50) / 100
  }

  /** Only one integer lies within half a unit (closed below, open above) of n / 100. */
  lemma RoundHundredthsUnique(n: int, r: int)
    requires 100 * r - 50 <= n < 100 * r + 50
    ensures r == RoundHundredths(n)
  {
  }

  /** The VAT-inclusive price, rounded to a whole currency unit. */
  function FinalPrice(priceBeforeVat: int, vat: int): (r: int)
    ensures 100 * r - 50 <= priceBeforeVat * (100 + vat) < 100 * r + 50
  {
    RoundHundredths(priceBeforeVat * (100 + vat))
  }

  /** The VAT due on the pre-VAT price, rounded on its own. */
  function VatAmount(priceBeforeVat: int, vat: int): (r: int)
    ensures 100 * r - 50 <= priceBeforeVat * vat < 100 * r + 50
  {
    RoundHundredths(priceBeforeVat * vat)
  }

  /**
   * Although the two figures are rounded independently, on exact arithmetic
   * with a whole pre-VAT price they always add up: the breakdown
   * "£p + £vat VAT" matches the headline price.
   */
  lemma FinalPriceIsPricePlusVat(priceBeforeVat: int, vat: int)
    ensures FinalPrice(priceBeforeVat, vat) == priceBeforeVat + VatAmount(priceBeforeVat, vat)
  {
    var f, a := FinalPrice(priceBeforeVat, vat), VatAmount(priceBeforeVat, vat);
    assert priceBeforeVat * (100 + vat) == 100 * priceBeforeVat + priceBeforeVat * vat;
    RoundHundredthsUnique(priceBeforeVat * (100 + vat), priceBeforeVat + a);
  }

  /** With a non-negative price and rate, VAT is non-negative and never lowers the price. */
  lemma PricesNonNegative(priceBeforeVat: int, vat: int)
    requires 0 <= priceBeforeVat && 0 <= vat
    ensures 0 <= VatAmount(priceBeforeVat, vat)
    ensures priceBeforeVat <= FinalPrice(priceBeforeVat, vat)
  {
    FinalPriceIsPricePlusVat(priceBeforeVat, vat);
    assert 0 <= priceBeforeVat * vat;
  }

  /** 200 at 20% VAT is 240 in all, of which 40 is VAT. */
  lemma TwoHundredAtTwentyPercent()
    ensures FinalPrice(200, 20) == 240 && VatAmount(200, 20) == 40
  {
  }
}
