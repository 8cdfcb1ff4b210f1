/**
  The statistics half of `get_product_data` (app.py:41-77). The browser part
  (navigating to the stripped URL, waiting for the price chart, reading the
  title heading and the chart's data set) is one input: `None` when any of
  those steps raised, otherwise the title and the `y` values of the chart,
  already converted with `float`. Python floats are modelled by exact reals.
*/
module Extraction {
  import opened Wrappers
  import opened Text

  /** What the browser hands back for one product page. */
  datatype PageData = PageData(name: string, prices: seq<real>)

  /** The dictionary `get_product_data` returns, one field per key. */
  datatype Product = Product(
    name: string,
    url: string,
    discountRate: real,
    originalPrice: real,
    currentPrice: real,
    minPrice: real)

  /** Python's `max(prices)`: a left-to-right scan that replaces the best so far by a strictly larger item. */
  function Max(prices: seq<real>): (m: real)
    requires prices != []
    ensures m in prices
    ensures forall i :: 0 <= i < |prices| ==> prices[i] <= m
  {
    if |prices| == 1 then prices[0]
    else
      var init := prices[..|prices| - 1];
      var last := prices[|prices| - 1];
      var best := Max(init);
      assert forall i :: 0 <= i < |init| ==> init[i] == prices[i];
      if last > best then last else best
  }

  /** Python's `min(prices)`: the same scan with a strictly smaller item. */
  function Min(prices: seq<real>): (m: real)
    requires prices != []
    ensures m in prices
    ensures forall i :: 0 <= i < |prices| ==> m <= prices[i]
  {
    if |prices| == 1 then prices[0]
    else
      var init := prices[..|prices| - 1];
      var last := prices[|prices| - 1];
      var best := Min(init);
      assert forall i :: 0 <= i < |init| ==> init[i] == prices[i];
      if last < best then last else best
  }

  /**
    The record built from one page read. `max` of an empty list raises
    `ValueError` and a zero maximum makes the division raise
    `ZeroDivisionError`; the `except Exception` turns both, like a failed page
    read, into `None`.
  */
  function GetProductData(page: Option<PageData>, url: string): (r: Option<Product>)
    ensures r.Some? <==> page.Some? && page.value.prices != [] && Max(page.value.prices) != 0.0
    ensures r.Some? ==> r.value.name == page.value.name && r.value.url == Strip(url)
    ensures r.Some? ==> r.value.originalPrice in page.value.prices && r.value.minPrice in page.value.prices
    ensures r.Some? ==> forall i :: 0 <= i < |page.value.prices| ==>
                          r.value.minPrice <= page.value.prices[i] <= r.value.originalPrice
    ensures r.Some? ==> r.value.currentPrice == page.value.prices[|page.value.prices| - 1]
    ensures r.Some? ==> r.value.discountRate == (r.value.originalPrice - r.value.currentPrice) / r.value.originalPrice
  {
    match page
    case None => None
    case Some(PageData(name, prices)) =>
      if prices == [] then None
      else
        var maxPrice := Max(prices);
        var minPrice := Min(prices);
        var currentPrice := prices[|prices| - 1];
        if maxPrice == 0.0 then None
        else
          var discountRate := (maxPrice - currentPrice) / maxPrice;
          Some(Product(name, Strip(url), discountRate, maxPrice, currentPrice, minPrice))
  }

  /** The facts every record `GetProductData` returns satisfies, stated on the record alone. */
  predicate WellFormed(p: Product) {
    && p.originalPrice != 0.0
    && p.minPrice <= p.currentPrice <= p.originalPrice
    && p.discountRate == (p.originalPrice - p.currentPrice) / p.originalPrice
  }

  /** Every record that comes back is well formed: lowest <= current <= original and the rate is the relative drop. */
  lemma GetProductDataWellFormed(page: Option<PageData>, url: string)
    requires GetProductData(page, url).Some?
    ensures WellFormed(GetProductData(page, url).value)
  {
    var prices := page.value.prices;
    assert prices[|prices| - 1] in prices;
  }

  /** For a positive original price and a non-negative current price the rate lies in [0, 1]. */
  lemma DiscountRateInUnitInterval(p: Product)
    requires WellFormed(p) && p.originalPrice > 0.0 && p.currentPrice >= 0.0
    ensures 0.0 <= p.discountRate <= 1.0
  {
    var m, c := p.originalPrice, p.currentPrice;
    assert p.discountRate * m == m - c;
    assert (p.discountRate - 1.0) * m == -c;
  }

  /**
    With a positive original price the rate is exactly 1 when the current price
    is 0, below 1 for a positive current price, and above 1 for a negative one.
  */
  lemma DiscountRateIsOneIffFree(p: Product)
    requires WellFormed(p) && p.originalPrice > 0.0
    ensures p.discountRate == 1.0 <==> p.currentPrice == 0.0
    ensures p.currentPrice > 0.0 ==> p.discountRate < 1.0
    ensures p.currentPrice < 0.0 ==> p.discountRate > 1.0
  {
    var m, c := p.originalPrice, p.currentPrice;
    assert p.discountRate * m == m - c;
    assert (p.discountRate - 1.0) * m == -c;
  }
}
