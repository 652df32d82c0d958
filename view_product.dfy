/**
 * The product page: the image gallery built from the product's six image
 * slots, the cyclic previous/next navigation over it, and the price label.
 */
module ViewProduct {
  import opened Wrappers
  import opened ProductImages
  import TradeProgress

  /** `[main, image1..image5].filter(Boolean)`. */
  function GalleryImages(p: ImageSlots): (r: seq<string>)
    ensures |r| <= 6
    ensures forall i :: 0 <= i < |r| ==> r[i] != []
  {
    PresentUrls(Slots(p))
  }

  /** The gallery lists the same images, in the same order, as the trade
      progress panel's push-based list. */
  lemma GalleryMatchesTradeImages(p: ImageSlots)
    ensures GalleryImages(p) == TradeProgress.ProductImageList(p)
  {
    TradeProgress.ProductImageListIsPresentUrls(p);
  }

  /** `nextImage`: one step forward, wrapping from the last image to the first. */
  function NextImage(i: nat, n: nat): (r: nat)
    requires n > 0
    ensures r < n
  {
    (i + 1) % n
  }

  /** `prevImage`: one step back, wrapping from the first image to the last. */
  function PrevImage(i: nat, n: nat): (r: nat)
    requires 0 < n && i < n
    ensures r < n
  {
    if i == 0 then n - 1 else i - 1
  }

  /** Going back undoes going forward, and the other way round. */
  lemma PrevNextInverse(i: nat, n: nat)
    requires i < n
    ensures PrevImage(NextImage(i, n), n) == i
    ensures NextImage(PrevImage(i, n), n) == i
  {
    if i + 1 < n {
      ModOf(i + 1, n, 0, i + 1);
    } else {
      ModOf(n, n, 1, 0);
    }
    if i > 0 {
      ModOf(i, n, 0, i);
    }
  }

  /** `k` presses of "next". */
  function NextTimes(i: nat, n: nat, k: nat): (r: nat)
    requires n > 0
  {
    if k == 0 then i else NextImage(NextTimes(i, n, k - 1), n)
  }

  /** Up to `n` presses move forward and wrap around once past the last image. */
  lemma {:induction false} NextTimesWraps(i: nat, n: nat, k: nat)
    requires i < n && k <= n
    ensures NextTimes(i, n, k) == if i + k < n then i + k else i + k - n
  {
    if k > 0 {
      NextTimesWraps(i, n, k - 1);
      var prev := NextTimes(i, n, k - 1);
      if i + k == n {
        assert prev + 1 == n;
        ModOf(n, n, 1, 0);
      } else {
        ModOf(prev + 1, n, 0, prev + 1);
      }
    }
  }

  /** Division with remainder has a unique answer. */
  lemma ModOf(a: int, n: int, q: int, r: int)
    requires n > 0 && 0 <= r < n && a == q * n + r
    ensures a % n == r
  {
    var q', r' := a / n, a % n;
    assert q' * n + r' == a;
    var d := q' - q;
    Distribute(q', q, n);
    assert d * n == r - r';
    if d >= 1 {
      MulAtLeast(d, n);
    } else if d <= -1 {
      MulAtLeast(-d, n);
    }
  }

  lemma Distribute(x: int, y: int, n: int)
    ensures (x - y) * n == x * n - y * n
  {
  }

  lemma {:induction false} MulAtLeast(d: int, n: int)
    requires d >= 1 && n > 0
    ensures d * n >= n
  {
    if d > 1 {
      MulAtLeast(d - 1, n);
      Distribute(d, 1, n);
    }
  }

  /** After as many presses of "next" as there are images, the gallery is back
      where it started. */
  lemma NextCycleReturns(i: nat, n: nat)
    requires i < n
    ensures NextTimes(i, n, n) == i
  {
    NextTimesWraps(i, n, n);
  }

  /** The arrows are drawn only when there is more than one image. */
  predicate ShowsArrows(images: seq<string>) {
    |images| > 1
  }

  /** The arrows are drawn exactly when pressing one would change the image. */
  lemma ShowsArrowsIffNavigationMoves(images: seq<string>, i: nat)
    requires i < |images|
    ensures ShowsArrows(images) <==> NextImage(i, |images|) != i
    ensures ShowsArrows(images) <==> PrevImage(i, |images|) != i
  {
    var n := |images|;
    if n > 1 {
      if i + 1 < n {
        ModOf(i + 1, n, 0, i + 1);
      } else {
        ModOf(n, n, 1, 0);
      }
    }
  }

  const PriceUnavailable := "Price not available"

  /** `product.sale_price ? `₵${product.sale_price}` : 'Price not available'`:
      the price arrives as a JSON number, so a missing price and a price of zero
      are both falsy. How a number is written out is the input `show`. */
  function PriceLabel(salePrice: Option<real>, show: real -> string): (r: string)
    ensures salePrice.Some? && salePrice.value != 0.0 ==> r == "₵" + show(salePrice.value)
    ensures salePrice.None? || salePrice.value == 0.0 ==> r == PriceUnavailable
  {
    if salePrice.Some? && salePrice.value != 0.0 then "₵" + show(salePrice.value) else PriceUnavailable
  }

  /** The label tells the two cases apart: it starts with the cedi sign exactly
      when a non-zero price is shown, and the rendered price can be read back. */
  lemma PriceLabelReadsBack(salePrice: Option<real>, show: real -> string)
    ensures PriceLabel(salePrice, show)[0] == '₵' <==> salePrice.Some? && salePrice.value != 0.0
    ensures salePrice.Some? && salePrice.value != 0.0 ==> PriceLabel(salePrice, show)[1..] == show(salePrice.value)
  {
  }
}
