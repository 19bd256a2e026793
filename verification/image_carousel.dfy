/**
  The `ImageCarousel` component: a horizontally paged list of images. It keeps the
  current page index, the image open in the detail modal (if any) and the measured
  container width. A scroll offset becomes a page index by rounding the offset
  divided by the page width to the nearest integer (ties upward), and a page index
  becomes the offset `index * width`. Offsets and widths are real numbers here.
 */
module ImageCarousel {
  import opened Wrappers
  import Decimal

  datatype ImageItem = ImageItem(id: string, uri: string, title: Option<string>, description: Option<string>)

  /** JavaScript truthiness of an optional number: defined and not zero. */
  predicate Truthy(width: Option<real>)
  {
    width.Some? && width.value != 0.0
  }

  /** `Math.round`: the nearest integer, halves rounded toward +infinity. */
  function Round(x: real): (r: int)
    ensures r as real - 0.5 <= x < r as real + 0.5
  {
    (x + 0.5).Floor
  }

  /** There is only one integer within half a unit below-or-at and strictly above `x`. */
  lemma RoundUnique(x: real, k: int)
    requires k as real - 0.5 <= x < k as real + 0.5
    ensures Round(x) == k
  {
  }

  /** The page index `handleScroll` derives from a horizontal offset. */
  function PageIndex(offset: real, width: real): int
    requires width > 0.0
  {
    Round(offset / width)
  }

  /** The offset `scrollToIndex` scrolls to for a page index. */
  function PageOffset(index: int, width: real): real
  {
    index as real * width
  }

  /** The chosen page is the one whose offset lies nearest, a half page either side. */
  lemma PageIndexNearest(offset: real, width: real)
    requires width > 0.0
    ensures PageOffset(PageIndex(offset, width), width) - width / 2.0 <= offset
    ensures offset < PageOffset(PageIndex(offset, width), width) + width / 2.0
  {
    var r := PageIndex(offset, width);
    var q := offset / width;
    var p := PageOffset(r, width);
    assert (r as real + 0.5) * width == p + width / 2.0;
    assert (r as real - 0.5) * width == p - width / 2.0;
    ScaleLess(q, r as real + 0.5, width);
    ScaleAtMost(r as real - 0.5, q, width);
    assert q * width == offset;
    assert q * width < (r as real + 0.5) * width;
    assert offset < p + width / 2.0;
  }

  lemma ScaleLess(a: real, b: real, width: real)
    requires width > 0.0 && a < b
    ensures a * width < b * width
  {
  }

  lemma ScaleAtMost(a: real, b: real, width: real)
    requires width > 0.0 && a <= b
    ensures a * width <= b * width
  {
  }

  /** Scrolling to a page and reading the offset back gives that page. */
  lemma PageRoundTrip(index: int, width: real)
    requires width > 0.0
    ensures PageIndex(PageOffset(index, width), width) == index
  {
    assert PageOffset(index, width) / width == index as real;
    RoundUnique(index as real, index);
  }

  /** An offset within the scrollable range yields an index of an existing image. */
  lemma PageIndexInRange(offset: real, width: real, count: nat)
    requires width > 0.0 && count >= 1
    requires 0.0 <= offset <= PageOffset(count - 1, width)
    ensures 0 <= PageIndex(offset, width) < count
  {
    DivideMonotone(offset, PageOffset(count - 1, width), width);
    assert PageOffset(count - 1, width) / width == (count - 1) as real;
  }

  lemma DivideMonotone(a: real, b: real, width: real)
    requires width > 0.0 && a <= b
    ensures a / width <= b / width
  {
  }

  /** There is no clamping: an offset past the last page yields an index past the last image. */
  lemma OverscrollLeavesRange(width: real, count: nat)
    requires width > 0.0
    ensures PageIndex(PageOffset(count, width), width) == count
    ensures PageIndex(PageOffset(-1, width), width) == -1
  {
    PageRoundTrip(count, width);
    PageRoundTrip(-1, width);
  }

  /** The text drawn over a slide. */
  datatype Caption = NoCaption | Title(title: string) | TitleAndDescription(title: string, description: string)

  /** JavaScript truthiness of an optional string: defined and not empty. */
  predicate Present(text: Option<string>)
  {
    text.Some? && text.value != ""
  }

  /** A slide's overlay: its title when titles are on and it has one, its description under it when present. */
  function CaptionOf(image: ImageItem, showTitles: bool): Caption
  {
    if !showTitles || !Present(image.title) then NoCaption
    else if Present(image.description) then TitleAndDescription(image.title.value, image.description.value)
    else Title(image.title.value)
  }

  /** What the component renders. */
  datatype Screen =
    | Placeholder
    | Gallery(captions: seq<Caption>, indicators: Option<seq<bool>>, counter: Option<string>,
              modalVisible: bool)

  /** The counter text `{currentIndex + 1} / {images.length}`. */
  function CounterText(currentIndex: int, count: nat): string
  {
    Decimal.IntToString(currentIndex + 1) + " / " + Decimal.NatToString(count)
  }

  /**
    The render: a missing or empty list gives the placeholder; otherwise a caption per
    slide, one indicator
    per image (shown when asked for and there is more than one image, the active one
    being the current index), the counter when there is more than one image, and the
    modal, visible while an image is selected.
   */
  function Render(images: Option<seq<ImageItem>>, showIndicators: bool, showTitles: bool,
                  currentIndex: int, selected: Option<ImageItem>): Screen
  {
    if images.None? || |images.value| == 0 then Placeholder
    else
      var n := |images.value|;
      Gallery(
        seq(n, i requires 0 <= i < n => CaptionOf(images.value[i], showTitles)),
        if showIndicators && n > 1 then Some(seq(n, i => i == currentIndex)) else None,
        if n > 1 then Some(CounterText(currentIndex, n)) else None,
        selected.Some?)
  }

  /** The placeholder appears exactly for a missing or empty list. */
  lemma PlaceholderIffNoImages(images: Option<seq<ImageItem>>, showIndicators: bool, showTitles: bool,
                               currentIndex: int, selected: Option<ImageItem>)
    ensures Render(images, showIndicators, showTitles, currentIndex, selected).Placeholder?
      <==> images.None? || images.value == []
  {
  }

  /**
    Indicators and counter appear only with more than one image; there is one
    indicator per image, active exactly at the current index (so none is active when
    the index is out of range), and the counter reads the current index over the count.
   */
  lemma IndicatorsAndCounter(images: seq<ImageItem>, showIndicators: bool, showTitles: bool,
                             currentIndex: int, selected: Option<ImageItem>)
    requires images != []
    ensures
      var r := Render(Some(images), showIndicators, showTitles, currentIndex, selected);
      && r.Gallery?
      && |r.captions| == |images|
      && (forall i :: 0 <= i < |images| ==>
            (r.captions[i].NoCaption? <==> !showTitles || !Present(images[i].title)))
      && (r.indicators.Some? <==> showIndicators && |images| > 1)
      && (r.indicators.Some? ==>
            && |r.indicators.value| == |images|
            && forall i :: 0 <= i < |images| ==> (r.indicators.value[i] <==> i == currentIndex))
      && (r.counter.Some? <==> |images| > 1)
      && (r.counter.Some? ==> r.counter.value == CounterText(currentIndex, |images|))
      && (r.modalVisible <==> selected.Some?)
  {
  }

  /** On an index in range the counter carries no minus sign: it reads `k / n` for the `k`-th of `n` images. */
  lemma CounterReads(currentIndex: nat, count: nat)
    ensures CounterText(currentIndex, count) ==
      Decimal.NatToString(currentIndex + 1) + " / " + Decimal.NatToString(count)
  {
  }

  /** The counter on the last of five images, and after overscrolling to index -1. */
  lemma CounterExamples(count: nat)
    ensures CounterText(4, 5) == "5 / 5"
    ensures CounterText(-1, count) == "0 / " + Decimal.NatToString(count)
  {
  }

  /** Different pages of one carousel show different counter texts. */
  lemma CounterIdentifiesPage(a: int, b: int, count: nat)
    ensures CounterText(a, count) == CounterText(b, count) <==> a == b
  {
    var x, y := Decimal.IntToString(a + 1), Decimal.IntToString(b + 1);
    var n := Decimal.NatToString(count);
    if CounterText(a, count) == CounterText(b, count) {
      var s := x + " / " + n;
      assert s == y + " / " + n;
      if |x| != |y| {
        assert false;
      }
      assert x == s[..|x|] == (y + " / " + n)[..|y|] == y;
      Decimal.IntToStringInjective(a + 1, b + 1);
    }
  }

  class Carousel {
    const images: Option<seq<ImageItem>>
    const width: Option<real>
    const showIndicators: bool
    const showTitles: bool
    var currentIndex: int
    var selectedImage: Option<ImageItem>
    var containerWidth: real

    /** The page width: the custom `width` when it is truthy, otherwise the measured width. */
    function CarouselWidth(): real
      reads this
    {
      if Truthy(width) then width.value else containerWidth
    }

    /** The detail modal is visible exactly while an image is selected. */
    predicate ModalVisible()
      reads this
    {
      selectedImage.Some?
    }

    function Screen(): Screen
      reads this
    {
      Render(images, showIndicators, showTitles, currentIndex, selectedImage)
    }

    /**
      Mounting: the first page, nothing selected, and the container width initialised
      from the custom width or, failing that, the window width. `showIndicators` and
      `showTitles` default to true when the caller leaves them out.
     */
    constructor (images: Option<seq<ImageItem>>, width: Option<real>, showIndicators: Option<bool>,
                 showTitles: Option<bool>, screenWidth: real)
      ensures this.images == images && this.width == width
      ensures this.showIndicators == (showIndicators.None? || showIndicators.value)
      ensures this.showTitles == (showTitles.None? || showTitles.value)
      ensures currentIndex == 0 && selectedImage == None
      ensures CarouselWidth() == if Truthy(width) then width.value else screenWidth
    {
      this.images := images;
      this.width := width;
      this.showIndicators := if showIndicators.Some? then showIndicators.value else true;
      this.showTitles := if showTitles.Some? then showTitles.value else true;
      currentIndex := 0;
      selectedImage := None;
      containerWidth := if Truthy(width) then width.value else screenWidth;
    }

    /** A layout event changes the page width only when no custom width is given. */
    method HandleLayout(layoutWidth: real)
      modifies this
      ensures Truthy(width) ==> containerWidth == old(containerWidth)
      ensures !Truthy(width) ==> CarouselWidth() == layoutWidth
      ensures currentIndex == old(currentIndex) && selectedImage == old(selectedImage)
    {
      if !Truthy(width) {
        containerWidth := layoutWidth;
      }
    }

    /** A scroll event sets the current index to the page nearest the offset. */
    method HandleScroll(offset: real)
      requires CarouselWidth() > 0.0
      modifies this
      ensures containerWidth == old(containerWidth) && selectedImage == old(selectedImage)
      ensures currentIndex == PageIndex(offset, CarouselWidth())
    {
      currentIndex := Round(offset / CarouselWidth());
    }

    /**
      The offset `scrollToIndex` asks the scroll view for. It does not change the
      current index itself; the scroll event that follows brings the index to `index`.
     */
    method ScrollToIndex(index: int) returns (target: real)
      ensures target == PageOffset(index, CarouselWidth())
      ensures CarouselWidth() > 0.0 ==> PageIndex(target, CarouselWidth()) == index
    {
      target := index as real * CarouselWidth();
      if CarouselWidth() > 0.0 {
        PageRoundTrip(index, CarouselWidth());
      }
    }

    method OpenImageDetail(image: ImageItem)
      modifies this
      ensures selectedImage == Some(image) && ModalVisible()
      ensures currentIndex == old(currentIndex) && containerWidth == old(containerWidth)
    {
      selectedImage := Some(image);
    }

    method CloseImageDetail()
      modifies this
      ensures selectedImage == None && !ModalVisible()
      ensures currentIndex == old(currentIndex) && containerWidth == old(containerWidth)
    {
      selectedImage := None;
    }
  }

  /**
    Pressing indicator `i` scrolls to page `i`; once the scroll event for that offset
    arrives, indicator `i` is the active one and the counter reads `i + 1 / n`.
   */
  method PressIndicator(c: Carousel, i: nat)
    requires c.images.Some? && i < |c.images.value|
    requires c.CarouselWidth() > 0.0
    modifies c
    ensures c.currentIndex == i
    ensures c.selectedImage == old(c.selectedImage) && c.containerWidth == old(c.containerWidth)
    ensures c.Screen().Gallery?
    ensures c.Screen().indicators.Some? ==> c.Screen().indicators.value[i]
    ensures c.Screen().counter.Some? ==> c.Screen().counter.value == CounterText(i, |c.images.value|)
  {
    var target := c.ScrollToIndex(i);
    c.HandleScroll(target);
  }
}
