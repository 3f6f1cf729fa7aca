/**
 * The product gallery: a strip of slots made of an optional video slot
 * (slot 0), the images of the selected colour, and an optional packaging
 * slot at the end, with a current index moved by the arrows and the
 * thumbnails.
 */
module ProductGallery {
  import opened Wrappers
  import opened Js
  import Cyclic
  import ColorImages

  /** The component's props; an absent `packagingImage` or `videoUrl` is the empty string. */
  datatype Props = Props(
    images: map<string, seq<string>>, selectedColor: string,
    packagingImage: string, videoUrl: string, productName: string)

  /** `images[selectedColor] || []` */
  function CurrentImages(props: Props): (r: seq<string>)
    ensures props.selectedColor !in props.images ==> r == []
    ensures props.selectedColor in props.images ==> r == props.images[props.selectedColor]
  {
    if props.selectedColor in props.images then props.images[props.selectedColor] else []
  }

  predicate HasVideo(props: Props) { props.videoUrl != "" }

  predicate HasPackaging(props: Props) { props.packagingImage != "" }

  function VideoOffset(props: Props): nat
  {
    if HasVideo(props) then 1 else 0
  }

  /** `totalImages` in `nextImage` and `prevImage`. */
  function SlideCount(props: Props): nat
  {
    |CurrentImages(props)| + VideoOffset(props) + (if HasPackaging(props) then 1 else 0)
  }

  /** The slot the packaging thumbnail selects. */
  function PackagingIndex(props: Props): nat
  {
    |CurrentImages(props)| + VideoOffset(props)
  }

  /** The slot thumbnail `k` of the colour's images selects. */
  function ThumbnailIndex(props: Props, k: nat): nat
  {
    if HasVideo(props) then k + 1 else k
  }

  /** `getCurrentImage`: the image path shown at `index`, or `null`. */
  function CurrentImage(props: Props, index: Number): Option<string>
  {
    var imgs := CurrentImages(props);
    if HasPackaging(props) && index == Finite(PackagingIndex(props)) then
      Some(ColorImages.ImageDir + props.packagingImage)
    else if index.NaN? then None
    else
      var productIndex := if HasVideo(props) then index.n - 1 else index.n;
      if 0 <= productIndex < |imgs| then Some(ColorImages.ImageDir + imgs[productIndex]) else None
  }

  /** Thumbnail `k` selects a slot that shows exactly image `k`. */
  lemma ThumbnailShowsItsImage(props: Props, k: nat)
    requires k < |CurrentImages(props)|
    ensures ThumbnailIndex(props, k) < SlideCount(props)
    ensures CurrentImage(props, Finite(ThumbnailIndex(props, k))) == Some(ColorImages.ImageDir + CurrentImages(props)[k])
  {
  }

  /** The packaging thumbnail selects the last slot, which shows the packaging image. */
  lemma PackagingThumbnailShowsPackaging(props: Props)
    requires HasPackaging(props)
    ensures PackagingIndex(props) == SlideCount(props) - 1
    ensures CurrentImage(props, Finite(PackagingIndex(props))) == Some(ColorImages.ImageDir + props.packagingImage)
  {
  }

  /**
   * Every slot of the strip shows a picture except the video slot, and no
   * index outside the strip (nor `NaN`) shows one: the slide count is
   * exactly the number of slots.
   */
  lemma SlotsOfTheStrip(props: Props, index: Number)
    ensures CurrentImage(props, index).None? <==>
      (!Cyclic.InRange(index, SlideCount(props)) || (HasVideo(props) && index == Finite(0)))
  {
  }

  /** What the main area of the gallery renders. */
  datatype MainView = Video(src: string, poster: Option<string>) | Picture(src: string)

  const PlaceholderImage := "/Images/placeholder.jpg"

  /** The main area: the video on slot 0 when there is one, otherwise the current image or the placeholder. */
  function Main(props: Props, index: Number): (r: MainView)
    ensures r.Video? <==> HasVideo(props) && index == Finite(0)
    ensures r.Picture? && CurrentImage(props, index).Some? ==> r.src == CurrentImage(props, index).value
    ensures r.Picture? && CurrentImage(props, index).None? ==> r.src == PlaceholderImage
  {
    if HasVideo(props) && index == Finite(0) then Video(props.videoUrl, CurrentImage(props, index))
    else Picture(if CurrentImage(props, index).Some? then CurrentImage(props, index).value else PlaceholderImage)
  }

  /** Without a video, the main area always shows a picture, and on every slot of the strip it is that slot's image. */
  lemma NoVideoMeansPicture(props: Props, index: Number)
    requires !HasVideo(props)
    ensures Main(props, index).Picture?
    ensures Cyclic.InRange(index, SlideCount(props)) ==>
      CurrentImage(props, index).Some? && Main(props, index).src == CurrentImage(props, index).value
  {
    SlotsOfTheStrip(props, index);
  }

  /**
   * The arrows condition as written, `len > 1 || packagingImage && arrows`:
   * `&&` binds tighter than `||`, and a `true` child renders nothing, so the
   * arrows appear only when there is at most one image and a packaging image.
   */
  predicate ArrowsShownAsWritten(props: Props)
  {
    !(|CurrentImages(props)| > 1) && HasPackaging(props)
  }

  /** The intended condition: arrows whenever there are several images or a packaging image. */
  predicate ArrowsShown(props: Props)
  {
    |CurrentImages(props)| > 1 || HasPackaging(props)
  }

  /** As written, a colour with several images never gets arrows. */
  lemma SeveralImagesHideArrowsAsWritten(props: Props)
    requires |CurrentImages(props)| > 1
    ensures !ArrowsShownAsWritten(props)
    ensures SlideCount(props) >= 2
  {
  }

  /** A concrete case: two images and no packaging, two slides, no arrows. */
  lemma TwoImagesHaveNoArrowsAsWritten()
    ensures var props := Props(map["argent" := ["a.jpg", "b.jpg"]], "argent", "", "", "Bague");
      SlideCount(props) == 2 && !ArrowsShownAsWritten(props) && ArrowsShown(props)
  {
  }

  /**
   * With the intended condition, several images always get arrows, every
   * case the written condition shows them is kept, and showing them means
   * the slide count is not zero, so the arrows never divide by zero.
   */
  lemma ArrowsShownWhenNeeded(props: Props)
    ensures |CurrentImages(props)| > 1 ==> ArrowsShown(props)
    ensures ArrowsShown(props) ==> SlideCount(props) > 0
    ensures ArrowsShownAsWritten(props) ==> ArrowsShown(props)
  {
  }

  /** The gallery's `currentImageIndex` state; it becomes `NaN` once a step is taken with nothing to show. */
  class Gallery {
    var index: Number

    constructor()
      ensures index == Finite(0)
    {
      index := Finite(0);
    }

    /** `nextImage` */
    method NextImage(props: Props)
      modifies this
      ensures index == Cyclic.NextOf(old(index), SlideCount(props))
      ensures SlideCount(props) == 0 ==> index.NaN?
      ensures SlideCount(props) > 0 && old(index).Finite? && old(index).n >= 0 ==> Cyclic.InRange(index, SlideCount(props))
    {
      var n := SlideCount(props);
      index := Cyclic.NextOf(index, n);
      if old(index).Finite? && old(index).n >= 0 && n > 0 {
        Cyclic.StepsStayInRange(old(index).n, n);
      }
    }

    /** `prevImage` */
    method PrevImage(props: Props)
      modifies this
      ensures index == Cyclic.PrevOf(old(index), SlideCount(props))
      ensures SlideCount(props) == 0 ==> index.NaN?
      ensures SlideCount(props) > 0 && old(index).Finite? && old(index).n >= 0 ==> Cyclic.InRange(index, SlideCount(props))
    {
      var n := SlideCount(props);
      index := Cyclic.PrevOf(index, n);
      if old(index).Finite? && old(index).n >= 0 && n > 0 {
        Cyclic.StepsStayInRange(old(index).n, n);
      }
    }

    /** `selectImage` */
    method SelectImage(i: int)
      modifies this
      ensures index == Finite(i)
    {
      index := Finite(i);
    }
  }
}
