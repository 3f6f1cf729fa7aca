/**
 * The home page: the three-slide hero carousel, the best-seller row and
 * the picture chosen for each best seller.
 */
module HomePage {
  import opened Wrappers
  import opened Js
  import Cyclic
  import ColorImages

  /** The images of the three hero slides, in order. */
  const Slides := ["/Images/IMG_2084.jpg", "/Images/IMG_2125.jpg", "/Images/IMG_2107.jpg"]

  /** The carousel's `currentSlide` state. */
  class Carousel {
    var current: int

    ghost predicate Valid()
      reads this
    {
      0 <= current < |Slides|
    }

    constructor()
      ensures current == 0 && Valid()
    {
      current := 0;
    }

    /** `nextSlide`, and the timer's step every five seconds. */
    method NextSlide()
      requires Valid()
      modifies this
      ensures Finite(current) == Cyclic.Next(old(current), |Slides|)
      ensures Valid()
    {
      var n := |Slides|;
      Cyclic.StepsStayInRange(current, n);
      current := Rem(current + 1, n);
    }

    /** `prevSlide` */
    method PrevSlide()
      requires Valid()
      modifies this
      ensures Finite(current) == Cyclic.Prev(old(current), |Slides|)
      ensures Valid()
    {
      var n := |Slides|;
      Cyclic.StepsStayInRange(current, n);
      current := Rem(current - 1 + n, n);
    }

    /** `goToSlide`: its only callers, the dot buttons, pass their own slide index. */
    method GoToSlide(index: int)
      requires 0 <= index < |Slides|
      modifies this
      ensures current == index
      ensures Valid()
    {
      current := index;
    }
  }

  /** A step back after a step forward shows the same slide again, and the other way round. */
  lemma CarouselStepsAreInverse(i: int)
    requires 0 <= i < |Slides|
    ensures Cyclic.PrevOf(Cyclic.Next(i, |Slides|), |Slides|) == Finite(i)
    ensures Cyclic.NextOf(Cyclic.Prev(i, |Slides|), |Slides|) == Finite(i)
  {
    Cyclic.PrevUndoesNext(i, |Slides|);
    Cyclic.NextUndoesPrev(i, |Slides|);
  }

  /** Three steps forward from any slide come back to it. */
  lemma ThreeStepsComeBack(i: int)
    requires 0 <= i < |Slides|
    ensures Cyclic.NextOf(Cyclic.NextOf(Cyclic.Next(i, |Slides|), |Slides|), |Slides|) == Finite(i)
  {
    Cyclic.SmallRemainder(i + 1, 3);
    var a := if i + 1 < 3 then i + 1 else 0;
    Cyclic.SmallRemainder(a + 1, 3);
    var b := if a + 1 < 3 then a + 1 else 0;
    Cyclic.SmallRemainder(b + 1, 3);
  }

  /** `products.slice(0, 3)` */
  function BestSellers<T>(products: seq<T>): (r: seq<T>)
    ensures |r| == if |products| < 3 then |products| else 3
    ensures r == products[..|r|]
  {
    if |products| < 3 then products else products[..3]
  }

  /** The fields of a product the home page reads; `images` is `None` when absent or not an object. */
  datatype HomeProduct = HomeProduct(name: string, colors: seq<string>, images: Option<seq<ColorImages.Entry>>)

  /** `name.substring(0, 10)` */
  function ShortName(name: string): (r: string)
    ensures |r| == if |name| < 10 then |name| else 10
    ensures r == name[..|r|]
  {
    if |name| < 10 then name else name[..10]
  }

  /** The placeholder is gold for a product whose first colour is `doré`, silver otherwise, and carries the short name. */
  function FallbackFor(product: HomeProduct): (r: ColorImages.Picture)
    ensures r.Placeholder?
    ensures r.fill == ColorImages.Gold <==> |product.colors| > 0 && product.colors[0] == "doré"
    ensures r.fill == ColorImages.Gold || r.fill == ColorImages.Silver
    ensures r.caption == ShortName(product.name)
  {
    var gold := |product.colors| > 0 && product.colors[0] == "doré";
    ColorImages.Placeholder(if gold then ColorImages.Gold else ColorImages.Silver, ShortName(product.name))
  }

  /** `product.images && typeof product.images === 'object'`: an absent value has no keys to try. */
  function ImagesOf(product: HomeProduct): seq<ColorImages.Entry>
  {
    if product.images.Some? then product.images.value else []
  }

  /** `getFirstImage` of the home page: the first image of the first non-empty colour, else the placeholder. */
  method FirstImage(product: HomeProduct) returns (r: ColorImages.Picture)
    ensures r.Placeholder? <==> forall j :: 0 <= j < |ImagesOf(product)| ==> !ColorImages.HasPicture(ImagesOf(product)[j])
    ensures r.Placeholder? ==> r == FallbackFor(product)
    ensures r.Path? ==>
      exists k :: 0 <= k < |ImagesOf(product)| && ColorImages.HasPicture(ImagesOf(product)[k])
        && (forall j :: 0 <= j < k ==> !ColorImages.HasPicture(ImagesOf(product)[j]))
        && r.url == ColorImages.ImageDir + ImagesOf(product)[k].files.value[0]
  {
    var found := ColorImages.FirstImage(ImagesOf(product));
    if found.Some? {
      r := ColorImages.Path(found.value);
    } else {
      r := FallbackFor(product);
    }
  }
}
