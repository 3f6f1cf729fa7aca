/**
 * A product's `images` object: image file names per colour key, with the
 * keys in the order `Object.keys` yields, and the "first image" rule
 * the home page and the admin product list share.
 */
module ColorImages {
  import opened Wrappers
  import Seqs

  /** One key of `images`; `files` is `None` when the value is not an array of names. */
  datatype Entry = Entry(color: string, files: Option<seq<string>>)

  /** The directory every image name is served from. */
  const ImageDir := "/Images/"

  /** The files of an entry, `[]` when its value is not an array. */
  function FilesOf(e: Entry): seq<string>
  {
    if e.files.Some? then e.files.value else []
  }

  /** `images[color] || []` */
  function Lookup(images: seq<Entry>, color: string): (r: seq<string>)
    ensures r == [] || exists k :: 0 <= k < |images| && images[k].color == color && images[k].files == Some(r)
                                 && forall j :: 0 <= j < k ==> images[j].color != color
    decreases |images|
  {
    if images == [] then []
    else if images[0].color == color then FilesOf(images[0])
    else
      var r := Lookup(images[1..], color);
      assert forall j :: 1 <= j < |images| ==> images[j] == images[1..][j - 1];
      r
  }

  /** The value read is that of the first entry with the colour. */
  lemma {:induction false} LookupFirstEntry(images: seq<Entry>, color: string, k: nat)
    requires k < |images| && images[k].color == color
    requires forall j :: 0 <= j < k ==> images[j].color != color
    ensures Lookup(images, color) == FilesOf(images[k])
    decreases k
  {
    if k > 0 {
      LookupFirstEntry(images[1..], color, k - 1);
    }
  }

  /** A colour with no entry reads as `[]`. */
  lemma {:induction false} LookupAbsent(images: seq<Entry>, color: string)
    requires forall j :: 0 <= j < |images| ==> images[j].color != color
    ensures Lookup(images, color) == []
    decreases |images|
  {
    if images != [] {
      LookupAbsent(images[1..], color);
    }
  }

  /** `{ ...images, [color]: files }`: an existing key keeps its place, a new key goes last. */
  function Store(images: seq<Entry>, color: string, files: seq<string>): (r: seq<Entry>)
    ensures Lookup(r, color) == files
    ensures forall c :: c != color ==> Lookup(r, c) == Lookup(images, c)
    decreases |images|
  {
    if images == [] then [Entry(color, Some(files))]
    else if images[0].color == color then [Entry(color, Some(files))] + images[1..]
    else [images[0]] + Store(images[1..], color, files)
  }

  /** Storing under an existing key keeps every key in its place. */
  lemma {:induction false} StoreKeepsKeyOrder(images: seq<Entry>, color: string, files: seq<string>, k: nat)
    requires k < |images| && images[k].color == color
    ensures var r := Store(images, color, files);
      |r| == |images| && forall j :: 0 <= j < |r| ==> r[j].color == images[j].color
    decreases |images|
  {
    var r := Store(images, color, files);
    var tail := images[1..];
    if images[0].color == color {
      assert forall j :: 1 <= j < |r| ==> r[j] == tail[j - 1] == images[j];
    } else {
      StoreKeepsKeyOrder(tail, color, files, k - 1);
      assert forall j :: 1 <= j < |r| ==> r[j] == Store(tail, color, files)[j - 1];
    }
  }

  /** Storing under a new key appends it last. */
  lemma {:induction false} StoreAppendsNewKey(images: seq<Entry>, color: string, files: seq<string>)
    requires forall j :: 0 <= j < |images| ==> images[j].color != color
    ensures Store(images, color, files) == images + [Entry(color, Some(files))]
    decreases |images|
  {
    if images != [] {
      var tail := images[1..];
      assert images[0].color != color;
      forall j | 0 <= j < |tail| ensures tail[j].color != color {
        assert tail[j] == images[j + 1];
      }
      calc {
        Store(images, color, files);
        [images[0]] + Store(tail, color, files);
        { StoreAppendsNewKey(tail, color, files); }
        [images[0]] + (tail + [Entry(color, Some(files))]);
        { assert images == [images[0]] + tail; }
        images + [Entry(color, Some(files))];
      }
    }
  }

  predicate HasPicture(e: Entry)
  {
    e.files.Some? && |e.files.value| > 0
  }

  /** The first key, in key order, whose value is a non-empty list. */
  function FirstNonEmpty(images: seq<Entry>): (r: Option<nat>)
    ensures r.Some? ==> r.value < |images| && HasPicture(images[r.value])
    ensures r.Some? ==> forall j :: 0 <= j < r.value ==> !HasPicture(images[j])
    ensures r.None? ==> forall j :: 0 <= j < |images| ==> !HasPicture(images[j])
  {
    Seqs.FirstIndex(images, HasPicture)
  }

  /** The loop of `getFirstImage`: the first file of the first non-empty colour, under the image directory. */
  method FirstImage(images: seq<Entry>) returns (r: Option<string>)
    ensures r.None? <==> FirstNonEmpty(images).None?
    ensures r.Some? ==> r.value == ImageDir + images[FirstNonEmpty(images).value].files.value[0]
  {
    for i := 0 to |images|
      invariant forall j :: 0 <= j < i ==> !HasPicture(images[j])
    {
      var files := images[i].files;
      if files.Some? && |files.value| > 0 {
        assert FirstNonEmpty(images) == Some(i);
        return Some(ImageDir + files.value[0]);
      }
    }
    assert FirstNonEmpty(images).None?;
    return None;
  }

  /** A generated SVG placeholder: its background colour and the text on it. */
  datatype Picture = Path(url: string) | Placeholder(fill: string, caption: string)

  const Silver := "C0C0C0"
  const Gold := "FFD700"
}
