/**
 * The admin product editor: the comma-separated sizes field, the image
 * picker's toggle, the colour checkboxes, the save payload, and the first
 * image shown in the product list.
 */
module AdminProducts {
  import opened Wrappers
  import Seqs
  import Text
  import ColorImages

  // ----- sizes field -----

  /** `.map((s) => s.trim())` */
  function TrimAll(xs: seq<string>): seq<string>
  {
    seq(|xs|, k requires 0 <= k < |xs| => Text.Trim(xs[k]))
  }

  function NonEmpty(s: string): bool { s != "" }

  /** `sizesInput.split(",").map((s) => s.trim()).filter(Boolean)` */
  function ParseSizes(input: string): (r: seq<string>)
    ensures forall i :: 0 <= i < |r| ==> r[i] != "" && Text.IsTrimmed(r[i])
  {
    var pieces := TrimAll(Text.Split(input, ','));
    assert forall k :: 0 <= k < |pieces| ==> Text.IsTrimmed(pieces[k]);
    Seqs.Filter(pieces, NonEmpty)
  }

  /** The trimmed pieces of the input, before empty ones are dropped. */
  function Pieces(input: string): seq<string>
  {
    TrimAll(Text.Split(input, ','))
  }

  /** The parsed sizes are the non-empty trimmed pieces in input order, each as often as it occurs. */
  lemma ParseSizesKeepsPieces(input: string, x: string)
    ensures Seqs.IsSubsequence(ParseSizes(input), Pieces(input))
    ensures multiset(ParseSizes(input))[x] == if x != "" then multiset(Pieces(input))[x] else 0
  {
    Seqs.FilterIsSubsequence(Pieces(input), NonEmpty);
    Seqs.FilterMultiplicity(Pieces(input), NonEmpty, x);
  }

  /** `p.sizes.join(", ")`, the text the sizes field starts with when a product is edited. */
  function JoinSizes(sizes: seq<string>): string
  {
    Text.Join(sizes, ", ")
  }

  /** A size the field can carry unchanged through a join and a parse. */
  predicate PlainSize(s: string)
  {
    s != "" && Text.IsTrimmed(s) && ',' !in s
  }

  /** Editing a product and saving without touching the field gives back its sizes. */
  lemma ParseJoinRoundTrip(sizes: seq<string>)
    requires forall k :: 0 <= k < |sizes| ==> PlainSize(sizes[k])
    ensures ParseSizes(JoinSizes(sizes)) == sizes
  {
    if sizes == [] {
      Text.SplitWithout("", ',');
      assert TrimAll([""]) == [""];
    } else {
      assert ", " == [','] + " ";
      Text.SplitJoin(sizes, ',', " ");
      var pieces := TrimAll(Text.Padded(sizes, " "));
      forall k | 0 <= k < |sizes| ensures pieces[k] == sizes[k] {
        if k == 0 {
          Text.TrimOfTrimmed(sizes[0]);
        } else {
          Text.TrimAfterSpaces(" ", sizes[k]);
        }
      }
      assert pieces == sizes;
      Seqs.FilterKeepsAll(sizes, NonEmpty);
    }
  }

  /** A size containing a comma does not survive: the parse splits it in two. */
  lemma CommaSizeIsSplit()
    ensures ParseSizes(JoinSizes(["38,5"])) == ["38", "5"]
  {
    assert JoinSizes(["38,5"]) == "38,5";
    SplitCommaSize();
    TrimPlainPieces();
    Seqs.FilterKeepsAll(["38", "5"], NonEmpty);
  }

  lemma SplitCommaSize()
    ensures Text.Split("38,5", ',') == ["38", "5"]
  {
    assert "38,5" == "38" + [','] + "5";
    Text.SplitAtSeparator("38", "5", ',');
    Text.SplitWithout("5", ',');
  }

  lemma TrimPlainPieces()
    ensures TrimAll(["38", "5"]) == ["38", "5"]
  {
    Text.TrimOfTrimmed("38");
    Text.TrimOfTrimmed("5");
    assert TrimAll(["38", "5"]) == [Text.Trim("38"), Text.Trim("5")];
  }

  // ----- image picker and colour checkboxes -----

  /** `list.filter((x) => x !== v)` */
  function Exclude(s: seq<string>, v: string): (r: seq<string>)
    ensures v !in r
  {
    Seqs.Filter(s, (x: string) => x != v)
  }

  /** Exclusion drops every occurrence of `v` and keeps everything else in order and in number. */
  lemma ExcludeEffect(s: seq<string>, v: string, x: string)
    ensures Seqs.IsSubsequence(Exclude(s, v), s)
    ensures multiset(Exclude(s, v))[x] == if x == v then 0 else multiset(s)[x]
    ensures v !in s ==> Exclude(s, v) == s
  {
    var keep := (y: string) => y != v;
    Seqs.FilterIsSubsequence(s, keep);
    Seqs.FilterMultiplicity(s, keep, x);
    if v !in s {
      Seqs.FilterKeepsAll(s, keep);
    }
  }

  /** `ImagePicker.toggle` */
  function Toggle(selected: seq<string>, img: string): (r: seq<string>)
    ensures img in r <==> img !in selected
    ensures img !in selected ==> r == selected + [img]
    ensures img in selected ==> r == Exclude(selected, img)
  {
    if img in selected then Exclude(selected, img) else selected + [img]
  }

  /** Toggling an image on and off again restores the selection. */
  lemma ToggleTwice(selected: seq<string>, img: string)
    requires img !in selected
    ensures Toggle(Toggle(selected, img), img) == selected
  {
    var keep := (y: string) => y != img;
    Seqs.FilterAppend(selected, [img], keep);
    Seqs.FilterKeepsAll(selected, keep);
    assert Seqs.Filter([img], keep) == [];
  }

  /** The colour checkbox's `onChange`: checking appends, unchecking removes every occurrence. */
  function CheckColor(colors: seq<string>, c: string, checked: bool): (r: seq<string>)
    ensures checked ==> r == colors + [c]
    ensures !checked ==> c !in r && r == Exclude(colors, c)
  {
    if checked then colors + [c] else Exclude(colors, c)
  }

  /** The box is shown checked when the colour is selected, so a click flips it: the same as a toggle. */
  lemma ColorClickIsToggle(colors: seq<string>, c: string)
    ensures CheckColor(colors, c, c !in colors) == Toggle(colors, c)
  {
  }

  // ----- the form -----

  datatype ProductForm = ProductForm(
    name: string, description: string, price: int, category: string, sizes: seq<string>,
    colors: seq<string>, stock: int, images: seq<ColorImages.Entry>, packagingImage: string, videoUrl: string)

  const NoImages := [ColorImages.Entry("argent", Some([])), ColorImages.Entry("doré", Some([]))]

  /** `emptyProduct` */
  const EmptyProduct := ProductForm("", "", 0, "bague", [], ["argent", "doré"], 0, NoImages, "", "")

  /** A product as the API lists it; absent optional fields are `None`. */
  datatype AdminProduct = AdminProduct(
    id: string, name: string, description: string, price: int, category: string, sizes: seq<string>,
    colors: seq<string>, stock: int, images: Option<seq<ColorImages.Entry>>,
    packagingImage: Option<string>, videoUrl: Option<string>)

  function OrEmpty(s: Option<string>): string
  {
    if s.Some? then s.value else ""
  }

  /** The form `openEdit` fills from a product. */
  function FormOf(p: AdminProduct): (f: ProductForm)
    ensures f.sizes == p.sizes && f.colors == p.colors && f.name == p.name && f.price == p.price
    ensures p.images.None? ==> f.images == NoImages
    ensures p.images.Some? ==> f.images == p.images.value
    ensures f.description == p.description && f.category == p.category && f.stock == p.stock
    ensures p.packagingImage.None? ==> f.packagingImage == ""
    ensures p.packagingImage.Some? ==> f.packagingImage == p.packagingImage.value
    ensures p.videoUrl.None? ==> f.videoUrl == ""
    ensures p.videoUrl.Some? ==> f.videoUrl == p.videoUrl.value
  {
    ProductForm(p.name, p.description, p.price, p.category, p.sizes, p.colors, p.stock,
                if p.images.Some? then p.images.value else NoImages, OrEmpty(p.packagingImage), OrEmpty(p.videoUrl))
  }

  /** `{ ...form, sizes }` */
  function Payload(form: ProductForm, sizesInput: string): ProductForm
  {
    form.(sizes := ParseSizes(sizesInput))
  }

  /** The payload is the form with only `sizes` replaced, by the parsed field. */
  lemma PayloadReplacesOnlySizes(form: ProductForm, sizesInput: string)
    ensures Payload(form, sizesInput).sizes == ParseSizes(sizesInput)
    ensures Payload(form, sizesInput).(sizes := form.sizes) == form
  {
  }

  /** Opening a product and saving straight away sends the product's own form back, sizes included. */
  lemma EditThenSaveIsUnchanged(p: AdminProduct)
    requires forall k :: 0 <= k < |p.sizes| ==> PlainSize(p.sizes[k])
    ensures Payload(FormOf(p), JoinSizes(p.sizes)) == FormOf(p)
  {
    ParseJoinRoundTrip(p.sizes);
  }

  /** `getFirstImage` of the product list. */
  method ListImage(p: AdminProduct) returns (r: Option<string>)
    ensures var images := if p.images.Some? then p.images.value else [];
      && (r.None? <==> forall j :: 0 <= j < |images| ==> !ColorImages.HasPicture(images[j]))
      && (r.Some? ==> (exists k :: 0 <= k < |images| && ColorImages.HasPicture(images[k])
                        && (forall j :: 0 <= j < k ==> !ColorImages.HasPicture(images[j]))
                        && r.value == ColorImages.ImageDir + images[k].files.value[0]))
  {
    r := ColorImages.FirstImage(if p.images.Some? then p.images.value else []);
  }

  /** `localStorage.getItem("authToken")` is truthy. */
  predicate HasToken(token: Option<string>)
  {
    token.Some? && token.value != ""
  }

  /** The request `handleSave` sends. */
  datatype SaveRequest = UpdateRequest(id: string, payload: ProductForm) | CreateRequest(payload: ProductForm)

  /** The request for the form being edited (`editing` set) or created. */
  function RequestFor(editing: Option<AdminProduct>, form: ProductForm, sizesInput: string): (r: SaveRequest)
    ensures r.payload == Payload(form, sizesInput)
    ensures editing.Some? <==> r.UpdateRequest?
    ensures editing.Some? ==> r.id == editing.value.id
  {
    var payload := Payload(form, sizesInput);
    if editing.Some? then UpdateRequest(editing.value.id, payload) else CreateRequest(payload)
  }

  /** The editor dialog's state. */
  class ProductEditor {
    var editing: Option<AdminProduct>
    var form: ProductForm
    var sizesInput: string
    var dialogOpen: bool

    constructor()
      ensures editing == None && form == EmptyProduct && sizesInput == "" && !dialogOpen
    {
      editing, form, sizesInput, dialogOpen := None, EmptyProduct, "", false;
    }

    /** `openCreate` */
    method OpenCreate()
      modifies this
      ensures editing == None && form == EmptyProduct && sizesInput == "" && dialogOpen
    {
      editing, form, sizesInput, dialogOpen := None, EmptyProduct, "", true;
    }

    /** `openEdit` */
    method OpenEdit(p: AdminProduct)
      modifies this
      ensures editing == Some(p) && form == FormOf(p) && sizesInput == JoinSizes(p.sizes) && dialogOpen
    {
      editing, form, sizesInput, dialogOpen := Some(p), FormOf(p), JoinSizes(p.sizes), true;
    }

    /** The sizes text field's `onChange`. */
    method EditSizes(text: string)
      modifies this
      ensures sizesInput == text
      ensures editing == old(editing) && form == old(form) && dialogOpen == old(dialogOpen)
    {
      sizesInput := text;
    }

    /** A colour checkbox's `onChange`. */
    method SetColor(c: string, checked: bool)
      modifies this
      ensures form == old(form).(colors := CheckColor(old(form).colors, c, checked))
      ensures editing == old(editing) && sizesInput == old(sizesInput) && dialogOpen == old(dialogOpen)
    {
      form := form.(colors := CheckColor(form.colors, c, checked));
    }

    /** A click on an image of the `color` picker: `onChange(toggle(img))` stores the new list under that colour. */
    method ToggleImage(color: string, img: string)
      modifies this
      ensures ColorImages.Lookup(form.images, color) == Toggle(ColorImages.Lookup(old(form).images, color), img)
      ensures forall c :: c != color ==> ColorImages.Lookup(form.images, c) == ColorImages.Lookup(old(form).images, c)
      ensures form.(images := old(form).images) == old(form)
      ensures editing == old(editing) && sizesInput == old(sizesInput) && dialogOpen == old(dialogOpen)
    {
      var selected := ColorImages.Lookup(form.images, color);
      form := form.(images := ColorImages.Store(form.images, color, Toggle(selected, img)));
    }

    /**
     * `handleSave`: nothing is sent without a signed-in user and a token;
     * otherwise the payload goes to update or create, and only an accepted
     * request closes the dialog.
     */
    method Save(signedIn: bool, token: Option<string>, accepted: bool) returns (sent: Option<SaveRequest>)
      modifies this
      ensures !(signedIn && HasToken(token)) ==> sent.None? && dialogOpen == old(dialogOpen)
      ensures signedIn && HasToken(token) ==>
        sent == Some(RequestFor(editing, form, sizesInput)) && dialogOpen == (old(dialogOpen) && !accepted)
      ensures editing == old(editing) && form == old(form) && sizesInput == old(sizesInput)
    {
      if !(signedIn && HasToken(token)) {
        sent := None;
      } else {
        sent := Some(RequestFor(editing, form, sizesInput));
        dialogOpen := dialogOpen && !accepted;
      }
    }
  }
}
