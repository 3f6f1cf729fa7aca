/**
 * The product controller: the defaults `createProduct` fills in, the
 * field-by-field `updateData` builder of `updateProduct`, and the not-found
 * reply of `getProductById`. `parseFloat`, `parseInt` and the clock are
 * parameters.
 */
module ProductController {
  import opened Wrappers
  import Seqs
  import opened Js

  /** The fields `createProduct` and `updateProduct` read from `req.body`. */
  datatype ProductBody = ProductBody(
    name: Value, description: Value, price: Value, category: Value, colors: Value,
    sizes: Value, stock: Value, images: Value, packagingImage: Value, videoUrl: Value)

  datatype Product = Product(
    id: string, name: Value, description: Value, price: Number, category: Value, colors: Value,
    sizes: Value, stock: int, images: Value, packagingImage: Value, videoUrl: Value,
    createdAt: int, updatedAt: int)

  /** The colours a product gets when none are given. */
  const DefaultColors := Arr([Str("argent"), Str("doré")])
  const NoText := Str("")
  const NoList := Arr([])

  datatype CreateReply = Created(product: Product)
  {
    function Status(): int { 201 }
  }

  /** `createProduct`: the record it stores, appended to the store. */
  function CreateProduct(store: seq<Product>, body: ProductBody, newId: string, now: int, host: Host): (r: (CreateReply, seq<Product>))
    ensures r.1 == store + [r.0.product]
    ensures var p := r.0.product;
      && p.id == newId && p.createdAt == now && p.updatedAt == now
      && p.name == body.name && p.category == body.category
      && p.price == host.parseFloat(body.price)
      && p.description == (if Truthy(body.description) then body.description else NoText)
      && p.colors == (if Truthy(body.colors) then body.colors else DefaultColors)
      && p.sizes == (if Truthy(body.sizes) then body.sizes else NoList)
      && p.images == (if Truthy(body.images) then body.images else NoList)
      && p.packagingImage == (if Truthy(body.packagingImage) then body.packagingImage else NoText)
      && p.videoUrl == (if Truthy(body.videoUrl) then body.videoUrl else NoText)
    ensures var p := r.0.product;
      && (host.parseInt(body.stock).NaN? ==> p.stock == 0)
      && (host.parseInt(body.stock).Finite? ==> p.stock == host.parseInt(body.stock).n)
  {
    var p := Product(
      newId, body.name, OrElse(body.description, NoText), host.parseFloat(body.price), body.category,
      OrElse(body.colors, DefaultColors), OrElse(body.sizes, NoList), IntOrZero(host.parseInt(body.stock)),
      OrElse(body.images, NoList), OrElse(body.packagingImage, NoText), OrElse(body.videoUrl, NoText),
      now, now);
    (Created(p), store + [p])
  }

  /** A created product never has falsy colours, sizes or images. */
  lemma CreatedListsAreTruthy(store: seq<Product>, body: ProductBody, newId: string, now: int, host: Host)
    ensures var p := CreateProduct(store, body, newId, now, host).0.product;
      Truthy(p.colors) && Truthy(p.sizes) && Truthy(p.images)
  {
  }

  /** The `updateData` object: a field is `None` when the body did not give it. */
  datatype UpdateData = UpdateData(
    name: Option<Value>, description: Option<Value>, price: Option<Number>, category: Option<Value>,
    colors: Option<Value>, sizes: Option<Value>, stock: Option<int>, images: Option<Value>,
    packagingImage: Option<Value>, videoUrl: Option<Value>, updatedAt: Option<int>)

  /** `v !== undefined` */
  predicate Given(v: Value) { !v.Undefined? }

  /** A field of `updateData`: set to `x` when the body gives it, left out otherwise. */
  function Present<T>(given: bool, x: T): (r: Option<T>)
    ensures r.Some? <==> given
    ensures r.Some? ==> r.value == x
  {
    if given then Some(x) else None
  }

  /** What `updateProduct` puts into `updateData` for `body`. */
  function UpdateDataFor(body: ProductBody, now: int, host: Host): UpdateData
  {
    UpdateData(
      Present(Given(body.name), body.name),
      Present(Given(body.description), OrElse(body.description, NoText)),
      Present(Given(body.price), host.parseFloat(body.price)),
      Present(Given(body.category), body.category),
      Present(Given(body.colors), OrElse(body.colors, DefaultColors)),
      Present(Given(body.sizes), OrElse(body.sizes, NoList)),
      Present(Given(body.stock), IntOrZero(host.parseInt(body.stock))),
      Present(Given(body.images), OrElse(body.images, NoList)),
      Present(Given(body.packagingImage), body.packagingImage),
      Present(Given(body.videoUrl), body.videoUrl),
      Some(now))
  }

  /**
   * A field is in `updateData` exactly when the body gives it, and then holds
   * the body's value with the same defaults as create, except for the two
   * media fields, which are copied as given; `updatedAt` is always set.
   */
  lemma UpdateDataFields(body: ProductBody, now: int, host: Host)
    ensures var d := UpdateDataFor(body, now, host);
      && (d.updatedAt == Some(now))
      && ((d.name.Some? <==> Given(body.name)) && (d.description.Some? <==> Given(body.description))
           && (d.price.Some? <==> Given(body.price)) && (d.category.Some? <==> Given(body.category))
           && (d.colors.Some? <==> Given(body.colors)) && (d.sizes.Some? <==> Given(body.sizes))
           && (d.stock.Some? <==> Given(body.stock)) && (d.images.Some? <==> Given(body.images))
           && (d.packagingImage.Some? <==> Given(body.packagingImage)) && (d.videoUrl.Some? <==> Given(body.videoUrl)))
      && (d.name.Some? ==> d.name.value == body.name)
      && (d.description.Some? ==> d.description.value == OrElse(body.description, NoText))
      && (d.price.Some? ==> d.price.value == host.parseFloat(body.price))
      && (d.category.Some? ==> d.category.value == body.category)
      && (d.colors.Some? ==> d.colors.value == OrElse(body.colors, DefaultColors))
      && (d.sizes.Some? ==> d.sizes.value == OrElse(body.sizes, NoList))
      && (d.stock.Some? ==> d.stock.value == IntOrZero(host.parseInt(body.stock)))
      && (d.images.Some? ==> d.images.value == OrElse(body.images, NoList))
      && (d.packagingImage.Some? ==> d.packagingImage.value == body.packagingImage)
      && (d.videoUrl.Some? ==> d.videoUrl.value == body.videoUrl)
  {
  }

  /** One `if (v !== undefined) updateData.f = x` of the builder. */
  method SetIfGiven<T>(v: Value, x: T) returns (field: Option<T>)
    ensures field == Present(Given(v), x)
  {
    field := None;
    if Given(v) {
      field := Some(x);
    }
  }

  /**
   * The builder as `updateProduct` runs it: one conditional assignment per
   * field, then the timestamp.
   */
  method BuildUpdateData(body: ProductBody, now: int, host: Host) returns (d: UpdateData)
    ensures d == UpdateDataFor(body, now, host)
  {
    var name := SetIfGiven(body.name, body.name);
    var description := SetIfGiven(body.description, OrElse(body.description, NoText));
    var price := SetIfGiven(body.price, host.parseFloat(body.price));
    var category := SetIfGiven(body.category, body.category);
    var colors := SetIfGiven(body.colors, OrElse(body.colors, DefaultColors));
    var sizes := SetIfGiven(body.sizes, OrElse(body.sizes, NoList));
    var stock := SetIfGiven(body.stock, IntOrZero(host.parseInt(body.stock)));
    var images := SetIfGiven(body.images, OrElse(body.images, NoList));
    var packagingImage := SetIfGiven(body.packagingImage, body.packagingImage);
    var videoUrl := SetIfGiven(body.videoUrl, body.videoUrl);
    d := UpdateData(name, description, price, category, colors, sizes, stock, images, packagingImage, videoUrl, Some(now));
  }

  function Pick<T>(o: Option<T>, keep: T): T
  {
    if o.Some? then o.value else keep
  }

  /** Prisma's `update`: a field present in `data` replaces the stored one. */
  function Apply(p: Product, d: UpdateData): Product
  {
    p.(name := Pick(d.name, p.name), description := Pick(d.description, p.description),
       price := Pick(d.price, p.price), category := Pick(d.category, p.category),
       colors := Pick(d.colors, p.colors), sizes := Pick(d.sizes, p.sizes),
       stock := Pick(d.stock, p.stock), images := Pick(d.images, p.images),
       packagingImage := Pick(d.packagingImage, p.packagingImage), videoUrl := Pick(d.videoUrl, p.videoUrl),
       updatedAt := Pick(d.updatedAt, p.updatedAt))
  }

  const EmptyBody := ProductBody(Undefined, Undefined, Undefined, Undefined, Undefined, Undefined, Undefined, Undefined, Undefined, Undefined)

  /** A body with no fields still moves `updatedAt` to `now`, and changes nothing else. */
  lemma EmptyBodyOnlyTouchesUpdatedAt(p: Product, now: int, host: Host)
    ensures Apply(p, UpdateDataFor(EmptyBody, now, host)) == p.(updatedAt := now)
  {
  }

  /** Fields absent from the body keep their stored values; present ones take the normalised value. */
  lemma UpdateChangesOnlyGivenFields(p: Product, body: ProductBody, now: int, host: Host)
    ensures var q := Apply(p, UpdateDataFor(body, now, host));
      && q.id == p.id && q.createdAt == p.createdAt && q.updatedAt == now
      && q.name == (if Given(body.name) then body.name else p.name)
      && q.description == (if Given(body.description) then OrElse(body.description, NoText) else p.description)
      && q.price == (if Given(body.price) then host.parseFloat(body.price) else p.price)
      && q.category == (if Given(body.category) then body.category else p.category)
      && q.colors == (if Given(body.colors) then OrElse(body.colors, DefaultColors) else p.colors)
      && q.sizes == (if Given(body.sizes) then OrElse(body.sizes, NoList) else p.sizes)
      && q.stock == (if Given(body.stock) then IntOrZero(host.parseInt(body.stock)) else p.stock)
      && q.images == (if Given(body.images) then OrElse(body.images, NoList) else p.images)
      && q.packagingImage == (if Given(body.packagingImage) then body.packagingImage else p.packagingImage)
      && q.videoUrl == (if Given(body.videoUrl) then body.videoUrl else p.videoUrl)
  {
  }

  predicate FullBody(body: ProductBody)
  {
    Given(body.name) && Given(body.description) && Given(body.price) && Given(body.category)
    && Given(body.colors) && Given(body.sizes) && Given(body.stock) && Given(body.images)
    && Given(body.packagingImage) && Given(body.videoUrl)
  }

  /**
   * Updating with a body that gives every field stores what creating with
   * that body would, apart from identity and creation time, as long as the
   * two media fields are truthy (update copies them without a default).
   */
  lemma FullUpdateAgreesWithCreate(store: seq<Product>, p: Product, body: ProductBody, now: int, host: Host)
    requires FullBody(body) && Truthy(body.packagingImage) && Truthy(body.videoUrl)
    ensures Apply(p, UpdateDataFor(body, now, host))
         == CreateProduct(store, body, p.id, now, host).0.product.(createdAt := p.createdAt)
  {
  }

  /** A `null` packaging image is stored as `''` by create but as `null` by update. */
  lemma NullMediaKeptByUpdate(store: seq<Product>, p: Product, now: int, host: Host)
    ensures var body := EmptyBody.(packagingImage := Null, videoUrl := Null);
      && CreateProduct(store, body, p.id, now, host).0.product.packagingImage == NoText
      && Apply(p, UpdateDataFor(body, now, host)).packagingImage == Null
      && Apply(p, UpdateDataFor(body, now, host)).videoUrl == Null
  {
  }

  /** Position of the product with key `id`. */
  function FindProduct(store: seq<Product>, id: string): (r: Option<nat>)
    ensures r.Some? ==> r.value < |store| && store[r.value].id == id
    ensures r.Some? ==> forall j :: 0 <= j < r.value ==> store[j].id != id
    ensures r.None? ==> forall j :: 0 <= j < |store| ==> store[j].id != id
  {
    Seqs.FirstIndex(store, (p: Product) => p.id == id)
  }

  datatype GetReply = Found(product: Product) | NotFound(error: string)
  {
    function Status(): int { if Found? then 200 else 404 }
  }

  const ProductNotFound := "Product not found"
  const InternalError := "Internal server error"

  /** `getProductById` */
  function GetProductById(store: seq<Product>, id: string): (r: GetReply)
    ensures r.NotFound? <==> forall j :: 0 <= j < |store| ==> store[j].id != id
    ensures r.NotFound? ==> r.Status() == 404 && r.error == ProductNotFound
    ensures r.Found? ==> r.Status() == 200 && r.product.id == id && r.product in store
  {
    match FindProduct(store, id)
    case None => NotFound(ProductNotFound)
    case Some(k) => Found(store[k])
  }

  datatype UpdateReply = Updated(product: Product) | Failed(error: string)
  {
    function Status(): int { if Updated? then 200 else 500 }
  }

  /**
   * `updateProduct`: Prisma's `update` throws on a missing id, or on an `updateData` it
   * refuses (such as a `null` name or a `NaN` price for a `NOT NULL` column), and the
   * handler turns the error into a 500. `accepted` says which `updateData` Prisma takes;
   * it depends on the database schema, which is not part of this model.
   */
  method UpdateProduct(store: seq<Product>, id: string, body: ProductBody, now: int, host: Host, accepted: UpdateData -> bool)
    returns (reply: UpdateReply, store': seq<Product>)
    ensures reply.Failed? <==>
      !accepted(UpdateDataFor(body, now, host)) || forall j :: 0 <= j < |store| ==> store[j].id != id
    ensures reply.Failed? ==> reply.Status() == 500 && reply.error == InternalError && store' == store
    ensures reply.Updated? ==>
      exists k :: 0 <= k < |store| && store[k].id == id
        && store' == store[k := Apply(store[k], UpdateDataFor(body, now, host))]
        && reply.product == store'[k]
  {
    var updateData := BuildUpdateData(body, now, host);
    if !accepted(updateData) {
      reply, store' := Failed(InternalError), store;
      return;
    }
    match FindProduct(store, id)
    case None =>
      reply, store' := Failed(InternalError), store;
    case Some(k) =>
      var q := Apply(store[k], updateData);
      store' := store[k := q];
      reply := Updated(q);
  }
}
