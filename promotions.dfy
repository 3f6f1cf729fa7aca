/**
 * The promotion controller: the rule that decides whether a code is
 * currently valid, and the validation, defaults and partial update applied
 * when promotions are created and edited. Dates are timestamps; `None` is
 * SQL `NULL`.
 */
module PromotionController {
  import opened Wrappers
  import Seqs
  import opened Js

  datatype Promotion = Promotion(
    id: string, code: Value, description: Value, discount: Number,
    isPercentage: bool, active: bool, startDate: Option<int>, endDate: Option<int>)

  /** The five fields `validatePromotionCode` returns. */
  datatype PromotionView = PromotionView(id: string, code: Value, discount: Number, isPercentage: bool, description: Value)

  /** `valid: true` with the promotion, `valid: false` with the message, or the 500 of the `catch`. */
  datatype ValidateReply = Valid(promotion: PromotionView) | Invalid(message: string) | Rejected(error: string)

  const InvalidMessage := "Code promotion invalide ou expiré"
  const InternalError := "Internal server error"

  /**
   * What Prisma's query validation accepts, which depends on the database schema (not part
   * of this model): a value for the `code` column, one for the `description` column, and a
   * `code` given as a `where` filter. Anything else makes the query throw.
   */
  datatype Schema = Schema(codeOk: Value -> bool, descriptionOk: Value -> bool, filterOk: Value -> bool)

  /** A `code` filter Prisma refuses; an `undefined` one is dropped and never refused. */
  predicate FilterRejected(code: Value, schema: Schema)
  {
    !code.Undefined? && !schema.filterOk(code)
  }

  /** Prisma ignores a filter whose value is `undefined`; any other value must equal the stored code. */
  predicate CodeFilter(code: Value, stored: Value)
  {
    code.Undefined? || code == stored
  }

  /** `startDate <= now` under SQL semantics: a `NULL` date fails. */
  predicate StartedBy(p: Promotion, now: int)
  {
    p.startDate.Some? && p.startDate.value <= now
  }

  /** `endDate >= now` under SQL semantics: a `NULL` date fails. */
  predicate EndsNoEarlierThan(p: Promotion, now: int)
  {
    p.endDate.Some? && p.endDate.value >= now
  }

  /** The `where` clause of `validatePromotionCode`: the window test is an OR of the two bounds. */
  predicate Matches(p: Promotion, code: Value, now: int)
  {
    CodeFilter(code, p.code) && p.active && (StartedBy(p, now) || EndsNoEarlierThan(p, now))
  }

  /** `findFirst`: the first matching promotion in store order. */
  function FirstMatch(store: seq<Promotion>, code: Value, now: int): (r: Option<nat>)
    ensures r.Some? ==> r.value < |store| && Matches(store[r.value], code, now)
    ensures r.Some? ==> forall j :: 0 <= j < r.value ==> !Matches(store[j], code, now)
    ensures r.None? ==> forall j :: 0 <= j < |store| ==> !Matches(store[j], code, now)
  {
    Seqs.FirstIndex(store, (p: Promotion) => Matches(p, code, now))
  }

  function View(p: Promotion): PromotionView
  {
    PromotionView(p.id, p.code, p.discount, p.isPercentage, p.description)
  }

  /** `validatePromotionCode`: a refused filter throws inside the `try` and gives a 500. */
  function ValidateCode(store: seq<Promotion>, code: Value, now: int, schema: Schema): (r: ValidateReply)
    ensures r.Rejected? <==> FilterRejected(code, schema)
    ensures r.Rejected? ==> r.error == InternalError
    ensures r.Invalid? <==> !FilterRejected(code, schema) && forall j :: 0 <= j < |store| ==> !Matches(store[j], code, now)
    ensures r.Invalid? ==> r.message == InvalidMessage
    ensures r.Valid? ==> exists k :: 0 <= k < |store| && Matches(store[k], code, now)
                               && (forall j :: 0 <= j < k ==> !Matches(store[j], code, now))
                               && r.promotion == View(store[k])
  {
    if FilterRejected(code, schema) then Rejected(InternalError)
    else match FirstMatch(store, code, now)
    case None => Invalid(InvalidMessage)
    case Some(k) => Valid(View(store[k]))
  }

  /** Because the window is an OR, an active promotion that has already ended still validates once it has started. */
  lemma ExpiredPromotionStillValid(p: Promotion, now: int, schema: Schema)
    requires p.active && p.code.Str? && schema.filterOk(p.code)
    requires p.startDate.Some? && p.startDate.value <= now
    requires p.endDate.Some? && p.endDate.value < now
    ensures ValidateCode([p], p.code, now, schema) == Valid(View(p))
  {
  }

  /** A promotion with neither date never validates, active or not: the reply is `valid: false` unless the filter is refused. */
  lemma UndatedPromotionNeverValid(store: seq<Promotion>, code: Value, now: int, schema: Schema)
    requires forall j :: 0 <= j < |store| ==> store[j].startDate.None? && store[j].endDate.None?
    ensures ValidateCode(store, code, now, schema).Invalid? <==> !FilterRejected(code, schema)
    ensures !ValidateCode(store, code, now, schema).Valid?
  {
  }

  /** An inactive promotion is never returned. */
  lemma InactiveNeverReturned(store: seq<Promotion>, code: Value, now: int, schema: Schema)
    ensures var r := ValidateCode(store, code, now, schema);
      r.Valid? ==> exists k :: 0 <= k < |store| && store[k].active && r.promotion == View(store[k])
  {
  }

  // ----- create and update -----

  datatype PromotionBody = PromotionBody(
    code: Value, description: Value, discount: Value, isPercentage: Value,
    startDate: Value, endDate: Value, active: Value)

  /** `res.status(201).json(...)` for a create, `res.json(...)` for an update, 400 for a refused body, 500 for a thrown error. */
  datatype WriteReply = Created(promotion: Promotion) | Updated(promotion: Promotion) | BadRequest(error: string) | Failed(error: string)
  {
    function Status(): int
    {
      match this
      case Created(_) => 201
      case Updated(_) => 200
      case BadRequest(_) => 400
      case Failed(_) => 500
    }
  }

  const CodeRequired := "Code promotion requis"
  const DiscountRequired := "Montant de réduction requis"

  /** The discount check of `createPromotion`. */
  predicate DiscountMissing(discount: Value, host: Host)
  {
    discount.Undefined? || discount.Null? || discount == Str("") || host.parseFloat(discount).NaN?
  }

  /** `v ? new Date(v) : null`; the date is `NaN` when `new Date(v)` is an Invalid Date. */
  function DateOrNull(v: Value, host: Host): (r: Option<Number>)
    ensures r.None? <==> !Truthy(v)
    ensures r.Some? ==> r.value == host.newDate(v)
  {
    if Truthy(v) then Some(host.newDate(v)) else None
  }

  /** Prisma refuses to write an Invalid Date. */
  predicate InvalidDate(d: Option<Number>)
  {
    d.Some? && d.value.NaN?
  }

  /** The column value of a date Prisma accepts. */
  function StoredDate(d: Option<Number>): (r: Option<int>)
    ensures r.None? <==> d.None? || d.value.NaN?
    ensures r.Some? ==> d == Some(Finite(r.value))
  {
    if d.Some? && d.value.Finite? then Some(d.value.n) else None
  }

  /** The `data` of `create` holds a value Prisma refuses, so the call throws. */
  predicate CreateRejected(body: PromotionBody, host: Host, schema: Schema)
  {
    || !schema.codeOk(body.code)
    || !schema.descriptionOk(OrElse(body.description, Str("")))
    || InvalidDate(DateOrNull(body.startDate, host))
    || InvalidDate(DateOrNull(body.endDate, host))
  }

  /**
   * `createPromotion`: the code is checked before the discount; a body Prisma refuses
   * throws and gives a 500; a created promotion is always active.
   */
  function CreatePromotion(store: seq<Promotion>, body: PromotionBody, newId: string, host: Host, schema: Schema): (r: (WriteReply, seq<Promotion>))
    ensures !Truthy(body.code) ==> r.0 == BadRequest(CodeRequired) && r.1 == store
    ensures Truthy(body.code) && DiscountMissing(body.discount, host) ==> r.0 == BadRequest(DiscountRequired) && r.1 == store
    ensures Truthy(body.code) && !DiscountMissing(body.discount, host) && CreateRejected(body, host, schema) ==>
      r.0 == Failed(InternalError) && r.1 == store
    ensures r.0.Created? <==> Truthy(body.code) && !DiscountMissing(body.discount, host) && !CreateRejected(body, host, schema)
    ensures r.0.Created? ==>
      var p := r.0.promotion;
      && r.0.Status() == 201 && r.1 == store + [p] && p.id == newId
      && p.active && p.code == body.code
      && p.description == OrElse(body.description, Str(""))
      && p.discount.Finite? && p.discount == host.parseFloat(body.discount)
      && p.isPercentage == Truthy(body.isPercentage)
      && (p.startDate.None? <==> !Truthy(body.startDate)) && (p.endDate.None? <==> !Truthy(body.endDate))
      && (p.startDate.Some? ==> host.newDate(body.startDate) == Finite(p.startDate.value))
      && (p.endDate.Some? ==> host.newDate(body.endDate) == Finite(p.endDate.value))
  {
    if !Truthy(body.code) then (BadRequest(CodeRequired), store)
    else if DiscountMissing(body.discount, host) then (BadRequest(DiscountRequired), store)
    else if CreateRejected(body, host, schema) then (Failed(InternalError), store)
    else
      var p := Promotion(newId, body.code, OrElse(body.description, Str("")), host.parseFloat(body.discount),
                         Truthy(body.isPercentage), true,
                         StoredDate(DateOrNull(body.startDate, host)), StoredDate(DateOrNull(body.endDate, host)));
      (Created(p), store + [p])
  }

  /** A created promotion that has started validates under its own code, when no earlier record carries that code. */
  lemma CreatedPromotionValidates(store: seq<Promotion>, body: PromotionBody, newId: string, host: Host, schema: Schema, now: int)
    requires CreatePromotion(store, body, newId, host, schema).0.Created?
    requires forall j :: 0 <= j < |store| ==> store[j].code != body.code
    requires schema.filterOk(body.code)
    requires Truthy(body.startDate) && host.newDate(body.startDate).Finite? && host.newDate(body.startDate).n <= now
    ensures var r := CreatePromotion(store, body, newId, host, schema);
      ValidateCode(r.1, body.code, now, schema) == Valid(View(r.0.promotion))
  {
    var r := CreatePromotion(store, body, newId, host, schema);
    FirstMatchAfter(store, r.0.promotion, body.code, now);
  }

  lemma FirstMatchAfter(store: seq<Promotion>, p: Promotion, code: Value, now: int)
    requires forall j :: 0 <= j < |store| ==> !Matches(store[j], code, now)
    requires Matches(p, code, now)
    ensures FirstMatch(store + [p], code, now) == Some(|store|)
  {
    assert (store + [p])[|store|] == p;
  }

  /** `...(v !== undefined && { f: x })`: the new value `x` when `v` is given, the stored one otherwise. */
  function Spread<T>(v: Value, x: T, stored: T): (r: T)
    ensures !v.Undefined? ==> r == x
    ensures v.Undefined? ==> r == stored
  {
    if v.Undefined? then stored else x
  }

  /** The conditional spreads of `updatePromotion`: only fields present in the body change (an Invalid Date never gets here: the update fails first). */
  function Patch(p: Promotion, body: PromotionBody, host: Host): (r: Promotion)
    ensures r.id == p.id
    ensures r.code == if body.code.Undefined? then p.code else body.code
    ensures r.description == if body.description.Undefined? then p.description else body.description
    ensures r.discount == if body.discount.Undefined? then p.discount else host.parseFloat(body.discount)
    ensures r.isPercentage == if body.isPercentage.Undefined? then p.isPercentage else Truthy(body.isPercentage)
    ensures r.active == if body.active.Undefined? then p.active else Truthy(body.active)
    ensures r.startDate == if body.startDate.Undefined? then p.startDate else StoredDate(DateOrNull(body.startDate, host))
    ensures r.endDate == if body.endDate.Undefined? then p.endDate else StoredDate(DateOrNull(body.endDate, host))
  {
    p.(code := Spread(body.code, body.code, p.code),
       description := Spread(body.description, body.description, p.description),
       discount := Spread(body.discount, host.parseFloat(body.discount), p.discount),
       isPercentage := Spread(body.isPercentage, Truthy(body.isPercentage), p.isPercentage),
       active := Spread(body.active, Truthy(body.active), p.active),
       startDate := Spread(body.startDate, StoredDate(DateOrNull(body.startDate, host)), p.startDate),
       endDate := Spread(body.endDate, StoredDate(DateOrNull(body.endDate, host)), p.endDate))
  }

  /** An empty body leaves the promotion as it was. */
  lemma EmptyPatchIsIdentity(p: Promotion, host: Host)
    ensures Patch(p, PromotionBody(Undefined, Undefined, Undefined, Undefined, Undefined, Undefined, Undefined), host) == p
  {
  }

  /** A present but empty date clears it to `NULL`. */
  lemma EmptyDateClears(p: Promotion, body: PromotionBody, host: Host)
    requires body.startDate == Str("") && body.endDate == Null
    ensures Patch(p, body, host).startDate.None? && Patch(p, body, host).endDate.None?
  {
  }

  function FindPromotion(store: seq<Promotion>, id: string): (r: Option<nat>)
    ensures r.Some? ==> r.value < |store| && store[r.value].id == id
    ensures r.None? ==> forall j :: 0 <= j < |store| ==> store[j].id != id
  {
    Seqs.FirstIndex(store, (p: Promotion) => p.id == id)
  }

  /** The `data` of `update` holds a given value Prisma refuses, so the call throws. */
  predicate UpdateRejected(body: PromotionBody, host: Host, schema: Schema)
  {
    || (!body.code.Undefined? && !schema.codeOk(body.code))
    || (!body.description.Undefined? && !schema.descriptionOk(body.description))
    || (!body.startDate.Undefined? && InvalidDate(DateOrNull(body.startDate, host)))
    || (!body.endDate.Undefined? && InvalidDate(DateOrNull(body.endDate, host)))
  }

  /** `updatePromotion`: Prisma throws on an unknown id or a refused value, which the handler turns into a 500. */
  function UpdatePromotion(store: seq<Promotion>, id: string, body: PromotionBody, host: Host, schema: Schema): (r: (WriteReply, seq<Promotion>))
    ensures r.0.Failed? <==> UpdateRejected(body, host, schema) || forall j :: 0 <= j < |store| ==> store[j].id != id
    ensures r.0.Failed? ==> r.0.error == InternalError && r.1 == store
    ensures r.0.Updated? ==>
      exists k :: 0 <= k < |store| && store[k].id == id
                  && r.1 == store[k := Patch(store[k], body, host)] && r.0.promotion == r.1[k]
    ensures r.0.Updated? || r.0.Failed?
  {
    if UpdateRejected(body, host, schema) then (Failed(InternalError), store)
    else match FindPromotion(store, id)
    case None => (Failed(InternalError), store)
    case Some(k) =>
      var updated := Patch(store[k], body, host);
      (Updated(updated), store[k := updated])
  }
}
