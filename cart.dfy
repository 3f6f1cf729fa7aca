/**
 * The cart ledger of `CartContext`: an ordered list of line items keyed by
 * (product id, colour, size), the derived totals, the promotion discount
 * field, and the rule that keeps the `labelia-cart` storage slot in step
 * with the list.
 */
module CartContext {
  import opened Wrappers
  import Seqs

  /** The product snapshot a line keeps; the ledger reads its id, name and price. */
  datatype Product = Product(id: string, name: string, price: int)

  datatype Line = Line(product: Product, color: string, size: string, quantity: int)

  /** The identity of a line. */
  datatype Key = Key(productId: string, color: string, size: string)

  function KeyOf(l: Line): Key
  {
    Key(l.product.id, l.color, l.size)
  }

  predicate HasKey(items: seq<Line>, k: Key)
  {
    exists i :: 0 <= i < |items| && KeyOf(items[i]) == k
  }

  /** No two lines share a key. */
  predicate UniqueKeys(items: seq<Line>)
  {
    forall i, j :: 0 <= i < j < |items| ==> KeyOf(items[i]) != KeyOf(items[j])
  }

  predicate PositiveQuantities(items: seq<Line>)
  {
    forall i :: 0 <= i < |items| ==> items[i].quantity >= 1
  }

  /** The ledger's invariant: unique keys and quantities of at least 1. */
  predicate WellFormed(items: seq<Line>)
  {
    UniqueKeys(items) && PositiveQuantities(items)
  }

  /** Position of the first line with key `k` (what `Array.prototype.find` hits). */
  function IndexOf(items: seq<Line>, k: Key): (r: Option<nat>)
    ensures r.Some? ==> r.value < |items| && KeyOf(items[r.value]) == k
    ensures r.Some? ==> forall j :: 0 <= j < r.value ==> KeyOf(items[j]) != k
    ensures r.None? <==> !HasKey(items, k)
  {
    Seqs.FirstIndex(items, (l: Line) => KeyOf(l) == k)
  }

  // ----- transitions (the updater functions passed to setItems) -----

  /** `addItem`: bump every line with the key by one, or append a new line of quantity 1. */
  function AddLine(items: seq<Line>, product: Product, color: string, size: string): seq<Line>
  {
    var k := Key(product.id, color, size);
    if HasKey(items, k) then
      seq(|items|, i requires 0 <= i < |items| =>
        if KeyOf(items[i]) == k then items[i].(quantity := items[i].quantity + 1) else items[i])
    else
      items + [Line(product, color, size, 1)]
  }

  /** `removeItem`: keep the lines whose key differs. */
  function RemoveLines(items: seq<Line>, productId: string, color: string, size: string): seq<Line>
  {
    Seqs.Filter(items, (l: Line) => KeyOf(l) != Key(productId, color, size))
  }

  /** The `quantity > 0` branch of `updateQuantity`: overwrite the quantity of every line with the key. */
  function SetQuantity(items: seq<Line>, productId: string, color: string, size: string, quantity: int): seq<Line>
  {
    seq(|items|, i requires 0 <= i < |items| =>
      if KeyOf(items[i]) == Key(productId, color, size) then items[i].(quantity := quantity) else items[i])
  }

  /** `updateQuantity`: a quantity of zero or less removes the line. */
  function UpdateLines(items: seq<Line>, productId: string, color: string, size: string, quantity: int): seq<Line>
  {
    if quantity <= 0 then RemoveLines(items, productId, color, size)
    else SetQuantity(items, productId, color, size, quantity)
  }

  // ----- derived totals -----

  function Sum(items: seq<Line>, f: Line -> int): int
    decreases |items|
  {
    if items == [] then 0 else f(items[0]) + Sum(items[1..], f)
  }

  function Quantity(l: Line): int { l.quantity }

  function Amount(l: Line): int { l.product.price * l.quantity }

  /** `totalItems`: the sum of the quantities. */
  function TotalItems(items: seq<Line>): int
  {
    Sum(items, Quantity)
  }

  /** `totalPrice`: the sum of price times quantity; the discount plays no part. */
  function TotalPrice(items: seq<Line>): int
  {
    Sum(items, Amount)
  }

  // ----- persistence -----

  /** The localStorage key the ledger owns. */
  const StorageKey := "labelia-cart"

  /** The text in the slot: the JSON of a line list, or something `JSON.parse` rejects. */
  datatype Stored = Encoded(lines: seq<Line>) | Unparsable

  /** Initial load: an absent slot or unparsable text yields the empty cart. */
  function Load(slot: Option<Stored>): (r: seq<Line>)
    ensures slot.None? ==> r == []
    ensures slot.Some? && slot.value.Unparsable? ==> r == []
    ensures slot.Some? && slot.value.Encoded? ==> r == slot.value.lines
  {
    match slot
    case None => []
    case Some(Unparsable) => []
    case Some(Encoded(lines)) => lines
  }

  /** What the persistence effect leaves in the slot: the list when it is non-empty, no slot at all otherwise. */
  function Persisted(items: seq<Line>): (r: Option<Stored>)
    ensures r.None? <==> items == []
    ensures Load(r) == items
  {
    if |items| > 0 then Some(Encoded(items)) else None
  }

  /**
   * The ledger. Every change replaces `items` and then rewrites or deletes
   * the storage slot; `discount` is a separate field that only
   * `SetDiscount` touches.
   */
  class CartLedger {
    var items: seq<Line>
    var discount: int
    var slot: Option<Stored>

    /** The slot reflects the list, as the persistence effect leaves it. */
    ghost predicate Synced()
      reads this
    {
      slot == Persisted(items)
    }

    /** Mounting the provider: load from the slot, then run the persistence effect once. */
    constructor (saved: Option<Stored>)
      ensures items == Load(saved) && discount == 0 && Synced()
    {
      items := Load(saved);
      discount := 0;
      slot := Persisted(Load(saved));
    }

    method AddItem(product: Product, color: string, size: string)
      modifies this
      ensures items == AddLine(old(items), product, color, size)
      ensures discount == old(discount) && Synced()
      ensures old(WellFormed(items)) ==> WellFormed(items)
    {
      if WellFormed(items) { AddLinePreservesWellFormed(items, product, color, size); }
      items := AddLine(items, product, color, size);
      slot := Persisted(items);
    }

    method RemoveItem(productId: string, color: string, size: string)
      modifies this
      ensures items == RemoveLines(old(items), productId, color, size)
      ensures discount == old(discount) && Synced()
      ensures old(WellFormed(items)) ==> WellFormed(items)
    {
      if WellFormed(items) { RemoveLinesPreservesWellFormed(items, productId, color, size); }
      items := RemoveLines(items, productId, color, size);
      slot := Persisted(items);
    }

    method UpdateQuantity(productId: string, color: string, size: string, quantity: int)
      modifies this
      ensures items == UpdateLines(old(items), productId, color, size, quantity)
      ensures discount == old(discount) && Synced()
      ensures old(WellFormed(items)) ==> WellFormed(items)
    {
      if quantity <= 0 {
        RemoveItem(productId, color, size);
        return;
      }
      if WellFormed(items) { UpdateLinesPreservesWellFormed(items, productId, color, size, quantity); }
      items := SetQuantity(items, productId, color, size, quantity);
      slot := Persisted(items);
    }

    method ClearCart()
      modifies this
      ensures items == [] && slot.None?
      ensures discount == old(discount)
    {
      items := [];
      slot := Persisted(items);
    }

    /** `setDiscount`: the list and the slot stay as they are. */
    method SetDiscount(d: int)
      modifies this
      ensures discount == d
      ensures items == old(items) && slot == old(slot)
    {
      discount := d;
    }
  }

  // ----- properties of the transitions -----

  /** With unique keys, `addItem` on a present key increments exactly that line; on a new key it appends one line of quantity 1. */
  lemma AddLineEffect(items: seq<Line>, product: Product, color: string, size: string)
    requires UniqueKeys(items)
    ensures var r := AddLine(items, product, color, size);
      match IndexOf(items, Key(product.id, color, size))
      case Some(k) => r == items[k := items[k].(quantity := items[k].quantity + 1)]
      case None => r == items + [Line(product, color, size, 1)]
  {
    var key := Key(product.id, color, size);
    match IndexOf(items, key)
    case Some(k) =>
      var r := AddLine(items, product, color, size);
      assert HasKey(items, key);
      forall i | 0 <= i < |items| && i != k ensures KeyOf(items[i]) != key {
        if i < k { assert KeyOf(items[i]) != KeyOf(items[k]); }
        else { assert KeyOf(items[k]) != KeyOf(items[i]); }
      }
      assert r == items[k := items[k].(quantity := items[k].quantity + 1)];
    case None =>
  }

  lemma AddLinePreservesWellFormed(items: seq<Line>, product: Product, color: string, size: string)
    requires WellFormed(items)
    ensures WellFormed(AddLine(items, product, color, size))
  {
    AddLineEffect(items, product, color, size);
  }

  lemma RemoveLinesPreservesWellFormed(items: seq<Line>, productId: string, color: string, size: string)
    requires WellFormed(items)
    ensures WellFormed(RemoveLines(items, productId, color, size))
  {
    var keep := (l: Line) => KeyOf(l) != Key(productId, color, size);
    var r := Seqs.Filter(items, keep);
    Seqs.FilterIsSubsequence(items, keep);
    SubsequenceKeepsWellFormed(r, items);
  }

  lemma {:induction false} SubsequenceKeepsWellFormed(a: seq<Line>, b: seq<Line>)
    requires Seqs.IsSubsequence(a, b)
    requires WellFormed(b)
    ensures WellFormed(a)
    decreases |b|
  {
    if a != [] && b != [] {
      assert WellFormed(b[1..]) by {
        forall i, j | 0 <= i < j < |b| - 1 ensures KeyOf(b[1..][i]) != KeyOf(b[1..][j]) {
          assert KeyOf(b[i + 1]) != KeyOf(b[j + 1]);
        }
      }
      if a[0] == b[0] {
        SubsequenceKeepsWellFormed(a[1..], b[1..]);
        SubsequenceElements(a[1..], b[1..]);
        forall j | 0 < j < |a| ensures KeyOf(a[0]) != KeyOf(a[j]) {
          var m :| 0 <= m < |b| - 1 && a[1..][j - 1] == b[1..][m];
          assert KeyOf(b[0]) != KeyOf(b[m + 1]);
        }
      } else {
        SubsequenceKeepsWellFormed(a, b[1..]);
      }
    }
  }

  /** Every element of a subsequence is an element of the whole. */
  lemma {:induction false} SubsequenceElements<T>(a: seq<T>, b: seq<T>)
    requires Seqs.IsSubsequence(a, b)
    ensures forall i :: 0 <= i < |a| ==> exists m :: 0 <= m < |b| && a[i] == b[m]
    decreases |b|
  {
    if a != [] && b != [] {
      if a[0] == b[0] {
        SubsequenceElements(a[1..], b[1..]);
        forall i | 0 < i < |a| ensures exists m :: 0 <= m < |b| && a[i] == b[m] {
          var m :| 0 <= m < |b| - 1 && a[1..][i - 1] == b[1..][m];
          assert a[i] == b[m + 1];
        }
        assert a[0] == b[0];
      } else {
        SubsequenceElements(a, b[1..]);
        forall i | 0 <= i < |a| ensures exists m :: 0 <= m < |b| && a[i] == b[m] {
          var m :| 0 <= m < |b| - 1 && a[i] == b[1..][m];
          assert a[i] == b[m + 1];
        }
      }
    }
  }

  lemma UpdateLinesPreservesWellFormed(items: seq<Line>, productId: string, color: string, size: string, quantity: int)
    requires WellFormed(items)
    ensures WellFormed(UpdateLines(items, productId, color, size, quantity))
  {
    if quantity <= 0 {
      RemoveLinesPreservesWellFormed(items, productId, color, size);
    } else {
      var r := SetQuantity(items, productId, color, size, quantity);
      assert forall i :: 0 <= i < |items| ==> KeyOf(r[i]) == KeyOf(items[i]);
    }
  }

  /** `removeItem` deletes exactly the lines with the key and keeps the others, in order, with their multiplicity. */
  lemma RemoveLinesEffect(items: seq<Line>, productId: string, color: string, size: string)
    ensures var r := RemoveLines(items, productId, color, size);
      && !HasKey(r, Key(productId, color, size))
      && Seqs.IsSubsequence(r, items)
      && (forall l :: KeyOf(l) != Key(productId, color, size) ==> multiset(r)[l] == multiset(items)[l])
      && (!HasKey(items, Key(productId, color, size)) ==> r == items)
  {
    var key := Key(productId, color, size);
    var keep := (l: Line) => KeyOf(l) != key;
    var r := Seqs.Filter(items, keep);
    Seqs.FilterIsSubsequence(items, keep);
    forall l | KeyOf(l) != key ensures multiset(r)[l] == multiset(items)[l] {
      Seqs.FilterMultiplicity(items, keep, l);
    }
    if !HasKey(items, key) {
      Seqs.FilterKeepsAll(items, keep);
    }
  }

  /** With unique keys, removing a present key deletes just its line. */
  lemma RemoveLinesAt(items: seq<Line>, productId: string, color: string, size: string, k: nat)
    requires UniqueKeys(items)
    requires k < |items| && KeyOf(items[k]) == Key(productId, color, size)
    ensures RemoveLines(items, productId, color, size) == items[..k] + items[k+1..]
  {
    var key := Key(productId, color, size);
    var keep := (l: Line) => KeyOf(l) != key;
    forall i | 0 <= i < |items| && i != k ensures keep(items[i]) {
      if i < k { assert KeyOf(items[i]) != KeyOf(items[k]); }
      else { assert KeyOf(items[k]) != KeyOf(items[i]); }
    }
    Seqs.FilterDropsOne(items, keep, k);
  }

  /** `updateQuantity` with a quantity of zero or less is `removeItem`. */
  lemma UpdateNonPositiveIsRemove(items: seq<Line>, productId: string, color: string, size: string, quantity: int)
    requires quantity <= 0
    ensures UpdateLines(items, productId, color, size, quantity) == RemoveLines(items, productId, color, size)
  {
  }

  /** With a positive quantity and unique keys, `updateQuantity` sets exactly the matching line's quantity; an absent key is a no-op. */
  lemma UpdateLinesEffect(items: seq<Line>, productId: string, color: string, size: string, quantity: int)
    requires quantity > 0
    requires UniqueKeys(items)
    ensures var r := UpdateLines(items, productId, color, size, quantity);
      match IndexOf(items, Key(productId, color, size))
      case Some(k) => r == items[k := items[k].(quantity := quantity)]
      case None => r == items
  {
    var key := Key(productId, color, size);
    var r := UpdateLines(items, productId, color, size, quantity);
    match IndexOf(items, key)
    case Some(k) =>
      forall i | 0 <= i < |items| && i != k ensures KeyOf(items[i]) != key {
        if i < k { assert KeyOf(items[i]) != KeyOf(items[k]); }
        else { assert KeyOf(items[k]) != KeyOf(items[i]); }
      }
      assert r == items[k := items[k].(quantity := quantity)];
    case None =>
      assert r == items;
  }

  // ----- properties of the totals -----

  lemma {:induction false} SumAppend(a: seq<Line>, b: seq<Line>, f: Line -> int)
    ensures Sum(a + b, f) == Sum(a, f) + Sum(b, f)
    decreases |a|
  {
    if a == [] {
      assert a + b == b;
    } else {
      assert (a + b)[1..] == a[1..] + b;
      SumAppend(a[1..], b, f);
    }
  }

  lemma {:induction false} SumReplace(items: seq<Line>, k: nat, l: Line, f: Line -> int)
    requires k < |items|
    ensures Sum(items[k := l], f) == Sum(items, f) - f(items[k]) + f(l)
    decreases |items|
  {
    if k > 0 {
      assert items[k := l][1..] == items[1..][k - 1 := l];
      SumReplace(items[1..], k - 1, l, f);
    } else {
      assert items[k := l][1..] == items[1..];
    }
  }

  lemma SumRemove(items: seq<Line>, k: nat, f: Line -> int)
    requires k < |items|
    ensures Sum(items[..k] + items[k+1..], f) == Sum(items, f) - f(items[k])
  {
    assert items == items[..k] + ([items[k]] + items[k+1..]);
    SumAppend(items[..k], [items[k]] + items[k+1..], f);
    SumAppend(items[..k], items[k+1..], f);
    assert Sum([items[k]] + items[k+1..], f) == f(items[k]) + Sum(items[k+1..], f) by {
      assert ([items[k]] + items[k+1..])[1..] == items[k+1..];
    }
  }

  /** With unique keys, `addItem` raises the item count by one and the price by the price of the merged line's product (or of the new product). */
  lemma AddLineTotals(items: seq<Line>, product: Product, color: string, size: string)
    requires UniqueKeys(items)
    ensures var r := AddLine(items, product, color, size);
      && TotalItems(r) == TotalItems(items) + 1
      && TotalPrice(r) == TotalPrice(items) +
           match IndexOf(items, Key(product.id, color, size))
           case Some(k) => items[k].product.price
           case None => product.price
  {
    AddLineEffect(items, product, color, size);
    match IndexOf(items, Key(product.id, color, size))
    case Some(k) => BumpTotals(items, k);
    case None => AppendTotals(items, Line(product, color, size, 1));
  }

  /** Raising one line's quantity by one adds one item and that line's unit price. */
  lemma BumpTotals(items: seq<Line>, k: nat)
    requires k < |items|
    ensures var r := items[k := items[k].(quantity := items[k].quantity + 1)];
      && TotalItems(r) == TotalItems(items) + 1
      && TotalPrice(r) == TotalPrice(items) + items[k].product.price
  {
    var l := items[k].(quantity := items[k].quantity + 1);
    SumReplace(items, k, l, Quantity);
    SumReplace(items, k, l, Amount);
    assert Amount(l) == Amount(items[k]) + items[k].product.price by {
      assert l.product.price * (items[k].quantity + 1) == l.product.price * items[k].quantity + l.product.price;
    }
  }

  /** Appending a line of quantity one adds one item and its unit price. */
  lemma AppendTotals(items: seq<Line>, l: Line)
    requires l.quantity == 1
    ensures TotalItems(items + [l]) == TotalItems(items) + 1
    ensures TotalPrice(items + [l]) == TotalPrice(items) + l.product.price
  {
    SumAppend(items, [l], Quantity);
    SumAppend(items, [l], Amount);
    assert Sum([l], Quantity) == 1 by { assert [l][1..] == []; }
    assert Sum([l], Amount) == l.product.price by { assert [l][1..] == []; }
  }

  /** With unique keys, removing a present key takes away that line's quantity and amount. */
  lemma RemoveLinesTotals(items: seq<Line>, productId: string, color: string, size: string, k: nat)
    requires UniqueKeys(items)
    requires k < |items| && KeyOf(items[k]) == Key(productId, color, size)
    ensures var r := RemoveLines(items, productId, color, size);
      && TotalItems(r) == TotalItems(items) - items[k].quantity
      && TotalPrice(r) == TotalPrice(items) - items[k].product.price * items[k].quantity
  {
    RemoveLinesAt(items, productId, color, size, k);
    SumRemove(items, k, Quantity);
    SumRemove(items, k, Amount);
  }

  /** A well-formed cart holds at least as many items as lines; its item count is zero exactly when it is empty. */
  lemma {:induction false} TotalItemsBound(items: seq<Line>)
    requires PositiveQuantities(items)
    ensures TotalItems(items) >= |items|
    ensures TotalItems(items) == 0 <==> items == []
    decreases |items|
  {
    if items != [] {
      TotalItemsBound(items[1..]);
    }
  }

  /** Totals of the cleared cart. */
  lemma EmptyTotals()
    ensures TotalItems([]) == 0 && TotalPrice([]) == 0
  {
  }

  /** `n` calls of `addItem` with the same arguments. */
  function AddRepeatedly(items: seq<Line>, product: Product, color: string, size: string, n: nat): seq<Line>
    decreases n
  {
    if n == 0 then items else AddLine(AddRepeatedly(items, product, color, size, n - 1), product, color, size)
  }

  /** From an empty cart, `n` additions of one key leave exactly one line, of quantity `n`. */
  lemma {:induction false} AddRepeatedlyFromEmpty(product: Product, color: string, size: string, n: nat)
    requires n >= 1
    ensures AddRepeatedly([], product, color, size, n) == [Line(product, color, size, n)]
    decreases n
  {
    if n > 1 {
      AddRepeatedlyFromEmpty(product, color, size, n - 1);
      var prev := [Line(product, color, size, n - 1)];
      assert IndexOf(prev, Key(product.id, color, size)) == Some(0);
      AddLineEffect(prev, product, color, size);
    }
  }

  /** Quantities stay at least 1 whether or not keys are unique: the only values written are 1, an old quantity plus 1, or a positive argument. */
  lemma TransitionsKeepPositive(items: seq<Line>, product: Product, productId: string, color: string, size: string, quantity: int)
    requires PositiveQuantities(items)
    ensures PositiveQuantities(AddLine(items, product, color, size))
    ensures PositiveQuantities(RemoveLines(items, productId, color, size))
    ensures PositiveQuantities(UpdateLines(items, productId, color, size, quantity))
  {
    var r := RemoveLines(items, productId, color, size);
    forall i | 0 <= i < |r| ensures r[i].quantity >= 1 {
      assert r[i] in items;
    }
  }
}
