/**
 * The admin order list: the CSV export, the amount shown for each item
 * line, and the single expanded order.
 */
module AdminOrders {
  import opened Wrappers
  import Text
  import CartContext
  import Checkout

  /** An order as the admin list receives it. */
  datatype AdminOrder = AdminOrder(
    id: string, customerName: string, customerEmail: string, customerAddress: string, customerPhone: string,
    items: seq<Checkout.OrderItem>, total: int, status: string, createdAt: string)

  // ----- number to text -----

  predicate IsDigit(c: char)
  {
    '0' <= c <= '9'
  }

  function DigitValue(c: char): (d: nat)
    requires IsDigit(c)
    ensures d < 10
  {
    c as int - '0' as int
  }

  function DigitChar(d: nat): (c: char)
    requires d < 10
    ensures IsDigit(c) && DigitValue(c) == d
  {
    ('0' as int + d) as char
  }

  predicate AllDigits(s: string)
  {
    forall i :: 0 <= i < |s| ==> IsDigit(s[i])
  }

  /** The number a string of decimal digits denotes, most significant digit first. */
  function NumeralValue(s: string): nat
    requires AllDigits(s)
    decreases |s|
  {
    if s == [] then 0 else 10 * NumeralValue(s[..|s| - 1]) + DigitValue(s[|s| - 1])
  }

  predicate IsNumeral(s: string)
  {
    forall i :: 0 <= i < |s| ==> s[i] == '-' || IsDigit(s[i])
  }

  /** The decimal digits of `n`, with no leading zero. */
  function Digits(n: nat): (r: string)
    ensures r != [] && AllDigits(r)
    ensures r[0] == '0' ==> n == 0
    decreases n
  {
    if n < 10 then [DigitChar(n)] else Digits(n / 10) + [DigitChar(n % 10)]
  }

  /** The digits denote the number. */
  lemma {:induction false} DigitsValue(n: nat)
    ensures NumeralValue(Digits(n)) == n
    decreases n
  {
    var d := Digits(n);
    if n < 10 {
      assert d[..|d| - 1] == [];
    } else {
      DigitsValue(n / 10);
      assert d[..|d| - 1] == Digits(n / 10);
    }
  }

  /** An integer total as `join` writes it: a minus sign for a negative total, then its digits. */
  function DecimalString(n: int): (r: string)
    ensures r != [] && IsNumeral(r)
  {
    if n < 0 then "-" + Digits(-n) else Digits(n)
  }

  /** The text denotes the total: its sign, and digits without a leading zero whose value is the magnitude. */
  lemma DecimalStringValue(n: int)
    ensures var r := DecimalString(n);
      && (r[0] == '-' <==> n < 0)
      && (n >= 0 ==> AllDigits(r) && NumeralValue(r) == n && (r[0] == '0' ==> n == 0))
      && (n < 0 ==> |r| > 1 && AllDigits(r[1..]) && NumeralValue(r[1..]) == -n && r[1] != '0')
  {
    if n < 0 {
      DigitsValue(-n);
      assert DecimalString(n)[1..] == Digits(-n);
    } else {
      DigitsValue(n);
    }
  }

  /** A numeral holds neither the field separator nor the line separator. */
  lemma NumeralIsPlain(s: string)
    requires IsNumeral(s)
    ensures ',' !in s && '\n' !in s
  {
  }

  // ----- CSV export -----

  /** The header row: eight columns. */
  const Headers := ["ID", "Client", "Email", "Téléphone", "Adresse", "Total", "Statut", "Date"]

  /** One order's row; `localeDate` stands for `new Date(createdAt).toLocaleDateString("fr-FR")`. */
  function Row(o: AdminOrder, localeDate: string -> string): (r: seq<string>)
    ensures |r| == |Headers|
  {
    [o.id, o.customerName, o.customerEmail, o.customerPhone, o.customerAddress,
     DecimalString(o.total), o.status, localeDate(o.createdAt)]
  }

  /** `r.join(",")`, with no quoting or escaping. */
  function Line(fields: seq<string>): string
  {
    Text.Join(fields, ",")
  }

  /** The lines of the export: the header, then one line per order in list order. */
  function Lines(orders: seq<AdminOrder>, localeDate: string -> string): (r: seq<string>)
    ensures |r| == |orders| + 1 && r[0] == Line(Headers)
    ensures forall i :: 0 <= i < |orders| ==> r[i + 1] == Line(Row(orders[i], localeDate))
  {
    var rows := seq(|orders|, i requires 0 <= i < |orders| => Line(Row(orders[i], localeDate)));
    assert forall i :: 0 <= i < |orders| ==> rows[i] == Line(Row(orders[i], localeDate));
    [Line(Headers)] + rows
  }

  /** `exportCSV`'s text. */
  function ExportCsv(orders: seq<AdminOrder>, localeDate: string -> string): string
  {
    Text.Join(Lines(orders, localeDate), "\n")
  }

  predicate Avoids(fields: seq<string>, c: char)
  {
    forall k :: 0 <= k < |fields| ==> c !in fields[k]
  }

  /** No text field of any order, nor its date, contains a line break. */
  predicate SingleLineFields(orders: seq<AdminOrder>, localeDate: string -> string)
  {
    forall i :: 0 <= i < |orders| ==> Avoids(Row(orders[i], localeDate), '\n')
  }

  /** Without line breaks inside fields, the export splits back into the header line and one line per order. */
  lemma ExportLines(orders: seq<AdminOrder>, localeDate: string -> string)
    requires SingleLineFields(orders, localeDate)
    ensures Text.Split(ExportCsv(orders, localeDate), '\n') == Lines(orders, localeDate)
    ensures |Text.Split(ExportCsv(orders, localeDate), '\n')| == |orders| + 1
  {
    LinesAreSingle(orders, localeDate);
    assert "\n" == ['\n'];
    Text.SplitJoinPlain(Lines(orders, localeDate), '\n');
  }

  /** No line of the export holds a line break of its own. */
  lemma LinesAreSingle(orders: seq<AdminOrder>, localeDate: string -> string)
    requires SingleLineFields(orders, localeDate)
    ensures forall k :: 0 <= k < |Lines(orders, localeDate)| ==> '\n' !in Lines(orders, localeDate)[k]
  {
    var lines := Lines(orders, localeDate);
    HeaderLineIsSingle();
    forall k | 1 <= k < |lines| ensures '\n' !in lines[k] {
      RowLineIsSingle(orders[k - 1], localeDate);
    }
  }

  lemma HeaderLineIsSingle()
    ensures '\n' !in Line(Headers)
  {
    assert Avoids(Headers, '\n');
    Text.JoinAvoids(Headers, ",", '\n');
  }

  lemma RowLineIsSingle(o: AdminOrder, localeDate: string -> string)
    requires Avoids(Row(o, localeDate), '\n')
    ensures '\n' !in Line(Row(o, localeDate))
  {
    Text.JoinAvoids(Row(o, localeDate), ",", '\n');
  }

  /** The header line splits into its eight column names. */
  lemma HeaderArity()
    ensures Text.Split(Line(Headers), ',') == Headers
    ensures |Text.Split(Line(Headers), ',')| == 8
  {
    assert Avoids(Headers, ',');
    assert "," == [','];
    Text.SplitJoinPlain(Headers, ',');
  }

  /** A row whose text fields hold no comma splits back into its eight fields, matching the header. */
  lemma RowArity(o: AdminOrder, localeDate: string -> string)
    requires ',' !in o.id && ',' !in o.customerName && ',' !in o.customerEmail && ',' !in o.customerPhone
    requires ',' !in o.customerAddress && ',' !in o.status && ',' !in localeDate(o.createdAt)
    ensures Text.Split(Line(Row(o, localeDate)), ',') == Row(o, localeDate)
    ensures |Text.Split(Line(Row(o, localeDate)), ',')| == |Text.Split(Line(Headers), ',')|
  {
    NumeralIsPlain(DecimalString(o.total));
    assert "," == [','];
    Text.SplitJoinPlain(Row(o, localeDate), ',');
    HeaderArity();
  }

  /** Because nothing is quoted, an address with one comma spreads over two columns: the row then has nine fields. */
  lemma CommaInAddressShiftsColumns(o: AdminOrder, localeDate: string -> string, a: string, b: string)
    requires ',' !in o.id && ',' !in o.customerName && ',' !in o.customerEmail && ',' !in o.customerPhone
    requires ',' !in o.status && ',' !in localeDate(o.createdAt)
    requires ',' !in a && ',' !in b && o.customerAddress == a + "," + b
    ensures |Text.Split(Line(Row(o, localeDate)), ',')| == 9
  {
    var row := Row(o, localeDate);
    NumeralIsPlain(DecimalString(o.total));
    assert "," == [','];
    Text.SplitJoinCount(row, ',');
    OneCommaJoined(a, b);
    Text.OccurrencesOnlyAt(row, 4, ',');
  }

  lemma OneCommaJoined(a: string, b: string)
    requires ',' !in a && ',' !in b
    ensures multiset(a + "," + b)[','] == 1
  {
    assert multiset(a + "," + b) == multiset(a) + multiset([',']) + multiset(b);
  }

  /** The address a customer typing the checkout's sample address would store. */
  lemma SampleAddressShiftsColumns(o: AdminOrder, localeDate: string -> string)
    requires ',' !in o.id && ',' !in o.customerName && ',' !in o.customerEmail && ',' !in o.customerPhone
    requires ',' !in o.status && ',' !in localeDate(o.createdAt)
    requires o.customerAddress == "12 rue des Lilas, 75001 Paris"
    ensures |Text.Split(Line(Row(o, localeDate)), ',')| == 9
  {
    assert o.customerAddress == "12 rue des Lilas" + "," + " 75001 Paris";
    CommaInAddressShiftsColumns(o, localeDate, "12 rue des Lilas", " 75001 Paris");
  }

  // ----- item lines -----

  /** `item.price * item.quantity`, shown for every item line. */
  function LineAmount(item: Checkout.OrderItem): int
  {
    item.price * item.quantity
  }

  function SumAmounts(items: seq<Checkout.OrderItem>): int
    decreases |items|
  {
    if items == [] then 0 else LineAmount(items[0]) + SumAmounts(items[1..])
  }

  /** The line amounts of an order placed from a cart add up to the cart total the checkout sent. */
  lemma {:induction false} LineAmountsAddUpToCartTotal(lines: seq<CartContext.Line>)
    ensures SumAmounts(Checkout.OrderItems(lines)) == CartContext.TotalPrice(lines)
    decreases |lines|
  {
    if lines != [] {
      LineAmountsAddUpToCartTotal(lines[1..]);
      assert Checkout.OrderItems(lines)[1..] == Checkout.OrderItems(lines[1..]);
    }
  }

  // ----- expanded order -----

  /** The click handler's update: the expanded order collapses, any other becomes the only expanded one. */
  function Clicked(expanded: Option<string>, id: string): (r: Option<string>)
    ensures r.Some? <==> expanded != Some(id)
    ensures r.Some? ==> r.value == id
  {
    if expanded == Some(id) then None else Some(id)
  }

  /** Two clicks on the same order, starting collapsed, leave everything collapsed again. */
  lemma ClickTwiceCollapses(id: string)
    ensures Clicked(Clicked(None, id), id) == None
  {
  }

  /** The page's `expandedId` state. */
  class OrderList {
    var expandedId: Option<string>

    constructor()
      ensures expandedId == None
    {
      expandedId := None;
    }

    method Click(id: string)
      modifies this
      ensures expandedId == Clicked(old(expandedId), id)
    {
      expandedId := if expandedId == Some(id) then None else Some(id);
    }
  }
}
