/**
 * The quotation cart of the quotation screen as values: catalogue products,
 * line items, the four updates the screen applies to its `quotation` state
 * (add, increase, decrease, remove), the running total, the catalogue search
 * filter and the invoice number.
 */
module Cart {
  import opened Wrappers
  import opened Text
  import opened Seqs

  /** A catalogue record; prices are whole currency units. */
  datatype Product = Product(id: int, name: string, brand: string, specs: string, price: int, available: bool)

  /** `{ ...product, quantity }`: the product's fields as they were when it was added, and a quantity. */
  datatype LineItem = LineItem(product: Product, quantity: int) {
    function Id(): int { product.id }
    function Cost(): int { product.price * quantity }
  }

  type Quotation = seq<LineItem>

  /** The seven mock products the screen loads on mount. */
  const MockProducts: seq<Product> := [
    Product(1, "Laptop", "Dell", "8GB RAM, 256GB SSD", 1000, true),
    Product(2, "Keyboard", "Logitech", "Mechanical", 100, true),
    Product(3, "Mouse", "HP", "Wireless", 50, false),
    Product(4, "Monitor", "Samsung", "27 inch, 1080p", 300, true),
    Product(5, "RAM", "Corsair", "4GB, DDR4", 40, true),
    Product(6, "RAM", "Kingston", "4GB, DDR3", 35, true),
    Product(7, "RAM", "Crucial", "8GB, DDR4", 70, true)
  ]

  // ---------------------------------------------------------------------
  // Invariants of a quotation

  /** No two line items share a product id. */
  predicate IdsDistinct(q: Quotation) {
    forall i, j :: 0 <= i < j < |q| ==> q[i].Id() != q[j].Id()
  }

  /** Every line item has quantity at least 1. */
  predicate QuantitiesPositive(q: Quotation) {
    forall i :: 0 <= i < |q| ==> q[i].quantity >= 1
  }

  predicate Valid(q: Quotation) {
    IdsDistinct(q) && QuantitiesPositive(q)
  }

  predicate Absent(q: Quotation, id: int) {
    forall i :: 0 <= i < |q| ==> q[i].Id() != id
  }

  // ---------------------------------------------------------------------
  // addToQuotation

  /** `q.findIndex(p => p.id === id)`: the first index holding `id`, or -1. */
  function FindIndex(q: Quotation, id: int): (r: int)
    ensures -1 <= r < |q|
    ensures r == -1 <==> Absent(q, id)
    ensures 0 <= r ==> q[r].Id() == id && Absent(q[..r], id)
  {
    if |q| == 0 then -1
    else if q[0].Id() == id then 0
    else
      var k := FindIndex(q[1..], id);
      assert forall i :: 1 <= i < |q| ==> q[i] == q[1..][i - 1];
      if k == -1 then -1
      else
        assert q[..k + 1] == [q[0]] + q[1..][..k];
        k + 1
  }

  /** `q[i].quantity += 1`: the item at `i` gets one more unit, and every other item stays. */
  function IncrementAt(q: Quotation, i: nat): (r: Quotation)
    requires i < |q|
    ensures |r| == |q|
    ensures r[i].product == q[i].product && r[i].quantity == q[i].quantity + 1
    ensures forall k :: 0 <= k < |q| && k != i ==> r[k] == q[k]
  {
    q[i := q[i].(quantity := q[i].quantity + 1)]
  }

  /**
   * The quotation after `addToQuotation(p)`: an unavailable product changes
   * nothing; a product not yet present is appended with quantity 1; a product
   * already present gets one more unit on its first item.
   */
  function Add(q: Quotation, p: Product): (r: Quotation)
    ensures !p.available ==> r == q
    ensures p.available && Absent(q, p.id) ==> r == q + [LineItem(p, 1)]
    ensures p.available && !Absent(q, p.id) ==> |r| == |q|
  {
    if !p.available then q
    else
      var index := FindIndex(q, p.id);
      if index == -1 then q + [LineItem(p, 1)] else IncrementAt(q, index)
  }

  /** With distinct ids, adding a product present at `i` raises that item's quantity by one and nothing else. */
  lemma AddExisting(q: Quotation, p: Product, i: nat)
    requires IdsDistinct(q) && p.available && i < |q| && q[i].Id() == p.id
    ensures Add(q, p) == q[i := q[i].(quantity := q[i].quantity + 1)]
  {
    var k := FindIndex(q, p.id);
    assert k == i;
  }

  lemma AddPreservesValid(q: Quotation, p: Product)
    requires Valid(q)
    ensures Valid(Add(q, p))
  {
    var r := Add(q, p);
    if p.available && !Absent(q, p.id) {
      var i := FindIndex(q, p.id);
      AddExisting(q, p, i);
      assert forall k :: 0 <= k < |q| ==> r[k].Id() == q[k].Id();
    } else if p.available {
      assert forall k :: 0 <= k < |q| ==> r[k] == q[k];
    }
  }

  // ---------------------------------------------------------------------
  // increaseQuantity, decreaseQuantity, removeFromQuotation

  function Bump(id: int): LineItem -> LineItem {
    (item: LineItem) => if item.Id() == id then item.(quantity := item.quantity + 1) else item
  }

  function Drop(id: int): LineItem -> LineItem {
    (item: LineItem) => if item.Id() == id then item.(quantity := item.quantity - 1) else item
  }

  function InStock(): LineItem -> bool {
    (item: LineItem) => item.quantity > 0
  }

  function Other(id: int): LineItem -> bool {
    (item: LineItem) => item.Id() != id
  }

  /** `q.map(p => p.id === id ? {...p, quantity: p.quantity + 1} : p)`. */
  function Increase(q: Quotation, id: int): (r: Quotation)
    ensures |r| == |q|
    ensures forall i :: 0 <= i < |q| ==> r[i].product == q[i].product
    ensures forall i :: 0 <= i < |q| ==> r[i].quantity == q[i].quantity + (if q[i].Id() == id then 1 else 0)
  {
    Map(q, Bump(id))
  }

  /** `q.map(p => p.id === id ? {...p, quantity: p.quantity - 1} : p).filter(p => p.quantity > 0)`. */
  function Decrease(q: Quotation, id: int): (r: Quotation)
    ensures |r| <= |q|
    ensures QuantitiesPositive(r)
  {
    Filter(Map(q, Drop(id)), InStock())
  }

  /** `q.filter(p => p.id !== id)`. */
  function Remove(q: Quotation, id: int): (r: Quotation)
    ensures |r| <= |q|
    ensures Absent(r, id)
    ensures forall i :: 0 <= i < |q| && q[i].Id() != id ==> q[i] in r
    ensures forall i :: 0 <= i < |r| ==> r[i] in q
  {
    FilterMembers(q, Other(id));
    Filter(q, Other(id))
  }

  /** Increasing an id that is not in the quotation changes nothing. */
  lemma IncreaseAbsent(q: Quotation, id: int)
    requires Absent(q, id)
    ensures Increase(q, id) == q
  {
  }

  /** With distinct ids, increasing the id at `i` adds one unit to that item only. */
  lemma IncreaseAt(q: Quotation, id: int, i: nat)
    requires IdsDistinct(q) && i < |q| && q[i].Id() == id
    ensures Increase(q, id) == IncrementAt(q, i)
  {
    var r := Increase(q, id);
    forall k | 0 <= k < |q| ensures r[k] == IncrementAt(q, i)[k] {
      if k != i {
        assert q[k].Id() != id;
      }
    }
  }

  lemma IncreasePreservesValid(q: Quotation, id: int)
    requires Valid(q)
    ensures Valid(Increase(q, id))
  {
  }

  /** Every item other than `id` passes through the decrease map unchanged. */
  lemma DropElsewhere(q: Quotation, id: int)
    requires Absent(q, id)
    ensures Map(q, Drop(id)) == q
  {
  }

  /** Decreasing an id that is not in the quotation changes nothing. */
  lemma DecreaseAbsent(q: Quotation, id: int)
    requires QuantitiesPositive(q) && Absent(q, id)
    ensures Decrease(q, id) == q
  {
    DropElsewhere(q, id);
    FilterKeepsAll(q, InStock());
  }

  /**
   * With a valid quotation, decreasing the id at `i` takes one unit off that
   * item, and drops the item when that was its last unit; the other items
   * keep their quantities and their order.
   */
  lemma DecreaseAt(q: Quotation, id: int, i: nat)
    requires Valid(q) && i < |q| && q[i].Id() == id
    ensures q[i].quantity > 1 ==> Decrease(q, id) == q[i := q[i].(quantity := q[i].quantity - 1)]
    ensures q[i].quantity == 1 ==> Decrease(q, id) == q[..i] + q[i + 1..]
  {
    var dropped := q[i].(quantity := q[i].quantity - 1);
    DropAt(q, id, i);
    var m := q[i := dropped];
    if q[i].quantity > 1 {
      FilterKeepsAll(m, InStock());
    } else {
      FilterRejectsOne(m, i, InStock());
      assert m[..i] == q[..i] && m[i + 1..] == q[i + 1..];
    }
  }

  /** With distinct ids, the decrease map takes one unit off the item at `i` only. */
  lemma DropAt(q: Quotation, id: int, i: nat)
    requires IdsDistinct(q) && i < |q| && q[i].Id() == id
    ensures Map(q, Drop(id)) == q[i := q[i].(quantity := q[i].quantity - 1)]
  {
    var r := Map(q, Drop(id));
    forall k | 0 <= k < |q| ensures r[k] == q[i := q[i].(quantity := q[i].quantity - 1)][k] {
      if k != i {
        assert q[k].Id() != id;
      }
    }
  }

  lemma DecreasePreservesValid(q: Quotation, id: int)
    requires Valid(q)
    ensures Valid(Decrease(q, id))
  {
    var i := FindIndex(q, id);
    if i == -1 {
      DecreaseAbsent(q, id);
    } else {
      DecreaseAt(q, id, i);
      if q[i].quantity == 1 {
        DeletePreservesValid(q, i);
      }
    }
  }

  /** Deleting one item keeps the remaining ids distinct and quantities positive. */
  lemma DeletePreservesValid(q: Quotation, i: nat)
    requires Valid(q) && i < |q|
    ensures Valid(q[..i] + q[i + 1..])
  {
    var r := q[..i] + q[i + 1..];
    assert forall k :: 0 <= k < |r| ==> r[k] == q[if k < i then k else k + 1];
  }

  /** Removing an id that is not in the quotation changes nothing. */
  lemma RemoveAbsent(q: Quotation, id: int)
    requires Absent(q, id)
    ensures Remove(q, id) == q
  {
    FilterKeepsAll(q, Other(id));
  }

  /** With distinct ids, removing the id at `i` deletes exactly that item and keeps the order of the rest. */
  lemma RemoveAt(q: Quotation, id: int, i: nat)
    requires IdsDistinct(q) && i < |q| && q[i].Id() == id
    ensures Remove(q, id) == q[..i] + q[i + 1..]
  {
    assert forall k :: 0 <= k < |q| && k != i ==> q[k].Id() != id;
    FilterRejectsOne(q, i, Other(id));
  }

  /** Removing twice is removing once. */
  lemma RemoveIdempotent(q: Quotation, id: int)
    ensures Remove(Remove(q, id), id) == Remove(q, id)
  {
    FilterIdempotent(q, Other(id));
  }

  lemma RemovePreservesValid(q: Quotation, id: int)
    requires Valid(q)
    ensures Valid(Remove(q, id))
  {
    var i := FindIndex(q, id);
    if i == -1 {
      RemoveAbsent(q, id);
    } else {
      RemoveAt(q, id, i);
      DeletePreservesValid(q, i);
    }
  }

  // ---------------------------------------------------------------------
  // calculateTotal

  /** `q.reduce((total, p) => total + p.price * p.quantity, 0)`, folded from the left. */
  function Total(q: Quotation): (r: int)
    ensures |q| == 0 ==> r == 0
    ensures |q| == 1 ==> r == q[0].Cost()
  {
    if |q| == 0 then 0
    else
      assert |q| == 1 ==> q[..0] == [];
      Total(q[..|q| - 1]) + q[|q| - 1].Cost()
  }

  /** The total of a concatenation is the sum of the totals. */
  lemma {:induction false} TotalConcat(a: Quotation, b: Quotation)
    ensures Total(a + b) == Total(a) + Total(b)
  {
    if |b| == 0 {
      assert a + b == a;
    } else {
      assert (a + b)[..|a + b| - 1] == a + b[..|b| - 1];
      TotalConcat(a, b[..|b| - 1]);
    }
  }

  /** The total is the sum of `price * quantity` over the items, summed from the first: the reference definition. */
  function SumOfCosts(q: Quotation): (r: int)
  {
    if |q| == 0 then 0 else q[0].Cost() + SumOfCosts(q[1..])
  }

  lemma {:induction false} TotalIsSumOfCosts(q: Quotation)
    ensures Total(q) == SumOfCosts(q)
  {
    if |q| > 0 {
      assert q == [q[0]] + q[1..];
      TotalConcat([q[0]], q[1..]);
      assert [q[0]][..0] == [];
      TotalIsSumOfCosts(q[1..]);
    }
  }

  /** With non-negative prices the total is non-negative. */
  lemma {:induction false} TotalNonNegative(q: Quotation)
    requires QuantitiesPositive(q)
    requires forall i :: 0 <= i < |q| ==> q[i].product.price >= 0
    ensures Total(q) >= 0
  {
    if |q| > 0 {
      TotalNonNegative(q[..|q| - 1]);
    }
  }

  /** The total of a quotation split around one item. */
  lemma TotalAround(a: Quotation, x: LineItem, b: Quotation)
    ensures Total(a + [x] + b) == Total(a) + x.Cost() + Total(b)
  {
    TotalConcat(a + [x], b);
    TotalConcat(a, [x]);
  }

  /** Replacing one item changes the total by the difference of the two costs. */
  lemma TotalUpdate(q: Quotation, i: nat, x: LineItem)
    requires i < |q|
    ensures Total(q[i := x]) == Total(q) - q[i].Cost() + x.Cost()
  {
    SplitAt(q, i, x);
    TotalAround(q[..i], q[i], q[i + 1..]);
    TotalAround(q[..i], x, q[i + 1..]);
  }

  /** Deleting one item takes its cost off the total. */
  lemma TotalDelete(q: Quotation, i: nat)
    requires i < |q|
    ensures Total(q[..i] + q[i + 1..]) == Total(q) - q[i].Cost()
  {
    SplitAt(q, i, q[i]);
    TotalWithout(q[..i], q[i], q[i + 1..]);
  }

  /** Leaving out one item of a split quotation takes its cost off the total. */
  lemma TotalWithout(a: Quotation, x: LineItem, b: Quotation)
    ensures Total(a + b) == Total(a + [x] + b) - x.Cost()
  {
    TotalAround(a, x, b);
    TotalConcat(a, b);
  }

  /** One unit more or less changes an item's cost by its price. */
  lemma CostStep(item: LineItem, d: int)
    ensures item.(quantity := item.quantity + d).Cost() == item.Cost() + d * item.product.price
  {
    var p, n := item.product.price, item.quantity;
    assert p * (n + d) == p * n + d * p;
  }

  /** Adding an available product raises the total by one unit of its price, the price recorded in the quotation when it is already there. */
  lemma TotalAdd(q: Quotation, p: Product)
    requires p.available
    ensures var i := FindIndex(q, p.id);
            Total(Add(q, p)) == Total(q) + (if i == -1 then p.price else q[i].product.price)
  {
    var i := FindIndex(q, p.id);
    if i == -1 {
      TotalConcat(q, [LineItem(p, 1)]);
      assert [LineItem(p, 1)][..0] == [];
    } else {
      TotalBump(q, i);
    }
  }

  /** With distinct ids, increasing the id at `i` raises the total by that item's price. */
  lemma TotalIncrease(q: Quotation, id: int, i: nat)
    requires IdsDistinct(q) && i < |q| && q[i].Id() == id
    ensures Total(Increase(q, id)) == Total(q) + q[i].product.price
  {
    IncreaseAt(q, id, i);
    TotalBump(q, i);
  }

  /** One more unit of the item at `i` adds its price to the total. */
  lemma TotalBump(q: Quotation, i: nat)
    requires i < |q|
    ensures Total(IncrementAt(q, i)) == Total(q) + q[i].product.price
  {
    TotalStep(q, i, 1);
  }

  /** `d` units more or less of the item at `i` change the total by `d` times its price. */
  lemma TotalStep(q: Quotation, i: nat, d: int)
    requires i < |q|
    ensures Total(q[i := q[i].(quantity := q[i].quantity + d)]) == Total(q) + d * q[i].product.price
  {
    CostStep(q[i], d);
    TotalUpdate(q, i, q[i].(quantity := q[i].quantity + d));
  }

  /** With a valid quotation, decreasing the id at `i` lowers the total by that item's price, whether or not the item is dropped. */
  lemma TotalDecrease(q: Quotation, id: int, i: nat)
    requires Valid(q) && i < |q| && q[i].Id() == id
    ensures Total(Decrease(q, id)) == Total(q) - q[i].product.price
  {
    DecreaseAt(q, id, i);
    if q[i].quantity > 1 {
      TotalUpdate(q, i, q[i].(quantity := q[i].quantity - 1));
      CostStep(q[i], -1);
    } else {
      TotalDelete(q, i);
    }
  }

  /** With distinct ids, removing the id at `i` takes that item's whole cost off the total. */
  lemma TotalRemove(q: Quotation, id: int, i: nat)
    requires IdsDistinct(q) && i < |q| && q[i].Id() == id
    ensures Total(Remove(q, id)) == Total(q) - q[i].Cost()
  {
    RemoveAt(q, id, i);
    TotalDelete(q, i);
  }

  /**
   * `calculateTotal()`: `toFixed(2)` of a whole number below 10^21 is its
   * decimal digits followed by `.00`.
   */
  function TotalText(q: Quotation): (r: string)
    ensures |r| >= 4 && r[|r| - 3..] == ".00"
    ensures ParseInt(r) == Some(Total(q))
  {
    var digits := IntToString(Total(q));
    ParseIntOfIntToString(Total(q), ".00");
    digits + ".00"
  }

  // ---------------------------------------------------------------------
  // Repeated adds

  /** `n` successive `addToQuotation(p)` calls. */
  function AddTimes(q: Quotation, p: Product, n: nat): (r: Quotation)
  {
    if n == 0 then q else Add(AddTimes(q, p, n - 1), p)
  }

  /** Adding the same available product `n` times to an empty quotation gives one line item with quantity `n`. */
  lemma {:induction false} AddTimesFromEmpty(p: Product, n: nat)
    requires p.available && n >= 1
    ensures AddTimes([], p, n) == [LineItem(p, n)]
  {
    if n > 1 {
      AddTimesFromEmpty(p, n - 1);
      AddExisting([LineItem(p, n - 1)], p, 0);
    }
  }

  // ---------------------------------------------------------------------
  // handleSearch

  /**
   * A catalogue product matches a search term when its lower-cased name or
   * specs contain the lower-cased term, or its id's decimal string is the term.
   */
  function Matches(p: Product, term: string): (r: bool)
    ensures term == "" ==> r
    ensures Lower(term) == Lower(p.name) || Lower(term) == Lower(p.specs) ==> r
    ensures IntToString(p.id) == term ==> r
  {
    assert OccursAt(Lower(p.name), Lower(term), 0) <== Lower(term) == Lower(p.name) || term == "";
    assert OccursAt(Lower(p.specs), Lower(term), 0) <== Lower(term) == Lower(p.specs);
    Contains(Lower(p.name), Lower(term)) ||
    Contains(Lower(p.specs), Lower(term)) ||
    IntToString(p.id) == term
  }

  /** The match ignores the case of the term, the id test included: an id's text has no letters. */
  lemma MatchesIgnoresCase(p: Product, term: string)
    ensures Matches(p, term) == Matches(p, Lower(term))
  {
    LowerIdempotent(term);
    if IntToString(p.id) == term || IntToString(p.id) == Lower(term) {
      LowerOfNumberText(term, p.id);
    }
  }

  function MatchesTerm(term: string): Product -> bool {
    (p: Product) => Matches(p, term)
  }

  /** `productList.filter(...)`: the matching products, in catalogue order. */
  function Search(catalogue: seq<Product>, term: string): (r: seq<Product>)
    ensures |r| <= |catalogue|
    ensures forall i :: 0 <= i < |r| ==> r[i] in catalogue && Matches(r[i], term)
    ensures forall i :: 0 <= i < |catalogue| && Matches(catalogue[i], term) ==> catalogue[i] in r
  {
    FilterMembers(catalogue, MatchesTerm(term));
    Filter(catalogue, MatchesTerm(term))
  }

  /** Searching a concatenation of catalogues concatenates the results: the order of the catalogue is kept. */
  lemma SearchConcat(a: seq<Product>, b: seq<Product>, term: string)
    ensures Search(a + b, term) == Search(a, term) + Search(b, term)
  {
    FilterConcat(a, b, MatchesTerm(term));
  }

  /** The search ignores the case of the term: "ram", "RAM" and "Ram" list the same products. */
  lemma SearchIgnoresCase(catalogue: seq<Product>, term: string)
    ensures Search(catalogue, term) == Search(catalogue, Lower(term))
  {
    forall i | 0 <= i < |catalogue| ensures MatchesTerm(term)(catalogue[i]) == MatchesTerm(Lower(term))(catalogue[i]) {
      MatchesIgnoresCase(catalogue[i], term);
    }
    FilterAgree(catalogue, MatchesTerm(term), MatchesTerm(Lower(term)));
  }

  /** The empty term is contained in every name, so it lists the whole catalogue. */
  lemma SearchEmptyTerm(catalogue: seq<Product>)
    ensures Search(catalogue, "") == catalogue
  {
    FilterKeepsAll(catalogue, MatchesTerm(""));
  }

  /** A term that is a product's id in decimal finds that product. */
  lemma SearchById(catalogue: seq<Product>, k: nat)
    requires k < |catalogue|
    ensures catalogue[k] in Search(catalogue, IntToString(catalogue[k].id))
  {
  }

  // ---------------------------------------------------------------------
  // generateInvoiceNumber

  /**
   * `INV-${randomStr}-${Date.now()}`, where `randomBase36` is the text of
   * `Math.random().toString(36)` and `now` the value of `Date.now()`: the
   * random part is that text's characters 2 to 6, upper-cased.
   */
  function InvoiceNumber(randomBase36: string, now: nat): (r: string)
    ensures |r| >= 6 && r[..4] == "INV-"
  {
    "INV-" + InvoiceToken(randomBase36) + "-" + NatToString(now)
  }

  /** `randomBase36.substring(2, 7).toUpperCase()`: at most five characters, none of them a lower-case letter. */
  function InvoiceToken(randomBase36: string): (t: string)
    ensures |t| <= 5
    ensures forall i :: 0 <= i < |t| ==> !('a' <= t[i] <= 'z')
  {
    Upper(Substring(randomBase36, 2, 7))
  }

  /** Splits an invoice number back into its random token and its timestamp. */
  function ParseInvoiceNumber(s: string): (r: Option<(string, nat)>)
  {
    if |s| < 4 || s[..4] != "INV-" then None
    else
      var rest := s[4..];
      var k := IndexOf(rest, '-');
      if k < 0 then None
      else
        var digits := rest[k + 1..];
        if |digits| == 0 || DigitSpan(digits, 10) != |digits| then None
        else Some((rest[..k], DigitsValue(digits, 10)))
  }

  /**
   * The invoice number determines its parts: as `Math.random().toString(36)`
   * never contains a `-`, the token and the timestamp read back exactly.
   */
  lemma InvoiceNumberRoundTrip(randomBase36: string, now: nat)
    requires '-' !in randomBase36
    ensures ParseInvoiceNumber(InvoiceNumber(randomBase36, now)) == Some((InvoiceToken(randomBase36), now))
  {
    var token := InvoiceToken(randomBase36);
    var digits := NatToString(now);
    var s := InvoiceNumber(randomBase36, now);
    assert s == "INV-" + token + "-" + digits;
    var rest := s[4..];
    assert rest == token + "-" + digits;
    assert '-' !in token by {
      var sub := Substring(randomBase36, 2, 7);
      forall i | 0 <= i < |token| ensures token[i] != '-' {
        assert sub[i] in randomBase36;
      }
    }
    var k := IndexOf(rest, '-');
    assert rest[|token|] == '-';
    assert k == |token|;
    assert rest[..k] == token;
    assert rest[k + 1..] == digits;
    DigitSpanConcat(digits, "", 10);
    assert digits + "" == digits;
    NatToStringValue(now);
  }

  // ---------------------------------------------------------------------
  // A worked case

  /**
   * Product 5 (price 40) added twice and product 2 (price 100) once, then the
   * unavailable product 3: two items in first-added order, total 180.
   */
  lemma ScenarioItems()
    ensures var ram, keyboard, mouse := MockProducts[4], MockProducts[1], MockProducts[2];
            var q := Add(Add(Add(Add([], ram), ram), keyboard), mouse);
            q == [LineItem(ram, 2), LineItem(keyboard, 1)] && SumOfCosts(q) == 180
  {
    var ram, keyboard, mouse := MockProducts[4], MockProducts[1], MockProducts[2];
    var q1 := Add([], ram);
    assert q1 == [LineItem(ram, 1)];
    AddExisting(q1, ram, 0);
    var q2 := Add(q1, ram);
    assert q2 == [LineItem(ram, 2)];
    var q3 := Add(q2, keyboard);
    assert q3 == [LineItem(ram, 2), LineItem(keyboard, 1)];
    assert q3[1..] == [LineItem(keyboard, 1)] && q3[1..][1..] == [];
    assert SumOfCosts(q3[1..]) == 100;
  }
}
