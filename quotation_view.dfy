/**
 * The quotation screen's state and its event handlers: the catalogue, the
 * search term and its results, the quotation, the invoice number and the
 * display date. Each handler replaces state fields the way the screen's
 * setters do; the values it computes are those of the `Cart` module.
 */
module QuotationView {
  import opened Wrappers
  import opened Text
  import opened Cart

  /** The record `generateQRCodeData` serialises into the QR code. */
  datatype QRPayload = QRPayload(invoiceNumber: string, dateTime: string, products: Quotation, totalAmount: string)

  class QuotationDisplay {
    var productList: seq<Product>
    var searchTerm: string
    var quotation: Quotation
    var filteredProducts: seq<Product>
    var invoiceNumber: string
    var dateTime: string

    /** The quotation keeps one line item per product id, each with at least one unit. */
    ghost predicate Valid()
      reads this
    {
      Cart.Valid(quotation)
    }

    /**
     * The state once the screen is mounted: the mock catalogue, an empty
     * quotation, no search, the invoice number built from the random text
     * `randomBase36` and the clock reading `now`, and the display date.
     */
    constructor (randomBase36: string, now: nat, localeDate: string)
      ensures Valid()
      ensures productList == MockProducts && searchTerm == "" && quotation == [] && filteredProducts == []
      ensures invoiceNumber == InvoiceNumber(randomBase36, now) && dateTime == localeDate
    {
      productList := MockProducts;
      searchTerm := "";
      quotation := [];
      filteredProducts := [];
      invoiceNumber := InvoiceNumber(randomBase36, now);
      dateTime := localeDate;
    }

    /** The search box's `onChange`. */
    method SetSearchTerm(term: string)
      modifies this
      ensures searchTerm == term
      ensures productList == old(productList) && quotation == old(quotation) && filteredProducts == old(filteredProducts)
      ensures invoiceNumber == old(invoiceNumber) && dateTime == old(dateTime)
    {
      searchTerm := term;
    }

    /** `handleSearch`: the search results become the catalogue products matching the term. */
    method HandleSearch()
      modifies this
      ensures filteredProducts == Search(productList, searchTerm)
      ensures productList == old(productList) && searchTerm == old(searchTerm) && quotation == old(quotation)
      ensures invoiceNumber == old(invoiceNumber) && dateTime == old(dateTime)
    {
      filteredProducts := Search(productList, searchTerm);
    }

    /**
     * `addToQuotation(product)`: copies the quotation, then appends the
     * product with quantity 1 or adds a unit to its item. An unavailable
     * product raises the alert (`alerted`) and leaves the quotation alone.
     */
    method AddToQuotation(product: Product) returns (alerted: bool)
      requires Valid()
      modifies this
      ensures Valid()
      ensures alerted == !product.available
      ensures quotation == Add(old(quotation), product)
      ensures productList == old(productList) && searchTerm == old(searchTerm) && filteredProducts == old(filteredProducts)
      ensures invoiceNumber == old(invoiceNumber) && dateTime == old(dateTime)
    {
      if product.available {
        var updated := quotation;
        var index := FindIndex(updated, product.id);
        if index == -1 {
          updated := updated + [LineItem(product, 1)];
        } else {
          updated := updated[index := updated[index].(quantity := updated[index].quantity + 1)];
        }
        AddPreservesValid(quotation, product);
        quotation := updated;
        alerted := false;
      } else {
        alerted := true;
      }
    }

    /** `increaseQuantity(id)`. */
    method IncreaseQuantity(id: int)
      requires Valid()
      modifies this
      ensures Valid()
      ensures quotation == Increase(old(quotation), id)
      ensures productList == old(productList) && searchTerm == old(searchTerm) && filteredProducts == old(filteredProducts)
      ensures invoiceNumber == old(invoiceNumber) && dateTime == old(dateTime)
    {
      IncreasePreservesValid(quotation, id);
      quotation := Increase(quotation, id);
    }

    /** `decreaseQuantity(id)`. */
    method DecreaseQuantity(id: int)
      requires Valid()
      modifies this
      ensures Valid()
      ensures quotation == Decrease(old(quotation), id)
      ensures productList == old(productList) && searchTerm == old(searchTerm) && filteredProducts == old(filteredProducts)
      ensures invoiceNumber == old(invoiceNumber) && dateTime == old(dateTime)
    {
      DecreasePreservesValid(quotation, id);
      quotation := Decrease(quotation, id);
    }

    /** `removeFromQuotation(id)`. */
    method RemoveFromQuotation(id: int)
      requires Valid()
      modifies this
      ensures Valid()
      ensures quotation == Remove(old(quotation), id)
      ensures productList == old(productList) && searchTerm == old(searchTerm) && filteredProducts == old(filteredProducts)
      ensures invoiceNumber == old(invoiceNumber) && dateTime == old(dateTime)
    {
      RemovePreservesValid(quotation, id);
      quotation := Remove(quotation, id);
    }

    /** `calculateTotal()`: the text `toFixed(2)` gives, which reads back as the sum of price times quantity. */
    function CalculateTotal(): (r: string)
      reads this
      ensures ParseInt(r) == Some(SumOfCosts(quotation))
      ensures |r| >= 4 && r[|r| - 3..] == ".00"
    {
      TotalIsSumOfCosts(quotation);
      TotalText(quotation)
    }

    /** `generateQRCodeData()`: the invoice header, the items, and a total that agrees with the items. */
    function GenerateQRCodeData(): (r: QRPayload)
      reads this
      ensures r.invoiceNumber == invoiceNumber && r.dateTime == dateTime && r.products == quotation
      ensures ParseInt(r.totalAmount) == Some(SumOfCosts(r.products))
    {
      QRPayload(invoiceNumber, dateTime, quotation, CalculateTotal())
    }
  }

  /**
   * A session on the screen: add product 5 twice and product 2 once, then try
   * the unavailable product 3. Two line items result, in the order they were
   * first added, and the total is 180.
   */
  method Scenario(randomBase36: string, now: nat, localeDate: string) returns (items: Quotation, total: string)
    ensures items == [LineItem(MockProducts[4], 2), LineItem(MockProducts[1], 1)]
    ensures ParseInt(total) == Some(180)
  {
    var ram, keyboard, mouse := MockProducts[4], MockProducts[1], MockProducts[2];
    var screen := new QuotationDisplay(randomBase36, now, localeDate);
    var alerted := screen.AddToQuotation(ram);
    alerted := screen.AddToQuotation(ram);
    alerted := screen.AddToQuotation(keyboard);
    alerted := screen.AddToQuotation(mouse);
    items := screen.quotation;
    ScenarioItems();
    total := screen.CalculateTotal();
  }
}
