# Quotation cart, product lookup and inventory form

This project models the three stateful screens of a store clerk's front end.

- The **quotation screen** (`QuotationView.QuotationDisplay`) holds a running quotation: a list of line items, each a product plus a quantity. It can add, increase, decrease and remove items. It computes the total and the record that goes into the QR code, filters the catalogue for the search box, and builds the invoice number.
- The **search panel** (`SearchProduct.SearchProducts`) looks up one product of a fixed catalogue. The lookup is by exact case-insensitive name or by numeric id. The panel hands the product on only when one is selected and it is available.
- The **inventory form** (`Inventory.InventoryManagement`) holds at most five photos and six text fields. Submitting needs at least one photo, and a successful submission clears the whole form. Enter in a field submits.

## Modules

- `Wrappers`: `Option`.
- `Text`: the JavaScript string operations the screens use. These are `toLowerCase`/`toUpperCase` (ASCII letters), `includes`, `substring`, `toString` of an integer, and `parseInt` with no radix. It also holds `IndexOf`, which the screens do not call; the model uses it only to split an invoice number back into its parts. `ParseInt` follows the ECMAScript algorithm: skip leading white space, take an optional sign, switch to base 16 on a `0x` prefix, then read the longest digit prefix. `None` stands for `NaN`.
- `Seqs`: `Array.prototype.map`, `filter` and `find` on sequences, with the laws the cart and the lookup rely on.
- `Cart`: the pure quotation operations and their properties:
  - the invariant: distinct ids and quantities of at least one;
  - the effect of each operation on the items and on the total;
  - `calculateTotal` as a left fold, proved equal to a sum of costs;
  - the search filter;
  - the invoice number format.
- `QuotationView`: the quotation screen as a class. Its handlers replace fields exactly as the screen's state setters do. `addToQuotation` keeps its copy-then-push-or-increment body.
- `SearchProduct`: the search panel's catalogue, the `find` lookup and the panel as a class.
- `Inventory`: the inventory form as a value (`Form`) with pure transitions, and the component as a class whose handlers are proved to perform those transitions.

Prices are integers. The `Math.random().toString(36)` text, the `Date.now()` reading and the `toLocaleString()` date are parameters of the screen's constructor.

## Behaviour the model follows as coded

- **Total text.** The total is not rounded to currency; the code formats it with `toFixed(2)`. With integer prices and a total below 2^53, the model gives the total's digits followed by `.00`, as JavaScript does; larger totals are left out (see `Cart.TotalText` under "## Left out").
- **No "not found" signal.** Increasing, decreasing or removing an id that is not in the quotation raises no error. It is a silent no-op, and the model proves exactly that.
- **Snapshot price.** A line item carries a copy of the product as it was added. Increasing its quantity therefore raises the total by that recorded price, not by the catalogue's current price (`Cart.TotalAdd`).

## Model

| member | source | states |
|---|---|---|
| Cart.IncrementAt | Frontend/project/src/Components/Quotationdisplay.js:62 | the item at the index keeps its product and gains one unit; every other item and the length stay |
| Cart.FindIndex | Frontend/project/src/Components/Quotationdisplay.js:57 | `findIndex` yields -1 exactly when no item has the id; otherwise it yields the first index whose item has that id |
| Cart.Add | Frontend/project/src/Components/Quotationdisplay.js:53-70 | an unavailable product leaves the quotation unchanged; an available new product is appended as one item with quantity 1 and nothing before it changes; an available product already present keeps the length |
| Cart.AddExisting | Frontend/project/src/Components/Quotationdisplay.js:57-63 | with distinct ids, adding a product already at index i is exactly that item's quantity plus one, every other item and the order unchanged |
| Cart.AddPreservesValid | Frontend/project/src/Components/Quotationdisplay.js:57-63 | adding keeps ids pairwise distinct and every quantity at least 1 |
| Cart.Increase | Frontend/project/src/Components/Quotationdisplay.js:73-79 | same length, same products, each matching item gains one unit and every other item keeps its quantity |
| Cart.IncreaseAbsent | Frontend/project/src/Components/Quotationdisplay.js:73-79 | increasing an id that is not in the quotation changes nothing |
| Cart.IncreaseAt | Frontend/project/src/Components/Quotationdisplay.js:73-79 | with distinct ids, increasing the id at index i is that one item's quantity plus one |
| Cart.IncreasePreservesValid | Frontend/project/src/Components/Quotationdisplay.js:76 | increasing keeps ids distinct and quantities at least 1 |
| Cart.Decrease | Frontend/project/src/Components/Quotationdisplay.js:82-92 | never lengthens the quotation, and every remaining quantity is positive |
| Cart.DropElsewhere | Frontend/project/src/Components/Quotationdisplay.js:85-89 | the decrement map leaves a quotation without the id unchanged |
| Cart.DropAt | Frontend/project/src/Components/Quotationdisplay.js:85-89 | with distinct ids, the decrement map lowers only the item at index i by one |
| Cart.DecreaseAbsent | Frontend/project/src/Components/Quotationdisplay.js:82-92 | decreasing an absent id changes nothing |
| Cart.DecreaseAt | Frontend/project/src/Components/Quotationdisplay.js:82-92 | the matching item loses one unit when it has more than one; an item with exactly one unit is deleted, the others kept in order |
| Cart.DecreasePreservesValid | Frontend/project/src/Components/Quotationdisplay.js:86-90 | decreasing keeps ids distinct and quantities at least 1 |
| Cart.DeletePreservesValid | Frontend/project/src/Components/Quotationdisplay.js:90 | deleting one item keeps the invariant |
| Cart.Remove | Frontend/project/src/Components/Quotationdisplay.js:95-99 | the id is absent afterwards; every other item is kept and nothing new appears |
| Cart.RemoveAbsent | Frontend/project/src/Components/Quotationdisplay.js:95-99 | removing an absent id changes nothing |
| Cart.RemoveAt | Frontend/project/src/Components/Quotationdisplay.js:97 | with distinct ids, removing the id at index i deletes exactly that item and keeps the order of the rest |
| Cart.RemoveIdempotent | Frontend/project/src/Components/Quotationdisplay.js:95-99 | removing twice equals removing once |
| Cart.RemovePreservesValid | Frontend/project/src/Components/Quotationdisplay.js:97 | removing keeps the invariant |
| Cart.TotalConcat | Frontend/project/src/Components/Quotationdisplay.js:103-105 | the folded total of a concatenation is the sum of the totals |
| Cart.TotalIsSumOfCosts | Frontend/project/src/Components/Quotationdisplay.js:102-107 | the `reduce` fold from 0 equals the sum of price times quantity (0 for the empty quotation) |
| Cart.Total | Frontend/project/src/Components/Quotationdisplay.js:103-105 | the `reduce` starts from 0, so the empty quotation totals 0, and a one-item quotation totals that item's price times quantity; `Cart.TotalIsSumOfCosts` gives the general case |
| Cart.TotalNonNegative | Frontend/project/src/Components/Quotationdisplay.js:102-107 | with positive quantities and non-negative prices the total is not negative |
| Cart.TotalUpdate | Frontend/project/src/Components/Quotationdisplay.js:103-105 | replacing one item changes the total by the difference of the two costs |
| Cart.TotalDelete | Frontend/project/src/Components/Quotationdisplay.js:103-105 | deleting one item lowers the total by its cost |
| Cart.TotalWithout | Frontend/project/src/Components/Quotationdisplay.js:103-105 | leaving one item out of a split quotation lowers the total by its cost |
| Cart.TotalStep | Frontend/project/src/Components/Quotationdisplay.js:103-105 | d more units of one item change the total by d times its price |
| Cart.TotalAround | Frontend/project/src/Components/Quotationdisplay.js:103-105 | the total splits around any one item: before, its cost, after |
| Cart.CostStep | Frontend/project/src/Components/Quotationdisplay.js:104 | changing an item's quantity by d changes its cost by d times its price |
| Cart.TotalAdd | Frontend/project/src/Components/Quotationdisplay.js:53-63 | adding an available product raises the total by one unit price, the recorded price when the product is already present |
| Cart.TotalIncrease | Frontend/project/src/Components/Quotationdisplay.js:73-79 | increasing a present id raises the total by that item's price |
| Cart.TotalBump | Frontend/project/src/Components/Quotationdisplay.js:62 | one more unit at index i raises the total by that item's price |
| Cart.TotalDecrease | Frontend/project/src/Components/Quotationdisplay.js:82-92 | decreasing a present id lowers the total by that item's price, whether or not the item is dropped |
| Cart.TotalRemove | Frontend/project/src/Components/Quotationdisplay.js:95-99 | removing a present id lowers the total by that item's cost |
| Cart.TotalText | Frontend/project/src/Components/Quotationdisplay.js:102-107 | the `toFixed(2)` text ends in `.00` and parses back to the total |
| Cart.AddTimesFromEmpty | Frontend/project/src/Components/Quotationdisplay.js:53-63 | adding one available product n times to an empty quotation gives a single item with quantity n |
| Cart.Matches | Frontend/project/src/Components/Quotationdisplay.js:44-47 | the empty term matches every product; a term equal to the name or the specs up to case matches; the product's id as decimal text matches |
| Cart.MatchesIgnoresCase | Frontend/project/src/Components/Quotationdisplay.js:44-47 | the match ignores the case of the term, the id test included, since an id's text has no letters |
| Cart.SearchIgnoresCase | Frontend/project/src/Components/Quotationdisplay.js:43-48 | searching for a term and for its lower-cased form gives the same results |
| Cart.Search | Frontend/project/src/Components/Quotationdisplay.js:42-50 | every result is a catalogue product that matches, and every matching product is in the result |
| Cart.SearchConcat | Frontend/project/src/Components/Quotationdisplay.js:43-48 | the search distributes over concatenation, so results keep catalogue order |
| Cart.SearchEmptyTerm | Frontend/project/src/Components/Quotationdisplay.js:43-48 | an empty term matches every product and returns the whole catalogue |
| Cart.SearchById | Frontend/project/src/Components/Quotationdisplay.js:47 | a product's decimal id string always finds that product |
| Cart.InvoiceNumber | Frontend/project/src/Components/Quotationdisplay.js:28-31 | the invoice number starts with `INV-` |
| Cart.InvoiceToken | Frontend/project/src/Components/Quotationdisplay.js:29 | the token is at most five characters and contains no lower-case letter |
| Cart.InvoiceNumberRoundTrip | Frontend/project/src/Components/Quotationdisplay.js:28-31 | the invoice number splits back into the upper-cased token and the timestamp |
| Cart.ScenarioItems | Frontend/project/src/Components/Quotationdisplay.js:17-25 | product 5 added twice, product 2 once and the unavailable product 3 give two items in first-added order, totalling 180 |
| QuotationView.QuotationDisplay.constructor | Frontend/project/src/Components/Quotationdisplay.js:34-39 | the mounted screen has the mock catalogue, an empty quotation, the generated invoice number and the date |
| QuotationView.QuotationDisplay.SetSearchTerm | Frontend/project/src/Components/Quotationdisplay.js:10 | only the search term changes |
| QuotationView.QuotationDisplay.HandleSearch | Frontend/project/src/Components/Quotationdisplay.js:42-50 | the search results become the filtered catalogue; nothing else changes |
| QuotationView.QuotationDisplay.AddToQuotation | Frontend/project/src/Components/Quotationdisplay.js:53-70 | the quotation becomes `Add` of the old one; the alert is raised exactly for an unavailable product; the invariant is kept and no other field changes |
| QuotationView.QuotationDisplay.IncreaseQuantity | Frontend/project/src/Components/Quotationdisplay.js:73-79 | the quotation becomes `Increase` of the old one, keeping the invariant |
| QuotationView.QuotationDisplay.DecreaseQuantity | Frontend/project/src/Components/Quotationdisplay.js:82-92 | the quotation becomes `Decrease` of the old one, keeping the invariant |
| QuotationView.QuotationDisplay.RemoveFromQuotation | Frontend/project/src/Components/Quotationdisplay.js:95-99 | the quotation becomes `Remove` of the old one, keeping the invariant |
| QuotationView.QuotationDisplay.CalculateTotal | Frontend/project/src/Components/Quotationdisplay.js:102-107 | the total text ends in `.00` and parses to the sum of price times quantity |
| QuotationView.QuotationDisplay.GenerateQRCodeData | Frontend/project/src/Components/Quotationdisplay.js:110-117 | the payload carries the invoice number, the date and the items, and a total that agrees with those items |
| QuotationView.Scenario | Frontend/project/src/Components/Quotationdisplay.js:53-107 | a session of four adds on the screen yields the two expected items and a total text that reads 180 |
| Text.Lower | Frontend/project/src/Components/Quotationdisplay.js:45-46 | `toLowerCase` keeps the length and lower-cases each character |
| Text.Upper | Frontend/project/src/Components/Quotationdisplay.js:29 | `toUpperCase` keeps the length and upper-cases each character |
| Text.Contains | Frontend/project/src/Components/Quotationdisplay.js:45-46 | `includes` holds exactly when the term occurs at some position |
| Text.Substring | Frontend/project/src/Components/Quotationdisplay.js:29 | `substring` is never longer than the string and is the slice for in-range ordered bounds |
| Text.NatToString | Frontend/project/src/Components/Quotationdisplay.js:30 | the decimal text of a natural number is at least one digit, all digits, with no leading zero, and is "0" exactly for 0; `Text.NatToStringValue` reads it back |
| Text.IntToString | Frontend/project/src/Components/Quotationdisplay.js:47 | `toString` of an integer is a minus sign for negatives followed by digits without leading zeros |
| Text.ParseIntRoundTrip | Frontend/project/src/Components/Searchproduct.js:15 | `parseInt` reads back the decimal text of every integer |
| Text.ParseInt | Frontend/project/src/Components/Searchproduct.js:15 | `parseInt` yields a number only from text that holds a decimal digit; otherwise `NaN` |
| Text.ParseIntOfIntToString | Frontend/project/src/Components/Searchproduct.js:15 | `parseInt` reads back an integer's decimal text followed by any text that does not start with a digit, `x` or `X` (after a lone `0`, an `x` would start a hexadecimal number) |
| Text.LowerOfNumberText | Frontend/project/src/Components/Quotationdisplay.js:45-47 | text that is, or lower-cases to, an integer's decimal text has no upper-case letter |
| Text.IntToStringHasNoLetter | Frontend/project/src/Components/Quotationdisplay.js:47 | an integer's decimal text is made of digits and a leading minus sign |
| Text.ParseIntOfLetter | Frontend/project/src/Components/Searchproduct.js:15 | `parseInt` of text that starts with a letter is `NaN` |
| Text.NatToStringValue | Frontend/project/src/Components/Quotationdisplay.js:30 | the decimal digits of a number denote that number |
| Seqs.Map | Frontend/project/src/Components/Quotationdisplay.js:75-77 | `map` keeps the length and puts `f` of the i-th element at position i |
| Seqs.Filter | Frontend/project/src/Components/Quotationdisplay.js:43-48 | `filter` never lengthens, and every element it keeps passes the test |
| Seqs.FilterMembers | Frontend/project/src/Components/Quotationdisplay.js:43-48 | every kept element comes from the input, and every input element that passes is kept |
| Seqs.FilterAround | Frontend/project/src/Components/Quotationdisplay.js:97 | a filter that keeps everything around one rejected element deletes just that element |
| Seqs.Find | Frontend/project/src/Components/Searchproduct.js:14-16 | `find` yields the index of the first element that passes, and nothing exactly when no element passes |
| Seqs.FilterRejectsOne | Frontend/project/src/Components/Quotationdisplay.js:97 | a filter that rejects only the element at i deletes it and keeps the order of the rest |
| Seqs.FilterAgree | Frontend/project/src/Components/Quotationdisplay.js:43-48 | two tests that agree on every element keep the same elements |
| Seqs.FilterIdempotent | Frontend/project/src/Components/Quotationdisplay.js:97 | filtering twice with one test equals filtering once |
| SearchProduct.Selects | Frontend/project/src/Components/Searchproduct.js:15 | the `find` test selects an item only for a term as long as its name or a term holding a digit |
| SearchProduct.Lookup | Frontend/project/src/Components/Searchproduct.js:14-17 | the selection is the first catalogue item the term selects, and null exactly when no item matches |
| SearchProduct.ProductsIdsDistinct | Frontend/project/src/Components/Searchproduct.js:3-7 | the catalogue ids are distinct |
| SearchProduct.LookupByNumber | Frontend/project/src/Components/Searchproduct.js:14-16 | with distinct ids, a term that parses to an item's id selects that item unless an earlier name equals the term |
| SearchProduct.LookupById | Frontend/project/src/Components/Searchproduct.js:3-17 | each product's decimal id selects exactly that product |
| SearchProduct.NotSelected | Frontend/project/src/Components/Searchproduct.js:15 | an item whose name length differs from the term's and whose id is not the term's number is not selected |
| SearchProduct.NameLength | Frontend/project/src/Components/Searchproduct.js:3-7 | every catalogue name has at least six letters |
| SearchProduct.ProductsNamesDistinct | Frontend/project/src/Components/Searchproduct.js:3-7 | the catalogue names are distinct up to case |
| SearchProduct.LookupByNameIn | Frontend/project/src/Components/Searchproduct.js:14-16 | with names distinct up to case, any spelling of item k's name selects item k, unless it parses to an earlier item's id |
| SearchProduct.NameStartsWithLetter | Frontend/project/src/Components/Searchproduct.js:15 | a term equal to a product name up to case starts with a letter |
| SearchProduct.LookupByName | Frontend/project/src/Components/Searchproduct.js:14-17 | the name test ignores case: any spelling of a product's name, such as "LAPTOP", selects that product |
| SearchProduct.LookupNeedsWholeName | Frontend/project/src/Components/Searchproduct.js:15-17 | a word that starts with a letter and is shorter than every name, such as "Lap", selects nothing: names are compared whole, not by containment |
| SearchProduct.SearchProducts.constructor | Frontend/project/src/Components/Searchproduct.js:10-11 | the panel starts with an empty term and no selection |
| SearchProduct.SearchProducts.SetSearchTerm | Frontend/project/src/Components/Searchproduct.js:34 | only the term changes |
| SearchProduct.SearchProducts.HandleSearch | Frontend/project/src/Components/Searchproduct.js:13-18 | the selection becomes the lookup of the term |
| SearchProduct.SearchProducts.HandleAddToQuotation | Frontend/project/src/Components/Searchproduct.js:20-26 | the callback gets a product exactly when one is selected and available, and then exactly that product |
| SearchProduct.UnavailableIsNotHandedOn | Frontend/project/src/Components/Searchproduct.js:13-26 | searching for the keyboard, in any spelling, selects it, and it is unavailable; adding it then hands nothing on |
| Inventory.Form.With | Frontend/project/src/Components/InventoryManagement.js:83-130 | an input's `onChange` sets its own field and keeps the photos and the other five fields |
| Inventory.SelectFiles | Frontend/project/src/Components/InventoryManagement.js:14-21 | more than five files leave the form unchanged; five or fewer, the empty selection included, become the photos; no text field changes |
| Inventory.Submit | Frontend/project/src/Components/InventoryManagement.js:23-46 | with no photo nothing is logged and nothing changes; otherwise the whole form is logged and all seven fields are cleared |
| Inventory.KeyDown | Frontend/project/src/Components/InventoryManagement.js:48-53 | Enter acts exactly as a submission; any other key changes nothing and logs nothing |
| Inventory.SubmitTwice | Frontend/project/src/Components/InventoryManagement.js:24-45 | a second submission right after a first logs nothing and changes nothing |
| Inventory.TransitionsKeepLimit | Frontend/project/src/Components/InventoryManagement.js:14-53 | no transition takes the form past five photos |
| Inventory.SelectThenSubmit | Frontend/project/src/Components/InventoryManagement.js:14-46 | one to five photos then a submission logs the form with those photos and leaves it empty |
| Inventory.InventoryManagement.constructor | Frontend/project/src/Components/InventoryManagement.js:6-12 | all seven fields start empty |
| Inventory.InventoryManagement.SetField | Frontend/project/src/Components/InventoryManagement.js:83-130 | the state becomes `With` of the old state |
| Inventory.InventoryManagement.HandleFileChange | Frontend/project/src/Components/InventoryManagement.js:14-21 | the alert is raised exactly for more than five files; the state becomes `SelectFiles` of the old state |
| Inventory.InventoryManagement.HandleUpdate | Frontend/project/src/Components/InventoryManagement.js:23-46 | the new state and the logged record are `Submit` of the old state |
| Inventory.InventoryManagement.HandleKeyDown | Frontend/project/src/Components/InventoryManagement.js:48-53 | the new state and the logged record are `KeyDown` of the old state and the key |
| Inventory.Session | Frontend/project/src/Components/InventoryManagement.js:14-53 | six files are refused, two are taken, Tab does nothing and Enter logs the filled-in form with two photos and clears it |

## Left out

- Rendering: JSX, `useState`/`useEffect` wiring, `QRCodeCanvas` and DOM event objects. State setters are field assignments.
- `alert` and `console.log`: these produce no state. Each is a returned flag or record (`alerted`, `rejected`, `handedOn`, `logged`).
- `Math.random().toString(36)`, `Date.now()` and `toLocaleString()`: these are nondeterministic or locale-dependent, so they are constructor parameters.
- Floating point: prices are integers. Non-integer prices and float rounding are not modelled.
- Cart.TotalText: ids, prices and totals are unbounded integers. JavaScript numbers are exact only up to 2^53, and `toFixed(2)` and `toString` switch to exponential notation from 10^21. Totals and ids that large are not modelled.
- Text.IntToString: gives the plain digits for every integer. JavaScript writes the exponential form (`"1e+21"`) from 10^21 up, which is not modelled.
- `JSON.stringify` text: the QR payload is the record `QRPayload`, not its character encoding.
- `QuotationPage.js` (a `localStorage` read and display), `App.js`, `Home.js`, `Header.js` and `Footer.js` (routing and static chrome) are not part of this model.
- Persistence write-through, `clear()`, PDF export and sharing: these screens do not implement them.
- QuotationView.QuotationDisplay.AddToQuotation: does not model that `updatedQuotation[index].quantity += 1` mutates the item object shared with the previous state. The model gives the intended single increment on a copy.
- Text.Lower: case mapping covers ASCII letters only, not the full Unicode mapping of `toLowerCase`/`toUpperCase`.
- Precision of `parseInt`: the model reads numbers exactly, without the float precision loss `parseInt` has on very long digit strings.
- SearchProduct.SearchProducts.HandleAddToQuotation: the callback `onAddToQuotation` belongs to the parent screen. The model returns the product it would be called with rather than calling it.
- Photo files: a file is represented by its name only. The `accept=".jpeg, .png"` filter of the file picker is browser behaviour and is not modelled.
