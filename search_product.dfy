/**
 * The single-product search panel: a fixed three-product catalogue, a lookup
 * by exact case-insensitive name or by numeric id that selects the first
 * product it finds, and the guard that hands the selection on to the
 * quotation only when it is available.
 */
module SearchProduct {
  import opened Wrappers
  import opened Text
  import opened Seqs

  /** A record of the panel's catalogue (it has no specs field). */
  datatype CatalogItem = CatalogItem(id: int, name: string, brand: string, price: int, available: bool)

  const Products: seq<CatalogItem> := [
    CatalogItem(1, "Laptop", "Dell", 1000, true),
    CatalogItem(2, "Keyboard", "Logitech", 50, false),
    CatalogItem(3, "Monitor", "Samsung", 300, true)
  ]

  /**
   * The `find` test: the lower-cased name equals the lower-cased term, or the
   * id equals `parseInt(term)` (a `NaN` equals no id). Only a term as long
   * as the name, or one holding a digit, can select an item.
   */
  function Selects(item: CatalogItem, term: string): (r: bool)
    ensures r ==> |term| == |item.name| || HasDecimalDigit(term)
  {
    Lower(item.name) == Lower(term) || ParseInt(term) == Some(item.id)
  }

  /** The `find` callback for a term. */
  function SelectsTerm(term: string): CatalogItem -> bool {
    (item: CatalogItem) => Selects(item, term)
  }

  /** `products.find(...) || null`: the first selected item, or `None` when nothing matches. */
  function Lookup(catalogue: seq<CatalogItem>, term: string): (r: Option<CatalogItem>)
    ensures r.None? <==> forall i :: 0 <= i < |catalogue| ==> !Selects(catalogue[i], term)
    ensures r.Some? ==> exists k :: 0 <= k < |catalogue| && r.value == catalogue[k] && Selects(r.value, term) &&
                                    forall i :: 0 <= i < k ==> !Selects(catalogue[i], term)
  {
    match Find(catalogue, SelectsTerm(term))
    case None => None
    case Some(k) => Some(catalogue[k])
  }

  predicate IdsDistinct(catalogue: seq<CatalogItem>) {
    forall i, j :: 0 <= i < j < |catalogue| ==> catalogue[i].id != catalogue[j].id
  }

  lemma ProductsIdsDistinct()
    ensures IdsDistinct(Products)
  {
  }

  /**
   * With distinct ids, a term that parses to the id of item `k` selects item
   * `k`, unless an earlier item carries the term as its name: the numeric
   * test never picks a second item.
   */
  lemma LookupByNumber(catalogue: seq<CatalogItem>, term: string, k: nat)
    requires IdsDistinct(catalogue) && k < |catalogue| && ParseInt(term) == Some(catalogue[k].id)
    requires forall j :: 0 <= j < k ==> Lower(catalogue[j].name) != Lower(term)
    ensures Lookup(catalogue, term) == Some(catalogue[k])
  {
    forall j | 0 <= j < k ensures !Selects(catalogue[j], term) {
      assert catalogue[j].id != catalogue[k].id;
    }
    var m := Find(catalogue, SelectsTerm(term));
    assert m.Some? && m.value <= k;
  }

  /** An item whose name is not as long as the term, and whose id is not the term's number, is not selected. */
  lemma NotSelected(item: CatalogItem, term: string)
    requires |item.name| != |term| && ParseInt(term) != Some(item.id)
    ensures !Selects(item, term)
  {
    assert |Lower(item.name)| != |Lower(term)|;
  }

  /** Every product name has at least six letters. */
  lemma NameLength(i: nat)
    requires i < |Products|
    ensures |Products[i].name| >= 6
  {
  }

  /** Typing a product's id in decimal selects exactly that product. */
  lemma LookupById(k: nat)
    requires k < |Products|
    ensures Lookup(Products, IntToString(Products[k].id)) == Some(Products[k])
  {
    var term := IntToString(Products[k].id);
    ParseIntRoundTrip(Products[k].id);
    ProductsIdsDistinct();
    assert |term| == 1;
    forall j | 0 <= j < k ensures Lower(Products[j].name) != Lower(term) {
      NameLength(j);
      assert |Lower(Products[j].name)| != |Lower(term)|;
    }
    LookupByNumber(Products, term, k);
  }

  predicate NamesDistinct(catalogue: seq<CatalogItem>) {
    forall i, j :: 0 <= i < j < |catalogue| ==> Lower(catalogue[i].name) != Lower(catalogue[j].name)
  }

  /**
   * With names distinct up to case, a term that is some spelling of item
   * `k`'s name selects item `k`, unless it parses to the id of an earlier item.
   */
  lemma LookupByNameIn(catalogue: seq<CatalogItem>, term: string, k: nat)
    requires NamesDistinct(catalogue) && k < |catalogue| && Lower(term) == Lower(catalogue[k].name)
    requires forall j :: 0 <= j < k ==> ParseInt(term) != Some(catalogue[j].id)
    ensures Lookup(catalogue, term) == Some(catalogue[k])
  {
    forall j | 0 <= j < k ensures !Selects(catalogue[j], term) {
      assert Lower(catalogue[j].name) != Lower(catalogue[k].name);
    }
    var m := Find(catalogue, SelectsTerm(term));
    assert m.Some? && m.value <= k;
  }

  /** The lower-cased names of the catalogue are distinct: they start with different letters. */
  lemma ProductsNamesDistinct()
    ensures NamesDistinct(Products)
  {
    forall i, j | 0 <= i < j < |Products| ensures Lower(Products[i].name) != Lower(Products[j].name) {
      assert Lower(Products[i].name)[0] != Lower(Products[j].name)[0];
    }
  }

  /** A term whose lower-cased form is that of a product's name starts with a letter. */
  lemma NameStartsWithLetter(term: string, k: nat)
    requires k < |Products| && Lower(term) == Lower(Products[k].name)
    ensures |term| > 0 && ('a' <= term[0] <= 'z' || 'A' <= term[0] <= 'Z')
  {
    assert |term| == |Products[k].name| > 0;
    assert 'a' <= Lower(term)[0] <= 'z';
  }

  /**
   * The name test ignores case: any spelling of a product's name, in upper
   * or lower case, selects that product.
   */
  lemma LookupByName(term: string, k: nat)
    requires k < |Products| && Lower(term) == Lower(Products[k].name)
    ensures Lookup(Products, term) == Some(Products[k])
  {
    NameStartsWithLetter(term, k);
    ParseIntOfLetter(term);
    ProductsNamesDistinct();
    LookupByNameIn(Products, term, k);
  }

  /**
   * The name test is equality, not containment: a word shorter than every
   * product name, such as "Lap", selects nothing.
   */
  lemma LookupNeedsWholeName(term: string)
    requires 0 < |term| < 6 && ('a' <= term[0] <= 'z' || 'A' <= term[0] <= 'Z')
    ensures Lookup(Products, term) == None
  {
    ParseIntOfLetter(term);
    forall i | 0 <= i < |Products| ensures !Selects(Products[i], term) {
      NameLength(i);
      NotSelected(Products[i], term);
    }
  }

  class SearchProducts {
    var searchTerm: string
    var selectedProduct: Option<CatalogItem>

    constructor ()
      ensures searchTerm == "" && selectedProduct == None
    {
      searchTerm := "";
      selectedProduct := None;
    }

    /** The search box's `onChange`. */
    method SetSearchTerm(term: string)
      modifies this
      ensures searchTerm == term && selectedProduct == old(selectedProduct)
    {
      searchTerm := term;
    }

    /** `handleSearch`: the selection becomes the first product the term selects, or `None`. */
    method HandleSearch()
      modifies this
      ensures selectedProduct == Lookup(Products, old(searchTerm)) && searchTerm == old(searchTerm)
    {
      selectedProduct := Lookup(Products, searchTerm);
    }

    /**
     * `handleAddToQuotation`: `handedOn` is the argument `onAddToQuotation`
     * is called with, `None` when the alert is raised instead. Nothing in
     * the panel changes.
     */
    method HandleAddToQuotation() returns (handedOn: Option<CatalogItem>)
      ensures handedOn.Some? <==> selectedProduct.Some? && selectedProduct.value.available
      ensures handedOn.Some? ==> handedOn == selectedProduct
    {
      if selectedProduct.Some? && selectedProduct.value.available {
        handedOn := selectedProduct;
      } else {
        handedOn := None;
      }
    }
  }

  /** Searching for the out-of-stock keyboard, in any spelling, selects it, but adding it hands nothing on. */
  method UnavailableIsNotHandedOn(term: string) returns (selected: Option<CatalogItem>, handedOn: Option<CatalogItem>)
    requires Lower(term) == Lower(Products[1].name)
    ensures selected == Some(Products[1]) && !selected.value.available
    ensures handedOn == None
  {
    var panel := new SearchProducts();
    panel.SetSearchTerm(term);
    panel.HandleSearch();
    LookupByName(term, 1);
    selected := panel.selectedProduct;
    handedOn := panel.HandleAddToQuotation();
  }
}
