/**
 * The product and service directory: the filter form and the filter it
 * applies, the list of categories the form offers, and the detail view that
 * looks an item up by the id of a product route.
 */
module Directory {

  import opened Wrappers
  import opened Seqs
  import opened Text
  import Content

  /** The filter record `{ q, cat, price }`. */
  datatype Filters = Filters(q: string, cat: string, price: int)

  /** The category that disables the category test. */
  const AllCategories := "All"

  /** The price slider runs from 0 to 200 in whole steps. */
  const MaxPrice := 200

  /** The filters in force before the form is first submitted. */
  const DefaultFilters := Filters("", AllCategories, MaxPrice)

  /** `${i.name} ${i.description} ${i.category}`: the text the query is looked for in. */
  function Haystack(i: Content.DirectoryItem): string
  {
    i.name + " " + i.description + " " + i.category
  }

  /** The query test: the lower-cased query is empty or occurs in the lower-cased haystack. */
  predicate MatchesQuery(i: Content.DirectoryItem, q: string)
  {
    Lower(q) == [] || Contains(Lower(Haystack(i)), Lower(q))
  }

  /** The category test: `All`, or exactly the item's category. */
  predicate MatchesCategory(i: Content.DirectoryItem, cat: string)
  {
    cat == AllCategories || i.category == cat
  }

  /** All three tests together. */
  predicate Keeps(f: Filters, i: Content.DirectoryItem)
  {
    MatchesQuery(i, f.q) && MatchesCategory(i, f.cat) && i.price <= f.price
  }

  function Keeper(f: Filters): Content.DirectoryItem -> bool
  {
    (i: Content.DirectoryItem) => Keeps(f, i)
  }

  /** The items the directory lists: exactly those passing all three tests, in their original order. */
  function Filtered(items: seq<Content.DirectoryItem>, f: Filters): (r: seq<Content.DirectoryItem>)
    ensures IsSubseq(r, items) && |r| <= |items|
    ensures forall i :: i in r <==> i in items && Keeps(f, i)
    ensures forall i :: multiset(r)[i] == if Keeps(f, i) then multiset(items)[i] else 0
  {
    FilterIsSubseq(items, Keeper(f));
    FilterCounts(items, Keeper(f));
    Filter(items, Keeper(f))
  }

  function PricedAtMost(limit: int): Content.DirectoryItem -> bool
  {
    (i: Content.DirectoryItem) => i.price <= limit
  }

  /** With the default filters the directory lists exactly the items priced at most 200. */
  lemma DefaultFiltersKeepAffordable(items: seq<Content.DirectoryItem>)
    ensures Filtered(items, DefaultFilters) == Filter(items, PricedAtMost(MaxPrice))
  {
    assert Lower("") == [];
    FilterAgree(items, Keeper(DefaultFilters), PricedAtMost(MaxPrice));
  }

  /** Raising the price limit never drops an item; the smaller list stays in order inside the larger. */
  lemma PriceMonotone(items: seq<Content.DirectoryItem>, f: Filters, higher: int)
    requires f.price <= higher
    ensures IsSubseq(Filtered(items, f), Filtered(items, f.(price := higher)))
    ensures forall i :: i in Filtered(items, f) ==> i in Filtered(items, f.(price := higher))
  {
    FilterMonotone(items, Keeper(f), Keeper(f.(price := higher)));
  }

  /** The case of the query does not matter. */
  lemma QueryIgnoresCase(items: seq<Content.DirectoryItem>, f: Filters)
    ensures Filtered(items, f.(q := Upper(f.q))) == Filtered(items, f)
    ensures Filtered(items, f.(q := Lower(f.q))) == Filtered(items, f)
  {
    LowerIgnoresCase(f.q);
    FilterAgree(items, Keeper(f.(q := Upper(f.q))), Keeper(f));
    FilterAgree(items, Keeper(f.(q := Lower(f.q))), Keeper(f));
  }

  /**
   * The query is not trimmed: a query of two spaces is a real query, and it
   * hides an item whose haystack has no two spaces in a row, where the
   * empty query shows it.
   */
  lemma BlankQueryIsNotTrimmed()
    ensures Filtered([Sample], DefaultFilters) == [Sample]
    ensures Filtered([Sample], DefaultFilters.(q := "  ")) == []
  {
    assert Keeps(DefaultFilters, Sample) by {
      assert Lower("") == [];
    }
    assert !Keeps(DefaultFilters.(q := "  "), Sample) by {
      SampleHaystack();
    }
  }

  /** An item whose name, description and category are single letters. */
  const Sample := Content.DirectoryItem("p", "a", "c", 10, "", "b", [], "", "", "")

  lemma SampleHaystack()
    ensures Lower(Haystack(Sample)) == "a b c" && Lower("  ") == "  "
    ensures !Contains("a b c", "  ")
  {
    assert Haystack(Sample) == "a b c";
    assert Lower("a b c") == "a b c" by {
      forall k | 0 <= k < 5
        ensures Lower("a b c")[k] == "a b c"[k]
      {
        assert !('A' <= "a b c"[k] <= 'Z');
      }
    }
    assert Lower("  ") == "  " by {
      assert !('A' <= ' ' <= 'Z');
    }
    assert !Contains("", "  ");
    assert !Contains("c", "  ") by {
      assert "c"[1..] == [];
    }
    assert !Contains(" c", "  ") by {
      assert " c"[1..] == "c" && " c"[1] != "  "[1];
    }
    assert !Contains("b c", "  ") by {
      assert "b c"[1..] == " c" && "b c"[0] != "  "[0];
    }
    assert !Contains(" b c", "  ") by {
      assert " b c"[1..] == "b c" && " b c"[1] != "  "[1];
    }
    assert "a b c"[1..] == " b c" && "a b c"[0] != "  "[0];
  }

  /** `items.map(i => i.category)`. */
  function CategoryColumn(items: seq<Content.DirectoryItem>): (r: seq<string>)
    ensures |r| == |items|
    ensures forall k :: 0 <= k < |items| ==> r[k] == items[k].category
  {
    seq(|items|, k requires 0 <= k < |items| => items[k].category)
  }

  /**
   * `Array.from(new Set(items.map(i => i.category)))`: every category that
   * some item has, each exactly once.
   */
  function Categories(items: seq<Content.DirectoryItem>): (r: seq<string>)
    ensures NoDup(r)
    ensures forall c :: c in r <==> exists i :: i in items && i.category == c
  {
    var column := CategoryColumn(items);
    assert forall c :: c in column <==> exists i :: i in items && i.category == c by {
      forall c | c in column
        ensures exists i :: i in items && i.category == c
      {
        var k :| 0 <= k < |column| && column[k] == c;
        assert items[k] in items;
      }
      forall i | i in items
        ensures i.category in column
      {
        var k :| 0 <= k < |items| && items[k] == i;
        assert column[k] == i.category;
      }
    }
    Dedup(column)
  }

  /** The categories are listed in the order in which they first occur among the items. */
  lemma CategoriesFirstSeenOrder(items: seq<Content.DirectoryItem>)
    ensures forall a, b :: 0 <= a < b < |Categories(items)| ==>
      FirstIndex(CategoryColumn(items), Categories(items)[a]) < FirstIndex(CategoryColumn(items), Categories(items)[b])
  {
    DedupFirstSeenOrder(CategoryColumn(items));
  }

  /** `items.find(i => i.id === id)`. */
  function FindItem(items: seq<Content.DirectoryItem>, id: string): Option<Content.DirectoryItem>
  {
    FindBy(items, ItemId, id)
  }

  function ItemId(i: Content.DirectoryItem): string
  {
    i.id
  }

  /** What the directory component renders. */
  datatype Screen = Listing(shown: seq<Content.DirectoryItem>) | Detail(item: Content.DirectoryItem) | ItemNotFound

  /**
   * A non-empty `focusId` selects the detail view, which shows the first item
   * with that id or "Item not found"; without one the filtered list is shown.
   */
  function Render(items: seq<Content.DirectoryItem>, focusId: Option<string>, f: Filters): (s: Screen)
    ensures focusId.None? || focusId.value == [] <==> s.Listing?
    ensures focusId.None? || focusId.value == [] ==> s == Listing(Filtered(items, f))
    ensures s.Detail? ==> focusId == Some(s.item.id)
    ensures s.Detail? ==> exists k :: 0 <= k < |items| && items[k] == s.item
                                      && forall j :: 0 <= j < k ==> items[j].id != s.item.id
    ensures s.ItemNotFound? <==> focusId.Some? && focusId.value != [] && forall i :: i in items ==> i.id != focusId.value
  {
    if focusId.Some? && focusId.value != [] then
      match FindItem(items, focusId.value)
      case Some(i) => Detail(i)
      case None => ItemNotFound
    else
      Listing(Filtered(items, f))
  }

  /**
   * The filter form: the query box, the category select and the price slider,
   * each edited on its own and handed over together on submit.
   */
  class FilterForm {
    var q: string
    var cat: string
    var price: int

    /** The slider keeps the price between 0 and 200. */
    predicate Valid()
      reads this
    {
      0 <= price <= MaxPrice
    }

    constructor ()
      ensures Valid() && Filters(q, cat, price) == DefaultFilters
    {
      q := "";
      cat := AllCategories;
      price := MaxPrice;
    }

    method SetQuery(value: string)
      modifies this
      ensures q == value && cat == old(cat) && price == old(price)
    {
      q := value;
    }

    method SetCategory(value: string)
      modifies this
      ensures cat == value && q == old(q) && price == old(price)
    {
      cat := value;
    }

    /** The slider only produces whole numbers in its range. */
    method SetPrice(value: int)
      requires 0 <= value <= MaxPrice
      modifies this
      ensures Valid() && price == value && q == old(q) && cat == old(cat)
    {
      price := value;
    }

    /** Submitting hands over the three fields as one filter record. */
    method Submit() returns (f: Filters)
      requires Valid()
      ensures f == Filters(q, cat, price) && 0 <= f.price <= MaxPrice
    {
      f := Filters(q, cat, price);
    }
  }

  /** The directory component: the static items, the route's focus id and the filters in force. */
  class DirectoryView {
    const items: seq<Content.DirectoryItem>
    const focusId: Option<string>
    var filters: Filters

    constructor (items: seq<Content.DirectoryItem>, focusId: Option<string>)
      ensures this.items == items && this.focusId == focusId && filters == DefaultFilters
    {
      this.items := items;
      this.focusId := focusId;
      filters := DefaultFilters;
    }

    /** `setFilters(f)`: the submitted record replaces the previous one wholesale. */
    method Apply(f: Filters)
      modifies this
      ensures filters == f
    {
      filters := f;
    }

    function Screen(): Screen
      reads this
    {
      Render(items, focusId, filters)
    }
  }
}
