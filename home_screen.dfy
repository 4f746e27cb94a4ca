/** The home screen's in-memory catalog filter and the facet lists that
    populate its filter dialog. Everything here is a pure function of the
    product list and the filter state. */
module HomeScreen {
  import opened Common
  import opened Text
  import opened Models

  /** A price box as the filter sees it: empty (no bound), a number (the
      bound, in kuruş), or text that `parseFloat` turns into NaN. */
  datatype PriceInput = Blank | Parsed(amount: int) | NotANumber

  /** The screen's filter state: the quick category chip, the search box, and
      the five fields of the filter dialog ("" means not set). */
  datatype Filters = Filters(
    selectedCategory: Option<string>,
    search: string,
    minPrice: PriceInput,
    maxPrice: PriceInput,
    size: string,
    color: string,
    category: string)

  // The seven conjuncts of `filteredProducts`, in source order.

  /** An unset (null or "") quick category accepts everything. */
  predicate QuickCategoryOk(p: Product, selected: Option<string>) {
    selected.None? || selected.value == "" || p.category == selected.value
  }

  /** Case-insensitive substring match on name, description or category. */
  predicate SearchOk(p: Product, search: string) {
    var q := ToLower(search);
    Contains(ToLower(p.name), q) || Contains(ToLower(p.description), q) || Contains(ToLower(p.category), q)
  }

  /** Inclusive lower price bound; a NaN bound rejects every product. */
  predicate MinPriceOk(p: Product, bound: PriceInput) {
    match bound
    case Blank => true
    case Parsed(v) => p.price >= v
    case NotANumber => false
  }

  /** Inclusive upper price bound; a NaN bound rejects every product. */
  predicate MaxPriceOk(p: Product, bound: PriceInput) {
    match bound
    case Blank => true
    case Parsed(v) => p.price <= v
    case NotANumber => false
  }

  /** A product without a size list is not rejected (`undefined` is not `false`). */
  predicate SizeOk(p: Product, size: string) {
    size == "" || p.sizes.None? || size in p.sizes.value
  }

  /** A product without a color list is not rejected. */
  predicate ColorOk(p: Product, color: string) {
    color == "" || p.colors.None? || color in p.colors.value
  }

  predicate CategoryFilterOk(p: Product, category: string) {
    category == "" || p.category == category
  }

  /** The product passes the filter. */
  predicate Passes(f: Filters, p: Product) {
    && QuickCategoryOk(p, f.selectedCategory)
    && SearchOk(p, f.search)
    && MinPriceOk(p, f.minPrice)
    && MaxPriceOk(p, f.maxPrice)
    && SizeOk(p, f.size)
    && ColorOk(p, f.color)
    && CategoryFilterOk(p, f.category)
  }

  function Keeps(f: Filters): Product -> bool {
    p => Passes(f, p)
  }

  /** `filteredProducts`. */
  function FilteredProducts(products: seq<Product>, f: Filters): (r: seq<Product>)
    ensures IsSubsequence(r, products)
    ensures forall p :: p in r <==> p in products && Passes(f, p)
  {
    FilterIsSubsequence(Keeps(f), products);
    FilterMembershipAll(Keeps(f), products);
    Filter(Keeps(f), products)
  }

  lemma FilterMembershipAll(keep: Product -> bool, products: seq<Product>)
    ensures forall p :: p in Filter(keep, products) <==> p in products && keep(p)
  {
    forall p ensures p in Filter(keep, products) <==> p in products && keep(p) {
      FilterMembership(keep, products, p);
    }
  }

  /** Each passing product keeps all its occurrences; the others vanish. */
  lemma FilteredCount(products: seq<Product>, f: Filters, p: Product)
    ensures multiset(FilteredProducts(products, f))[p] ==
      if Passes(f, p) then multiset(products)[p] else 0
  {
    FilterCount(Keeps(f), products, p);
  }

  /** The filter state with nothing set. */
  const NoFilters := Filters(None, "", Blank, Blank, "", "", "")

  /** An empty search matches every product. */
  lemma EmptySearchMatches(p: Product)
    ensures SearchOk(p, "")
  {
    assert ToLower("") == "";
    ContainsEmpty(ToLower(p.name));
  }

  /** The search ignores the case of the query. */
  lemma SearchIgnoresQueryCase(p: Product, search: string)
    ensures SearchOk(p, search) == SearchOk(p, ToLower(search))
  {
    ToLowerIdempotent(search);
  }

  /** With nothing set, the filter returns the product list unchanged. */
  lemma NoFiltersIsIdentity(products: seq<Product>)
    ensures FilteredProducts(products, NoFilters) == products
  {
    forall i | 0 <= i < |products| ensures Keeps(NoFilters)(products[i]) {
      EmptySearchMatches(products[i]);
    }
    FilterAllKept(Keeps(NoFilters), products);
  }

  /** The quick category and the dialog's category must both match: two
      different non-empty choices leave nothing. */
  lemma ConflictingCategoriesGiveNothing(products: seq<Product>, f: Filters)
    requires f.selectedCategory.Some? && f.selectedCategory.value != ""
    requires f.category != "" && f.category != f.selectedCategory.value
    ensures FilteredProducts(products, f) == []
  {
    FilterNoneKept(Keeps(f), products);
  }

  /** Equal lower and upper bounds keep exactly the products at that price. */
  lemma ExactPriceBounds(products: seq<Product>, v: int, p: Product)
    ensures p in FilteredProducts(products, NoFilters.(minPrice := Parsed(v), maxPrice := Parsed(v))) <==>
      p in products && p.price == v
  {
    EmptySearchMatches(p);
  }

  /** A NaN price bound empties the result. */
  lemma UnparsableBoundGivesNothing(products: seq<Product>, f: Filters)
    requires f.minPrice == NotANumber || f.maxPrice == NotANumber
    ensures FilteredProducts(products, f) == []
  {
    FilterNoneKept(Keeps(f), products);
  }

  /** A size that no product lists leaves only the products that have no
      size list at all; with every list present the result is empty. */
  lemma AbsentSizeKeepsOnlyListless(products: seq<Product>, f: Filters)
    requires f.size != ""
    requires forall i :: 0 <= i < |products| && products[i].sizes.Some? ==> f.size !in products[i].sizes.value
    ensures forall p :: p in FilteredProducts(products, f) ==> p.sizes.None?
    ensures (forall i :: 0 <= i < |products| ==> products[i].sizes.Some?) ==> FilteredProducts(products, f) == []
  {
    if forall i :: 0 <= i < |products| ==> products[i].sizes.Some? {
      FilterNoneKept(Keeps(f), products);
    }
  }

  // ---------------------------------------------------------------------
  // Facets.

  /** `p.sizes || []`, concatenated over the catalog. */
  function SizeEntries(products: seq<Product>): seq<string>
    decreases |products|
  {
    if products == [] then []
    else (match products[0].sizes case Some(s) => s case None => []) + SizeEntries(products[1..])
  }

  /** `p.colors || []`, concatenated over the catalog. */
  function ColorEntries(products: seq<Product>): seq<string>
    decreases |products|
  {
    if products == [] then []
    else (match products[0].colors case Some(c) => c case None => []) + ColorEntries(products[1..])
  }

  function CategoryEntries(products: seq<Product>): (r: seq<string>)
    ensures |r| == |products|
    ensures forall i :: 0 <= i < |products| ==> r[i] == products[i].category
  {
    seq(|products|, i requires 0 <= i < |products| => products[i].category)
  }

  lemma {:induction false} SizeEntriesMembers(products: seq<Product>, x: string)
    ensures x in SizeEntries(products) <==>
      exists i :: 0 <= i < |products| && products[i].sizes.Some? && x in products[i].sizes.value
    decreases |products|
  {
    if products != [] {
      SizeEntriesMembers(products[1..], x);
      if exists i :: 0 <= i < |products[1..]| && products[1..][i].sizes.Some? && x in products[1..][i].sizes.value {
        var i :| 0 <= i < |products[1..]| && products[1..][i].sizes.Some? && x in products[1..][i].sizes.value;
        assert products[i + 1] == products[1..][i];
      }
      if exists i :: 0 <= i < |products| && products[i].sizes.Some? && x in products[i].sizes.value {
        var i :| 0 <= i < |products| && products[i].sizes.Some? && x in products[i].sizes.value;
        if i > 0 {
          assert products[1..][i - 1] == products[i];
        }
      }
    }
  }

  lemma {:induction false} ColorEntriesMembers(products: seq<Product>, x: string)
    ensures x in ColorEntries(products) <==>
      exists i :: 0 <= i < |products| && products[i].colors.Some? && x in products[i].colors.value
    decreases |products|
  {
    if products != [] {
      ColorEntriesMembers(products[1..], x);
      if exists i :: 0 <= i < |products[1..]| && products[1..][i].colors.Some? && x in products[1..][i].colors.value {
        var i :| 0 <= i < |products[1..]| && products[1..][i].colors.Some? && x in products[1..][i].colors.value;
        assert products[i + 1] == products[1..][i];
      }
      if exists i :: 0 <= i < |products| && products[i].colors.Some? && x in products[i].colors.value {
        var i :| 0 <= i < |products| && products[i].colors.Some? && x in products[i].colors.value;
        if i > 0 {
          assert products[1..][i - 1] == products[i];
        }
      }
    }
  }

  /** `le` is a total preorder (what a `sort` comparator must provide). */
  ghost predicate TotalPreorder(le: (string, string) -> bool) {
    && (forall a, b :: le(a, b) || le(b, a))
    && (forall a, b, c :: le(a, b) && le(b, c) ==> le(a, c))
  }

  predicate SortedBy(s: seq<string>, le: (string, string) -> bool) {
    forall i, j :: 0 <= i < j < |s| ==> le(s[i], s[j])
  }

  function Insert(x: string, s: seq<string>, le: (string, string) -> bool): (r: seq<string>)
    ensures multiset(r) == multiset(s) + multiset{x}
    decreases |s|
  {
    if s == [] then [x]
    else if le(x, s[0]) then [x] + s
    else
      assert s == [s[0]] + s[1..];
      [s[0]] + Insert(x, s[1..], le)
  }

  /** `Array.prototype.sort` with a comparator, as an insertion sort. */
  function Sort(s: seq<string>, le: (string, string) -> bool): (r: seq<string>)
    ensures multiset(r) == multiset(s)
    decreases |s|
  {
    if s == [] then []
    else
      assert s == [s[0]] + s[1..];
      Insert(s[0], Sort(s[1..], le), le)
  }

  lemma {:induction false} InsertSorted(x: string, s: seq<string>, le: (string, string) -> bool)
    requires TotalPreorder(le) && SortedBy(s, le)
    ensures SortedBy(Insert(x, s, le), le)
    decreases |s|
  {
    if s != [] && !le(x, s[0]) {
      var t := Insert(x, s[1..], le);
      InsertSorted(x, s[1..], le);
      assert le(s[0], x);
      forall j | 0 <= j < |t| ensures le(s[0], t[j]) {
        assert t[j] in multiset(t);
        assert t[j] == x || t[j] in multiset(s[1..]);
        if t[j] != x {
          var m :| 0 <= m < |s[1..]| && s[1..][m] == t[j];
          assert s[m + 1] == t[j];
        }
      }
      var r := [s[0]] + t;
      forall i, j | 0 <= i < j < |r| ensures le(r[i], r[j]) {
        if i == 0 {
          assert r[j] == t[j - 1];
        } else {
          assert r[i] == t[i - 1] && r[j] == t[j - 1];
        }
      }
    }
  }

  lemma {:induction false} SortSorted(s: seq<string>, le: (string, string) -> bool)
    requires TotalPreorder(le)
    ensures SortedBy(Sort(s, le), le)
    decreases |s|
  {
    if s != [] {
      SortSorted(s[1..], le);
      InsertSorted(s[0], Sort(s[1..], le), le);
    }
  }

  lemma SortKeepsDistinct(s: seq<string>, le: (string, string) -> bool)
    requires NoDuplicates(s)
    ensures NoDuplicates(Sort(s, le))
    ensures forall x :: x in Sort(s, le) <==> x in s
  {
    var r := Sort(s, le);
    assert forall x :: x in r <==> x in multiset(r);
    assert forall x :: x in s <==> x in multiset(s);
    DistinctMultiset(s);
    MultisetAtMostOnce(r);
  }

  lemma {:induction false} DistinctMultiset(s: seq<string>)
    requires NoDuplicates(s)
    ensures forall x :: multiset(s)[x] <= 1
    decreases |s|
  {
    if s != [] {
      assert NoDuplicates(s[1..]);
      DistinctMultiset(s[1..]);
      assert s == [s[0]] + s[1..];
      assert multiset(s) == multiset{s[0]} + multiset(s[1..]);
      assert s[0] !in s[1..];
    }
  }

  lemma {:induction false} MultisetAtMostOnce(s: seq<string>)
    requires forall x :: multiset(s)[x] <= 1
    ensures NoDuplicates(s)
    decreases |s|
  {
    if s != [] {
      assert s == [s[0]] + s[1..];
      assert multiset(s) == multiset{s[0]} + multiset(s[1..]);
      assert forall x :: multiset(s[1..])[x] <= multiset(s)[x];
      MultisetAtMostOnce(s[1..]);
      assert multiset(s[1..])[s[0]] == 0;
      forall j | 0 < j < |s| ensures s[0] != s[j] {
        assert s[j] == s[1..][j - 1];
      }
    }
  }

  function NonEmpty(): string -> bool {
    s => s != ""
  }

  function NumericOnly(isNumeric: string -> bool): string -> bool {
    s => isNumeric(s)
  }

  function NonNumericOnly(isNumeric: string -> bool): string -> bool {
    s => !isNumeric(s)
  }

  function ByNumber(numValue: string -> real): (string, string) -> bool {
    (a, b) => numValue(a) <= numValue(b)
  }

  /** The non-empty size entries of all products, repeats included. */
  function SizeRaw(products: seq<Product>): seq<string> {
    Filter(NonEmpty(), SizeEntries(products))
  }

  /** The distinct numeric sizes by ascending value. `isNumeric` stands for
      `!isNaN(Number(s))`, `numValue` for `Number(s)`. */
  function SizeNumbers(products: seq<Product>, isNumeric: string -> bool, numValue: string -> real): seq<string> {
    Sort(Dedup(Filter(NumericOnly(isNumeric), SizeRaw(products))), ByNumber(numValue))
  }

  /** The distinct other sizes in collation order; `collate` stands for
      `localeCompare(…, "tr") <= 0`. */
  function SizeLetters(products: seq<Product>, isNumeric: string -> bool, collate: (string, string) -> bool): seq<string> {
    Sort(Dedup(Filter(NonNumericOnly(isNumeric), SizeRaw(products))), collate)
  }

  /** `allSizes`: the distinct non-empty sizes, non-numeric ones first in
      collation order, then numeric ones by ascending value. */
  function AllSizes(products: seq<Product>, isNumeric: string -> bool, numValue: string -> real,
                    collate: (string, string) -> bool): seq<string>
  {
    SizeLetters(products, isNumeric, collate) + SizeNumbers(products, isNumeric, numValue)
  }

  /** A size entry is listed as raw iff it is non-empty and some product
      offers it. */
  lemma SizeRawMembers(products: seq<Product>, x: string)
    ensures x in SizeRaw(products) <==>
      x != "" && exists i :: 0 <= i < |products| && products[i].sizes.Some? && x in products[i].sizes.value
  {
    FilterMembership(NonEmpty(), SizeEntries(products), x);
    SizeEntriesMembers(products, x);
  }

  /** The numeric part: distinct, exactly the numeric raw sizes, ascending. */
  lemma SizeNumbersFacts(products: seq<Product>, isNumeric: string -> bool, numValue: string -> real)
    ensures NoDuplicates(SizeNumbers(products, isNumeric, numValue))
    ensures forall x :: x in SizeNumbers(products, isNumeric, numValue) <==> x in SizeRaw(products) && isNumeric(x)
    ensures SortedBy(SizeNumbers(products, isNumeric, numValue), ByNumber(numValue))
  {
    var raw := SizeRaw(products);
    var nums := Dedup(Filter(NumericOnly(isNumeric), raw));
    SortKeepsDistinct(nums, ByNumber(numValue));
    SortSorted(nums, ByNumber(numValue));
    forall x ensures x in nums <==> x in raw && isNumeric(x) {
      FilterMembership(NumericOnly(isNumeric), raw, x);
      DedupMembers(Filter(NumericOnly(isNumeric), raw), x);
    }
  }

  /** The other part: distinct, exactly the non-numeric raw sizes, in
      collation order. */
  lemma SizeLettersFacts(products: seq<Product>, isNumeric: string -> bool, collate: (string, string) -> bool)
    requires TotalPreorder(collate)
    ensures NoDuplicates(SizeLetters(products, isNumeric, collate))
    ensures forall x :: x in SizeLetters(products, isNumeric, collate) <==> x in SizeRaw(products) && !isNumeric(x)
    ensures SortedBy(SizeLetters(products, isNumeric, collate), collate)
  {
    var raw := SizeRaw(products);
    var lets := Dedup(Filter(NonNumericOnly(isNumeric), raw));
    SortKeepsDistinct(lets, collate);
    SortSorted(lets, collate);
    forall x ensures x in lets <==> x in raw && !isNumeric(x) {
      FilterMembership(NonNumericOnly(isNumeric), raw, x);
      DedupMembers(Filter(NonNumericOnly(isNumeric), raw), x);
    }
  }

  /** What `allSizes` lists, and in which order. */
  lemma AllSizesShape(products: seq<Product>, isNumeric: string -> bool, numValue: string -> real,
                      collate: (string, string) -> bool)
    requires TotalPreorder(collate)
    ensures NoDuplicates(AllSizes(products, isNumeric, numValue, collate))
    ensures forall x :: x in AllSizes(products, isNumeric, numValue, collate) <==>
      x != "" && exists i :: 0 <= i < |products| && products[i].sizes.Some? && x in products[i].sizes.value
    ensures var r := AllSizes(products, isNumeric, numValue, collate);
      forall i, j :: 0 <= i < j < |r| ==>
        && (isNumeric(r[i]) ==> isNumeric(r[j]))
        && (isNumeric(r[i]) && isNumeric(r[j]) ==> numValue(r[i]) <= numValue(r[j]))
        && (!isNumeric(r[i]) && !isNumeric(r[j]) ==> collate(r[i], r[j]))
  {
    var letters := SizeLetters(products, isNumeric, collate);
    var numbers := SizeNumbers(products, isNumeric, numValue);
    var r := letters + numbers;
    SizeNumbersFacts(products, isNumeric, numValue);
    SizeLettersFacts(products, isNumeric, collate);
    forall x ensures x in r <==>
      x != "" && exists i :: 0 <= i < |products| && products[i].sizes.Some? && x in products[i].sizes.value
    {
      SizeRawMembers(products, x);
    }
    forall i, j | 0 <= i < j < |r|
      ensures r[i] != r[j]
      ensures isNumeric(r[i]) ==> isNumeric(r[j])
      ensures isNumeric(r[i]) && isNumeric(r[j]) ==> numValue(r[i]) <= numValue(r[j])
      ensures !isNumeric(r[i]) && !isNumeric(r[j]) ==> collate(r[i], r[j])
    {
      if j < |letters| {
        assert r[i] == letters[i] && r[j] == letters[j];
      } else if i >= |letters| {
        assert r[i] == numbers[i - |letters|] && r[j] == numbers[j - |letters|];
      } else {
        assert r[i] in letters && r[j] in numbers;
      }
    }
  }

  lemma DedupMembers(s: seq<string>, x: string)
    ensures x in Dedup(s) <==> x in s
  {
    if x in s {
      var i :| 0 <= i < |s| && s[i] == x;
    }
  }

  /** `allColors`: the distinct colors (empty ones included) in first-occurrence order. */
  function AllColors(products: seq<Product>): seq<string> {
    Dedup(ColorEntries(products))
  }

  lemma AllColorsFacts(products: seq<Product>)
    ensures NoDuplicates(AllColors(products))
    ensures forall x :: x in AllColors(products) <==>
      exists i :: 0 <= i < |products| && products[i].colors.Some? && x in products[i].colors.value
    ensures IsSubsequence(AllColors(products), ColorEntries(products))
    ensures forall i, j :: 0 <= i < j < |AllColors(products)| ==>
      FirstIndex(ColorEntries(products), AllColors(products)[i]) <
      FirstIndex(ColorEntries(products), AllColors(products)[j])
  {
    forall x ensures x in AllColors(products) <==>
      exists i :: 0 <= i < |products| && products[i].colors.Some? && x in products[i].colors.value
    {
      DedupMembers(ColorEntries(products), x);
      ColorEntriesMembers(products, x);
    }
    DedupIsSubsequence(ColorEntries(products));
    DedupFirstOccurrenceOrder(ColorEntries(products));
  }

  /** The category chips: the distinct categories in first-occurrence order. */
  function Categories(products: seq<Product>): seq<string> {
    Dedup(CategoryEntries(products))
  }

  lemma CategoriesFacts(products: seq<Product>)
    ensures NoDuplicates(Categories(products))
    ensures forall x :: x in Categories(products) <==> exists i :: 0 <= i < |products| && products[i].category == x
    ensures forall i, j :: 0 <= i < j < |Categories(products)| ==>
      FirstIndex(CategoryEntries(products), Categories(products)[i]) <
      FirstIndex(CategoryEntries(products), Categories(products)[j])
  {
    var entries := CategoryEntries(products);
    forall x ensures x in Categories(products) <==> exists i :: 0 <= i < |products| && products[i].category == x {
      DedupMembers(entries, x);
      if exists i :: 0 <= i < |products| && products[i].category == x {
        var i :| 0 <= i < |products| && products[i].category == x;
        assert entries[i] == x;
      }
    }
    DedupFirstOccurrenceOrder(entries);
  }

  // ---------------------------------------------------------------------
  // Transitions of the filter state.

  /** A tap in a tag selector: its leading "Tümü" chip or one of its tags. */
  datatype TagTap = AllChip | TagChip(item: string)

  /** The selection after a tap: "Tümü" clears it to "", a selected tag is
      cleared to "", any other tag becomes the selection. */
  function TagPressed(selected: string, tap: TagTap): (r: string)
    ensures tap.AllChip? ==> r == ""
    ensures tap.TagChip? && selected == tap.item ==> r == ""
    ensures tap.TagChip? && selected != tap.item ==> r == tap.item
  {
    match tap
    case AllChip => ""
    case TagChip(item) => if selected == item then "" else item
  }

  /** Tapping the same tag twice returns to the selection "" whatever was
      selected before, unless that tag was itself selected, in which case
      it ends selected. */
  lemma TagPressedTwice(selected: string, item: string)
    ensures TagPressed(TagPressed(selected, TagChip(item)), TagChip(item)) == (if selected == item then item else "")
  {
  }

  /** A chip of the quick category row was tapped ("Tümü" is the all-chip). */
  function CategoryChipPressed(isAll: bool, name: string): (r: Option<string>)
    ensures isAll <==> r.None?
    ensures !isAll ==> r == Some(name)
  {
    if isAll then None else Some(name)
  }

  /** The dialog's "clear" button: resets its five fields only. */
  function Cleared(f: Filters): (r: Filters)
    ensures r.selectedCategory == f.selectedCategory && r.search == f.search
    ensures r.minPrice == Blank && r.maxPrice == Blank && r.size == "" && r.color == "" && r.category == ""
  {
    f.(minPrice := Blank, maxPrice := Blank, size := "", color := "", category := "")
  }

  /** After "clear", only the quick category and the search still filter. */
  lemma ClearedFiltersOnlyQuickAndSearch(products: seq<Product>, f: Filters, p: Product)
    ensures p in FilteredProducts(products, Cleared(f)) <==>
      p in products && QuickCategoryOk(p, f.selectedCategory) && SearchOk(p, f.search)
  {
  }
}
