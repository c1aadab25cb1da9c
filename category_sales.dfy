/** Category popularity of the dashboard (server/Controller/dashboardController.js,
    getDashboardStats): two lookup tables built from the menu and the categories,
    a counter seeded with every category name and bumped once per resolvable cart
    line, projected to `{name, sales}` and sorted by sales, largest first. */
module CategorySales {
  import opened Wrappers
  import opened Records
  import Sorting

  /** `menuCategoryMap`: menu item id to category id; a later item with the same id wins. */
  function MenuCategoryMap(items: seq<MenuItem>): map<Id, Id>
  {
    if items == [] then map[]
    else
      var last := items[|items| - 1];
      MenuCategoryMap(items[..|items| - 1])[last.id := last.category]
  }

  /** `categoryNameMap`: category id to category name; a later category with the same id wins. */
  function CategoryNameMap(cats: seq<Category>): map<Id, string>
  {
    if cats == [] then map[]
    else
      var last := cats[|cats| - 1];
      CategoryNameMap(cats[..|cats| - 1])[last.id := last.name]
  }

  /** The menu lookup knows the id of every menu item, and no other id. */
  lemma {:induction false} MenuCategoryMapKeys(items: seq<MenuItem>)
    ensures forall i :: 0 <= i < |items| ==> items[i].id in MenuCategoryMap(items)
    ensures forall id :: id in MenuCategoryMap(items) ==> exists i :: 0 <= i < |items| && items[i].id == id
  {
    if items != [] {
      var init := items[..|items| - 1];
      MenuCategoryMapKeys(init);
      assert forall i :: 0 <= i < |init| ==> init[i] == items[i];
    }
  }

  /** On a menu with unique ids, the lookup gives each item's own category. */
  lemma {:induction false} MenuCategoryMapValues(items: seq<MenuItem>)
    requires MenuIdsUnique(items)
    ensures forall i :: 0 <= i < |items| ==>
      items[i].id in MenuCategoryMap(items) && MenuCategoryMap(items)[items[i].id] == items[i].category
  {
    if items != [] {
      var init := items[..|items| - 1];
      MenuCategoryMapValues(init);
      assert forall i :: 0 <= i < |init| ==> init[i] == items[i];
    }
  }

  /** The category lookup knows the id of every category, and no other id; the
      name it gives for an id is the name of a category with that id. */
  lemma {:induction false} CategoryNameMapKeys(cats: seq<Category>)
    ensures forall i :: 0 <= i < |cats| ==> cats[i].id in CategoryNameMap(cats)
    ensures forall id :: id in CategoryNameMap(cats) ==>
      exists i :: 0 <= i < |cats| && cats[i].id == id && cats[i].name == CategoryNameMap(cats)[id]
  {
    if cats != [] {
      var init := cats[..|cats| - 1];
      CategoryNameMapKeys(init);
      assert forall i :: 0 <= i < |init| ==> init[i] == cats[i];
    }
  }

  /** On unique ids, the lookup gives each category's own name. */
  lemma {:induction false} CategoryNameMapValues(cats: seq<Category>)
    requires CategoryIdsUnique(cats)
    ensures forall i :: 0 <= i < |cats| ==>
      cats[i].id in CategoryNameMap(cats) && CategoryNameMap(cats)[cats[i].id] == cats[i].name
  {
    if cats != [] {
      var init := cats[..|cats| - 1];
      CategoryNameMapValues(init);
      assert forall i :: 0 <= i < |init| ==> init[i] == cats[i];
    }
  }

  /** `menuItems.forEach(item => menuCategoryMap[item._id] = item.category)`. */
  method BuildMenuCategoryMap(items: seq<MenuItem>) returns (m: map<Id, Id>)
    ensures m == MenuCategoryMap(items)
  {
    m := map[];
    var i := 0;
    while i < |items|
      invariant 0 <= i <= |items|
      invariant m == MenuCategoryMap(items[..i])
    {
      assert items[..i + 1][..i] == items[..i];
      m := m[items[i].id := items[i].category];
      i := i + 1;
    }
    assert items[..i] == items;
  }

  /** `categories.forEach(cat => categoryNameMap[cat._id] = cat.name)`. */
  method BuildCategoryNameMap(cats: seq<Category>) returns (m: map<Id, string>)
    ensures m == CategoryNameMap(cats)
  {
    m := map[];
    var i := 0;
    while i < |cats|
      invariant 0 <= i <= |cats|
      invariant m == CategoryNameMap(cats[..i])
    {
      assert cats[..i + 1][..i] == cats[..i];
      m := m[cats[i].id := cats[i].name];
      i := i + 1;
    }
    assert cats[..i] == cats;
  }

  datatype Lookups = Lookups(menuCategory: map<Id, Id>, categoryName: map<Id, string>)

  function LookupsOf(items: seq<MenuItem>, cats: seq<Category>): Lookups
  {
    Lookups(MenuCategoryMap(items), CategoryNameMap(cats))
  }

  /** The category a cart line sells for, if both hops resolve; the source's
      truthiness tests `if (catId)` and `if (catName)` also skip empty strings. */
  function Resolve(line: CartItem, lk: Lookups): Option<string>
  {
    if line.id in lk.menuCategory && lk.menuCategory[line.id] != "" then
      var catId := lk.menuCategory[line.id];
      if catId in lk.categoryName && lk.categoryName[catId] != "" then Some(lk.categoryName[catId])
      else None
    else None
  }

  /** On a menu and category table with unique ids, a line resolves to `name`
      exactly when it names a menu item whose category exists and is called `name`. */
  lemma ResolveMeaning(line: CartItem, items: seq<MenuItem>, cats: seq<Category>, name: string)
    requires MenuIdsUnique(items) && CategoryIdsUnique(cats)
    ensures Resolve(line, LookupsOf(items, cats)) == Some(name) <==>
      name != "" &&
      exists i, j :: 0 <= i < |items| && 0 <= j < |cats| && items[i].id == line.id &&
        items[i].category != "" && cats[j].id == items[i].category && cats[j].name == name
  {
    MenuCategoryMapKeys(items);
    MenuCategoryMapValues(items);
    CategoryNameMapKeys(cats);
    CategoryNameMapValues(cats);
  }

  /** Every cart line of every order, in order. */
  function Lines(orders: seq<Order>): seq<CartItem>
  {
    if orders == [] then [] else Lines(orders[..|orders| - 1]) + orders[|orders| - 1].cartItems
  }

  /** Units the dashboard counts for `name`: one per cart line resolving to it,
      whatever the line's quantity. */
  function SalesOf(lines: seq<CartItem>, lk: Lookups, name: string): nat
  {
    if lines == [] then 0
    else SalesOf(lines[..|lines| - 1], lk, name) + (if Resolve(lines[|lines| - 1], lk) == Some(name) then 1 else 0)
  }

  /** Number of cart lines that resolve to some category. */
  function Resolvable(lines: seq<CartItem>, lk: Lookups): nat
  {
    if lines == [] then 0
    else Resolvable(lines[..|lines| - 1], lk) + (if Resolve(lines[|lines| - 1], lk).Some? then 1 else 0)
  }

  /** A line adds exactly one to the count of the category it resolves to, and
      nothing to any other. */
  lemma LineAddsOne(lines: seq<CartItem>, line: CartItem, lk: Lookups, name: string)
    ensures SalesOf(lines + [line], lk, name) == SalesOf(lines, lk, name) + (if Resolve(line, lk) == Some(name) then 1 else 0)
  {
    assert (lines + [line])[..|lines|] == lines;
  }

  /** Only names the category lookup gives out are ever counted. */
  lemma {:induction false} SalesOnlyForKnownNames(lines: seq<CartItem>, lk: Lookups, name: string)
    requires SalesOf(lines, lk, name) > 0
    ensures name in lk.categoryName.Values && name != ""
  {
    var last := lines[|lines| - 1];
    if Resolve(last, lk) != Some(name) {
      SalesOnlyForKnownNames(lines[..|lines| - 1], lk, name);
    } else {
      assert lk.categoryName[lk.menuCategory[last.id]] == name;
    }
  }

  /** The JavaScript object `categorySalesMap`: counters keyed by name, with the
      keys in insertion order as `Object.keys` lists them. */
  datatype Counter = Counter(keys: seq<string>, counts: map<string, int>)

  ghost predicate ValidCounter(c: Counter)
  {
    && (forall i, j :: 0 <= i < j < |c.keys| ==> c.keys[i] != c.keys[j])
    && (forall k :: k in c.counts <==> k in c.keys)
  }

  /** `obj[k] = v`: a new key goes to the end of the key order. */
  function Put(c: Counter, k: string, v: int): Counter
  {
    if k in c.counts then Counter(c.keys, c.counts[k := v])
    else Counter(c.keys + [k], c.counts[k := v])
  }

  /** `obj[k] = (obj[k] || 0) + 1`. */
  function Bump(c: Counter, k: string): Counter
  {
    Put(c, k, (if k in c.counts then c.counts[k] else 0) + 1)
  }

  function Names(cats: seq<Category>): (r: seq<string>)
    ensures |r| == |cats| && forall i :: 0 <= i < |cats| ==> r[i] == cats[i].name
  {
    seq(|cats|, i requires 0 <= i < |cats| => cats[i].name)
  }

  /** The names of `s` in order of first occurrence. */
  function Dedup(s: seq<string>): seq<string>
  {
    if s == [] then []
    else
      var d := Dedup(s[..|s| - 1]);
      if s[|s| - 1] in d then d else d + [s[|s| - 1]]
  }

  lemma {:induction false} DedupMeaning(s: seq<string>)
    ensures forall x :: x in Dedup(s) <==> x in s
    ensures forall i, j :: 0 <= i < j < |Dedup(s)| ==> Dedup(s)[i] != Dedup(s)[j]
    ensures (forall i, j :: 0 <= i < j < |s| ==> s[i] != s[j]) ==> Dedup(s) == s
  {
    if s != [] {
      var init := s[..|s| - 1];
      DedupMeaning(init);
      assert s == init + [s[|s| - 1]];
    }
  }

  /** `categories.forEach(cat => categorySalesMap[cat.name] = 0)`. */
  method SeedSales(cats: seq<Category>) returns (c: Counter)
    ensures ValidCounter(c)
    ensures c.keys == Dedup(Names(cats))
    ensures forall k :: k in c.counts ==> c.counts[k] == 0
  {
    c := Counter([], map[]);
    var i := 0;
    while i < |cats|
      invariant 0 <= i <= |cats|
      invariant ValidCounter(c)
      invariant c.keys == Dedup(Names(cats)[..i])
      invariant forall k :: k in c.counts ==> c.counts[k] == 0
    {
      assert Names(cats)[..i + 1][..i] == Names(cats)[..i];
      c := Put(c, cats[i].name, 0);
      i := i + 1;
    }
    assert Names(cats)[..i] == Names(cats);
  }

  /** The keys after a tally: the seed's keys first, then only names with sales. */
  ghost predicate KeysExtend(c: Counter, seed: Counter, lines: seq<CartItem>, lk: Lookups)
  {
    && ValidCounter(c)
    && |seed.keys| <= |c.keys| && c.keys[..|seed.keys|] == seed.keys
    && (forall k :: |seed.keys| <= k < |c.keys| ==> SalesOf(lines, lk, c.keys[k]) > 0)
  }

  /** The counts after a tally: the seed's count plus the lines resolving to the name. */
  ghost predicate CountsMatch(c: Counter, seed: Counter, lines: seq<CartItem>, lk: Lookups)
  {
    && (forall n :: n in c.counts ==>
          c.counts[n] == (if n in seed.counts then seed.counts[n] else 0) + SalesOf(lines, lk, n))
    && (forall n :: n !in c.counts ==> SalesOf(lines, lk, n) == 0)
  }

  /** What the tally promises after the lines `lines`, starting from `seed`. */
  ghost predicate Tallied(c: Counter, seed: Counter, lines: seq<CartItem>, lk: Lookups)
  {
    KeysExtend(c, seed, lines, lk) && CountsMatch(c, seed, lines, lk)
  }

  lemma PutValid(c: Counter, k: string, v: int)
    requires ValidCounter(c)
    ensures ValidCounter(Put(c, k, v))
    ensures Put(c, k, v).keys == c.keys || Put(c, k, v).keys == c.keys + [k]
    ensures k !in c.counts ==> Put(c, k, v).keys == c.keys + [k]
  {
  }

  lemma SalesStep(lines: seq<CartItem>, line: CartItem, lk: Lookups)
    ensures forall n :: SalesOf(lines + [line], lk, n) ==
                        SalesOf(lines, lk, n) + (if Resolve(line, lk) == Some(n) then 1 else 0)
  {
    forall n
      ensures SalesOf(lines + [line], lk, n) == SalesOf(lines, lk, n) + (if Resolve(line, lk) == Some(n) then 1 else 0)
    {
      LineAddsOne(lines, line, lk, n);
    }
  }

  /** A line that resolves nowhere changes no count. */
  lemma TallySkip(c: Counter, seed: Counter, lines: seq<CartItem>, line: CartItem, lk: Lookups)
    requires Tallied(c, seed, lines, lk) && Resolve(line, lk).None?
    ensures Tallied(c, seed, lines + [line], lk)
  {
    SalesStep(lines, line, lk);
  }

  /** Bumping keeps the key order: old keys first, a new name at the end. */
  lemma TallyBumpKeys(c: Counter, seed: Counter, lines: seq<CartItem>, line: CartItem, lk: Lookups, name: string)
    requires KeysExtend(c, seed, lines, lk) && Resolve(line, lk) == Some(name)
    ensures KeysExtend(Bump(c, name), seed, lines + [line], lk)
  {
    var c' := Bump(c, name);
    BumpKeys(c, name);
    assert c'.keys[..|seed.keys|] == seed.keys by {
      assert c'.keys[..|seed.keys|] == c'.keys[..|c.keys|][..|seed.keys|];
    }
    forall k | |seed.keys| <= k < |c'.keys| ensures SalesOf(lines + [line], lk, c'.keys[k]) > 0 {
      LineAddsOne(lines, line, lk, c'.keys[k]);
      if k < |c.keys| {
        assert c'.keys[k] == c.keys[k];
      }
    }
  }

  /** Bumping keeps the existing keys in place and may append `name`. */
  lemma BumpKeys(c: Counter, name: string)
    requires ValidCounter(c)
    ensures ValidCounter(Bump(c, name))
    ensures |c.keys| <= |Bump(c, name).keys| <= |c.keys| + 1
    ensures Bump(c, name).keys[..|c.keys|] == c.keys
    ensures |Bump(c, name).keys| > |c.keys| ==> Bump(c, name).keys[|c.keys|] == name
  {
    PutValid(c, name, (if name in c.counts then c.counts[name] else 0) + 1);
  }

  /** Bumping adds one to the count of `name` and to no other. */
  lemma TallyBumpCounts(c: Counter, seed: Counter, lines: seq<CartItem>, line: CartItem, lk: Lookups, name: string)
    requires ValidCounter(seed) && Tallied(c, seed, lines, lk) && Resolve(line, lk) == Some(name)
    ensures CountsMatch(Bump(c, name), seed, lines + [line], lk)
  {
    SalesStep(lines, line, lk);
    forall n | n in seed.counts ensures n in c.counts {
      var k :| 0 <= k < |seed.keys| && seed.keys[k] == n;
      assert c.keys[k] == n;
    }
  }

  /** The inner `forEach` over one order's cart lines. */
  method TallyLines(c0: Counter, seed: Counter, ghost done: seq<CartItem>, items: seq<CartItem>, lk: Lookups)
    returns (c: Counter)
    requires ValidCounter(seed) && Tallied(c0, seed, done, lk)
    ensures Tallied(c, seed, done + items, lk)
  {
    c := c0;
    var j := 0;
    assert done + items[..0] == done;
    while j < |items|
      invariant 0 <= j <= |items|
      invariant Tallied(c, seed, done + items[..j], lk)
    {
      assert done + items[..j + 1] == done + items[..j] + [items[j]];
      var name := Resolve(items[j], lk);
      if name.Some? {
        TallyBumpKeys(c, seed, done + items[..j], items[j], lk, name.value);
        TallyBumpCounts(c, seed, done + items[..j], items[j], lk, name.value);
        c := Bump(c, name.value);
      } else {
        TallySkip(c, seed, done + items[..j], items[j], lk);
      }
      j := j + 1;
    }
    assert items[..j] == items;
  }

  /** The outer `forEach` over the orders. */
  method TallySales(orders: seq<Order>, lk: Lookups, seed: Counter) returns (c: Counter)
    requires ValidCounter(seed)
    ensures Tallied(c, seed, Lines(orders), lk)
  {
    c := seed;
    var i := 0;
    while i < |orders|
      invariant 0 <= i <= |orders|
      invariant Tallied(c, seed, Lines(orders[..i]), lk)
    {
      assert orders[..i + 1][..i] == orders[..i];
      c := TallyLines(c, seed, Lines(orders[..i]), orders[i].cartItems, lk);
      i := i + 1;
    }
    assert orders[..i] == orders;
  }

  /** One entry of `categoryData`. */
  datatype CategorySale = CategorySale(name: string, sales: int)

  function SalesKey(s: CategorySale): int { s.sales }

  /** `Object.keys(categorySalesMap).map(name => ({name, sales: categorySalesMap[name]}))`. */
  function Project(c: Counter): (r: seq<CategorySale>)
    requires ValidCounter(c)
    ensures |r| == |c.keys|
  {
    seq(|c.keys|, i requires 0 <= i < |c.keys| => CategorySale(c.keys[i], c.counts[c.keys[i]]))
  }

  /** One entry per name, counting the lines resolving to it. */
  function SalesTable(names: seq<string>, lines: seq<CartItem>, lk: Lookups): (r: seq<CategorySale>)
    ensures |r| == |names|
  {
    seq(|names|, i requires 0 <= i < |names| => CategorySale(names[i], SalesOf(lines, lk, names[i])))
  }

  /** `categoryData` as a value: every distinct category name, in first-occurrence
      order, with its sales, sorted by sales, largest first, ties in that order. */
  function CategoryData(orders: seq<Order>, items: seq<MenuItem>, cats: seq<Category>): seq<CategorySale>
  {
    Sorting.SortDesc(SalesTable(Dedup(Names(cats)), Lines(orders), LookupsOf(items, cats)), SalesKey)
  }

  /** The resolvable names all have seed keys, so the tally adds no key. */
  lemma NoNewKeys(c: Counter, seed: Counter, lines: seq<CartItem>, cats: seq<Category>, items: seq<MenuItem>)
    requires ValidCounter(seed) && seed.keys == Dedup(Names(cats))
    requires Tallied(c, seed, lines, LookupsOf(items, cats))
    ensures c.keys == seed.keys
  {
    if |c.keys| > |seed.keys| {
      var n := c.keys[|seed.keys|];
      var lk := LookupsOf(items, cats);
      SalesOnlyForKnownNames(lines, lk, n);
      CategoryNameMapKeys(cats);
      var id :| id in lk.categoryName && lk.categoryName[id] == n;
      var i :| 0 <= i < |cats| && cats[i].id == id && cats[i].name == n;
      DedupMeaning(Names(cats));
      assert false;
    }
    assert c.keys == c.keys[..|seed.keys|];
  }

  /** A tally that added no key, from a seed of zeros, projects to the sales table
      of the seed's names. */
  lemma ProjectIsTable(c: Counter, seed: Counter, lines: seq<CartItem>, lk: Lookups)
    requires ValidCounter(seed) && forall k :: k in seed.counts ==> seed.counts[k] == 0
    requires Tallied(c, seed, lines, lk) && c.keys == seed.keys
    ensures Project(c) == SalesTable(seed.keys, lines, lk)
  {
    forall i | 0 <= i < |c.keys|
      ensures Project(c)[i] == SalesTable(seed.keys, lines, lk)[i]
    {
      assert c.keys[i] in seed.counts;
    }
  }

  /** The dashboard's category popularity: lookups, seed, tally, projection and
      the in-place sort. */
  method BuildCategoryData(orders: seq<Order>, items: seq<MenuItem>, cats: seq<Category>)
    returns (data: seq<CategorySale>)
    ensures data == CategoryData(orders, items, cats)
  {
    var menuCategory := BuildMenuCategoryMap(items);
    var categoryName := BuildCategoryNameMap(cats);
    var lk := Lookups(menuCategory, categoryName);
    var seed := SeedSales(cats);
    var c := TallySales(orders, lk, seed);
    NoNewKeys(c, seed, Lines(orders), cats, items);
    ProjectIsTable(c, seed, Lines(orders), lk);
    var table := Project(c);
    var a := new CategorySale[|table|](i requires 0 <= i < |table| => table[i]);
    assert a[..] == table;
    Sorting.SortInPlace(a, SalesKey);
    data := a[..];
  }

  /** Every name a cart line can resolve to is the name of a category. */
  lemma ResolvedNamesAreCategories(line: CartItem, items: seq<MenuItem>, cats: seq<Category>)
    requires Resolve(line, LookupsOf(items, cats)).Some?
    ensures exists j :: 0 <= j < |cats| && cats[j].name == Resolve(line, LookupsOf(items, cats)).value
  {
    CategoryNameMapKeys(cats);
  }

  /** `categoryData` is sorted by sales, largest first. */
  lemma CategoryDataSorted(orders: seq<Order>, items: seq<MenuItem>, cats: seq<Category>)
    ensures Sorting.SortedDesc(CategoryData(orders, items, cats), SalesKey)
  {
    Sorting.SortDescSorted(SalesTable(Dedup(Names(cats)), Lines(orders), LookupsOf(items, cats)), SalesKey);
  }

  /** The table has one entry per name, carrying that name's sales. */
  lemma TableEntries(names: seq<string>, lines: seq<CartItem>, lk: Lookups)
    ensures forall e :: e in SalesTable(names, lines, lk) <==>
      e.name in names && e.sales == SalesOf(lines, lk, e.name)
  {
    var table := SalesTable(names, lines, lk);
    forall e: CategorySale | e.name in names && e.sales == SalesOf(lines, lk, e.name)
      ensures e in table
    {
      var k :| 0 <= k < |names| && names[k] == e.name;
      assert table[k] == e;
    }
  }

  /** Sorting keeps exactly the entries it was given. */
  lemma SortedSameEntries(s: seq<CategorySale>)
    ensures forall e :: e in Sorting.SortDesc(s, SalesKey) <==> e in s
  {
    Sorting.SortDescPermutes(s, SalesKey);
    forall e ensures e in Sorting.SortDesc(s, SalesKey) <==> e in s {
      assert e in Sorting.SortDesc(s, SalesKey) <==> e in multiset(Sorting.SortDesc(s, SalesKey));
      assert e in s <==> e in multiset(s);
    }
  }

  /** `categoryData` names every category, names nothing else, and gives each name
      the number of cart lines resolving to it. */
  lemma CategoryDataEntries(orders: seq<Order>, items: seq<MenuItem>, cats: seq<Category>)
    ensures forall e :: e in CategoryData(orders, items, cats) <==>
      (exists j :: 0 <= j < |cats| && cats[j].name == e.name) &&
      e.sales == SalesOf(Lines(orders), LookupsOf(items, cats), e.name)
  {
    var names := Dedup(Names(cats));
    TableEntries(names, Lines(orders), LookupsOf(items, cats));
    SortedSameEntries(SalesTable(names, Lines(orders), LookupsOf(items, cats)));
    DedupMeaning(Names(cats));
    forall n ensures n in names <==> exists j :: 0 <= j < |cats| && cats[j].name == n {
      if n in Names(cats) {
        var j :| 0 <= j < |cats| && Names(cats)[j] == n;
      }
    }
  }

  predicate DistinctNames(s: seq<CategorySale>)
  {
    forall i, j :: 0 <= i < j < |s| ==> s[i].name != s[j].name
  }

  lemma {:induction false} InsertKeepsNamesDistinct(x: CategorySale, s: seq<CategorySale>)
    requires DistinctNames(s) && forall i :: 0 <= i < |s| ==> s[i].name != x.name
    ensures DistinctNames(Sorting.Insert(x, s, SalesKey))
  {
    if s != [] && SalesKey(s[|s| - 1]) < SalesKey(x) {
      var init, last := s[..|s| - 1], s[|s| - 1];
      InsertKeepsNamesDistinct(x, init);
      var r0 := Sorting.Insert(x, init, SalesKey);
      Sorting.InsertPermutes(x, init, SalesKey);
      forall i | 0 <= i < |r0| ensures r0[i].name != last.name {
        assert r0[i] in multiset(r0);
        if r0[i] != x {
          assert r0[i] in multiset(init);
          var k :| 0 <= k < |init| && init[k] == r0[i];
          assert s[k] == init[k];
        }
      }
    }
  }

  /** Sorting keeps the names distinct. */
  lemma {:induction false} SortKeepsNamesDistinct(s: seq<CategorySale>)
    requires DistinctNames(s)
    ensures DistinctNames(Sorting.SortDesc(s, SalesKey))
  {
    if s != [] {
      var init, last := s[..|s| - 1], s[|s| - 1];
      SortKeepsNamesDistinct(init);
      var sorted := Sorting.SortDesc(init, SalesKey);
      Sorting.SortDescPermutes(init, SalesKey);
      forall i | 0 <= i < |sorted| ensures sorted[i].name != last.name {
        assert sorted[i] in multiset(sorted);
        var k :| 0 <= k < |init| && init[k] == sorted[i];
        assert s[k] == init[k];
      }
      InsertKeepsNamesDistinct(last, sorted);
    }
  }

  /** Each category name appears once in `categoryData`. */
  lemma CategoryDataNamesDistinct(orders: seq<Order>, items: seq<MenuItem>, cats: seq<Category>)
    ensures DistinctNames(CategoryData(orders, items, cats))
  {
    DedupMeaning(Names(cats));
    SortKeepsNamesDistinct(SalesTable(Dedup(Names(cats)), Lines(orders), LookupsOf(items, cats)));
  }

  function SumSales(s: seq<CategorySale>): int
  {
    if s == [] then 0 else SumSales(s[..|s| - 1]) + s[|s| - 1].sales
  }

  lemma {:induction false} SumSalesInsert(x: CategorySale, s: seq<CategorySale>)
    ensures SumSales(Sorting.Insert(x, s, SalesKey)) == SumSales(s) + x.sales
  {
    var r := Sorting.Insert(x, s, SalesKey);
    if s == [] || SalesKey(s[|s| - 1]) >= SalesKey(x) {
      assert r[..|r| - 1] == s;
    } else {
      SumSalesInsert(x, s[..|s| - 1]);
      assert r[..|r| - 1] == Sorting.Insert(x, s[..|s| - 1], SalesKey);
    }
  }

  /** Sorting does not change the total. */
  lemma {:induction false} SumSalesSort(s: seq<CategorySale>)
    ensures SumSales(Sorting.SortDesc(s, SalesKey)) == SumSales(s)
  {
    if s != [] {
      SumSalesSort(s[..|s| - 1]);
      SumSalesInsert(s[|s| - 1], Sorting.SortDesc(s[..|s| - 1], SalesKey));
    }
  }

  lemma {:induction false} TableOfNoLines(names: seq<string>, lk: Lookups)
    ensures SumSales(SalesTable(names, [], lk)) == 0
  {
    if names != [] {
      TableOfNoLines(names[..|names| - 1], lk);
      assert SalesTable(names, [], lk)[..|names| - 1] == SalesTable(names[..|names| - 1], [], lk);
    }
  }

  /** The table's total is that of all names but the last, plus the last name's sales. */
  lemma TableSplit(names: seq<string>, lines: seq<CartItem>, lk: Lookups)
    requires names != []
    ensures SumSales(SalesTable(names, lines, lk)) ==
      SumSales(SalesTable(names[..|names| - 1], lines, lk)) + SalesOf(lines, lk, names[|names| - 1])
  {
    assert SalesTable(names, lines, lk)[..|names| - 1] == SalesTable(names[..|names| - 1], lines, lk);
  }

  /** Distinct names split into distinct earlier names and a last name not among them. */
  lemma SplitLast(names: seq<string>)
    requires names != [] && forall i, j :: 0 <= i < j < |names| ==> names[i] != names[j]
    ensures var init, last := names[..|names| - 1], names[|names| - 1];
      (forall i, j :: 0 <= i < j < |init| ==> init[i] != init[j]) &&
      last !in init && forall v :: v in names <==> v in init || v == last
  {
    var init := names[..|names| - 1];
    assert forall k :: 0 <= k < |init| ==> init[k] == names[k];
    assert names == init + [names[|names| - 1]];
  }

  /** Over distinct names, one more line adds one to the total exactly when it
      resolves to one of the names. */
  lemma {:induction false} TableStep(names: seq<string>, lines: seq<CartItem>, line: CartItem, lk: Lookups)
    requires forall i, j :: 0 <= i < j < |names| ==> names[i] != names[j]
    ensures SumSales(SalesTable(names, lines + [line], lk)) ==
      SumSales(SalesTable(names, lines, lk)) + (if Resolve(line, lk).Some? && Resolve(line, lk).value in names then 1 else 0)
  {
    if names != [] {
      var init, last := names[..|names| - 1], names[|names| - 1];
      SplitLast(names);
      TableStep(init, lines, line, lk);
      TableSplit(names, lines + [line], lk);
      TableSplit(names, lines, lk);
      LineAddsOne(lines, line, lk, last);
    }
  }

  /** Over distinct names that include every resolvable name, the table's total is
      the number of resolvable lines. */
  lemma {:induction false} TableTotal(names: seq<string>, lines: seq<CartItem>, lk: Lookups)
    requires forall i, j :: 0 <= i < j < |names| ==> names[i] != names[j]
    requires forall l :: l in lines && Resolve(l, lk).Some? ==> Resolve(l, lk).value in names
    ensures SumSales(SalesTable(names, lines, lk)) == Resolvable(lines, lk)
  {
    if lines == [] {
      TableOfNoLines(names, lk);
    } else {
      var init, last := lines[..|lines| - 1], lines[|lines| - 1];
      TableTotal(names, init, lk);
      assert init + [last] == lines;
      TableStep(names, init, last, lk);
    }
  }

  /** The sales in `categoryData` add up to the number of resolvable cart lines. */
  lemma CategoryDataTotal(orders: seq<Order>, items: seq<MenuItem>, cats: seq<Category>)
    ensures SumSales(CategoryData(orders, items, cats)) == Resolvable(Lines(orders), LookupsOf(items, cats))
  {
    var lk := LookupsOf(items, cats);
    var names := Dedup(Names(cats));
    DedupMeaning(Names(cats));
    forall l | l in Lines(orders) && Resolve(l, lk).Some? ensures Resolve(l, lk).value in names {
      ResolvedNamesAreCategories(l, items, cats);
      var j :| 0 <= j < |cats| && cats[j].name == Resolve(l, lk).value;
      assert Names(cats)[j] == cats[j].name;
    }
    TableTotal(names, Lines(orders), lk);
    SumSalesSort(SalesTable(names, Lines(orders), lk));
  }
}
