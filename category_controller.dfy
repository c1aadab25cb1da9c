/** The category endpoints (server/Controller/categoryController.js): adding a
    category, listing categories with the number of menu items in each, and
    deleting a category together with its menu items. */
module CategoryController {
  import opened Wrappers
  import opened Records
  import MenuController

  /** A category as getCategories returns it: `{...cat, itemCount}`. */
  datatype CategoryWithCount = CategoryWithCount(id: Id, name: string, itemCount: nat)

  /** `Menu.countDocuments({category: id})`. */
  function ItemCount(items: seq<MenuItem>, id: Id): nat
  {
    if items == [] then 0 else (if items[0].category == id then 1 else 0) + ItemCount(items[1..], id)
  }

  /** The rows of getCategories, one per category, in table order. */
  function Rows(cats: seq<Category>, items: seq<MenuItem>): (r: seq<CategoryWithCount>)
    ensures |r| == |cats|
    ensures forall i :: 0 <= i < |r| ==>
      r[i].id == cats[i].id && r[i].name == cats[i].name && r[i].itemCount == ItemCount(items, cats[i].id)
  {
    if cats == [] then []
    else [CategoryWithCount(cats[0].id, cats[0].name, ItemCount(items, cats[0].id))] + Rows(cats[1..], items)
  }

  function SumCounts(rows: seq<CategoryWithCount>): nat
  {
    if rows == [] then 0 else rows[0].itemCount + SumCounts(rows[1..])
  }

  /** The number of categories with id `id` (0 or 1 under the unique index). */
  function Hits(cats: seq<Category>, id: Id): nat
  {
    if cats == [] then 0 else (if cats[0].id == id then 1 else 0) + Hits(cats[1..], id)
  }

  /** The number of menu items whose category exists. */
  function Linked(items: seq<MenuItem>, cats: seq<Category>): nat
  {
    if items == [] then 0
    else (if FindBy(cats, CategoryId, items[0].category).Some? then 1 else 0) + Linked(items[1..], cats)
  }

  lemma {:induction false} RowsOfNoItems(cats: seq<Category>)
    ensures SumCounts(Rows(cats, [])) == 0
  {
    if cats != [] {
      RowsOfNoItems(cats[1..]);
    }
  }

  lemma {:induction false} RowsOfOneMore(cats: seq<Category>, m: MenuItem, items: seq<MenuItem>)
    ensures SumCounts(Rows(cats, [m] + items)) == Hits(cats, m.category) + SumCounts(Rows(cats, items))
  {
    if cats != [] {
      RowsOfOneMore(cats[1..], m, items);
      assert ([m] + items)[1..] == items;
    }
  }

  lemma {:induction false} HitsUnique(cats: seq<Category>, id: Id)
    requires CategoryIdsUnique(cats)
    ensures Hits(cats, id) == if FindBy(cats, CategoryId, id).Some? then 1 else 0
  {
    if cats != [] {
      var rest := cats[1..];
      forall i, j | 0 <= i < j < |rest| ensures CategoryId(rest[i]) != CategoryId(rest[j]) {
        assert rest[i] == cats[i + 1] && rest[j] == cats[j + 1];
      }
      HitsUnique(rest, id);
      if cats[0].id == id {
        forall c | c in rest ensures c.id != id {
          var k :| 0 <= k < |rest| && rest[k] == c;
          assert CategoryId(cats[0]) != CategoryId(cats[k + 1]);
        }
      }
    }
  }

  /** The item counts of getCategories add up to the number of menu items whose
      category exists: no item is counted twice and none of those is missed. */
  lemma {:induction false} CountsAddUp(cats: seq<Category>, items: seq<MenuItem>)
    requires CategoryIdsUnique(cats)
    ensures SumCounts(Rows(cats, items)) == Linked(items, cats)
  {
    if items == [] {
      RowsOfNoItems(cats);
    } else {
      CountsAddUp(cats, items[1..]);
      assert items == [items[0]] + items[1..];
      RowsOfOneMore(cats, items[0], items[1..]);
      HitsUnique(cats, items[0].category);
    }
  }

  /** Every menu item refers to an existing category. */
  predicate ItemsReferTo(items: seq<MenuItem>, cats: seq<Category>)
  {
    forall m :: m in items ==> exists c :: c in cats && c.id == m.category
  }

  /** When every item refers to an existing category, the counts add up to the
      size of the menu. */
  lemma {:induction false} AllLinked(cats: seq<Category>, items: seq<MenuItem>)
    requires ItemsReferTo(items, cats)
    ensures Linked(items, cats) == |items|
  {
    if items != [] {
      assert items[0] in items;
      AllLinked(cats, items[1..]);
    }
  }

  /** The cascade empties the deleted category and leaves every other count alone. */
  lemma {:induction false} CascadeCounts(items: seq<MenuItem>, id: Id, other: Id)
    ensures ItemCount(Filter(items, (m: MenuItem) => m.category != id), other) ==
      if other == id then 0 else ItemCount(items, other)
  {
    if items != [] {
      CascadeCounts(items[1..], id, other);
      var rest := Filter(items[1..], (m: MenuItem) => m.category != id);
      if items[0].category != id {
        assert Filter(items, (m: MenuItem) => m.category != id) == [items[0]] + rest;
        assert ([items[0]] + rest)[1..] == rest;
      } else {
        assert Filter(items, (m: MenuItem) => m.category != id) == rest;
      }
    }
  }

  /** The cascade keeps the menu free of items whose category is gone. */
  lemma CascadeKeepsReferences(items: seq<MenuItem>, cats: seq<Category>, id: Id)
    requires ItemsReferTo(items, cats)
    ensures ItemsReferTo(Filter(items, (m: MenuItem) => m.category != id),
                         Filter(cats, (c: Category) => c.id != id))
  {
    var after := Filter(cats, (c: Category) => c.id != id);
    forall m | m in Filter(items, (m: MenuItem) => m.category != id)
      ensures exists c :: c in after && c.id == m.category
    {
      var c :| c in cats && c.id == m.category;
      assert c in after;
    }
  }

  class CategoryStore {
    var categories: seq<Category>
    const menu: MenuController.MenuStore

    /** Ids and names are unique (the category schema's unique name index), and
        the menu collection is well formed. */
    ghost predicate Valid()
      reads this, menu
    {
      CategoryIdsUnique(categories) && CategoryNamesUnique(categories) && menu.Valid()
    }

    constructor (menu: MenuController.MenuStore)
      requires menu.Valid()
      ensures Valid() && categories == [] && this.menu == menu
    {
      this.categories := [];
      this.menu := menu;
    }

    /** addCategory: an empty name is refused, and so is a name already taken
        (the store's duplicate-key error, code 11000). `id` stands for the fresh `_id`. */
    method AddCategory(id: Id, name: string) returns (r: Reply<Category>)
      requires Valid()
      requires forall c :: c in categories ==> c.id != id
      modifies this
      ensures Valid()
      ensures name == "" ==> r == Failure("Category name is required") && categories == old(categories)
      ensures name != "" && (exists c :: c in old(categories) && c.name == name) ==>
        r == Failure("Category already exists") && categories == old(categories)
      ensures name != "" && (forall c :: c in old(categories) ==> c.name != name) ==>
        r == Success("Category added successfully", Category(id, name)) &&
        categories == old(categories) + [Category(id, name)]
    {
      if name == "" {
        r := Failure("Category name is required");
        return;
      }
      if FindBy(categories, CategoryName, name).Some? {
        r := Failure("Category already exists");
        return;
      }
      var c := Category(id, name);
      ghost var before := categories;
      categories := categories + [c];
      forall i, j | 0 <= i < j < |categories|
        ensures categories[i].id != categories[j].id && categories[i].name != categories[j].name
      {
        if j < |before| {
          assert CategoryId(before[i]) != CategoryId(before[j]);
          assert CategoryName(before[i]) != CategoryName(before[j]);
        } else {
          assert before[i] in before;
        }
      }
      r := Success("Category added successfully", c);
    }

    /** getCategories: every category with the number of menu items that refer to it. */
    function GetCategories(): (r: seq<CategoryWithCount>)
      reads this, menu
      requires Valid()
      ensures SumCounts(r) == Linked(menu.items, categories)
      ensures |r| == |categories|
      ensures forall i :: 0 <= i < |r| ==>
        r[i].id == categories[i].id && r[i].name == categories[i].name &&
        r[i].itemCount == ItemCount(menu.items, categories[i].id)
    {
      CountsAddUp(categories, menu.items);
      Rows(categories, menu.items)
    }

    /** deleteCategory: removes the menu items of the category, then the category;
        reports success whether or not the category existed. */
    method DeleteCategory(id: Id) returns (r: Reply<()>)
      requires Valid()
      modifies this, menu
      ensures Valid()
      ensures r == Success("Category and associated items deleted successfully", ())
      ensures menu.items == Filter(old(menu.items), (m: MenuItem) => m.category != id)
      ensures categories == Filter(old(categories), (c: Category) => c.id != id)
      ensures ItemCount(menu.items, id) == 0
      ensures forall other :: other != id ==> ItemCount(menu.items, other) == ItemCount(old(menu.items), other)
    {
      FilterKeepsKeysUnique(menu.items, (m: MenuItem) => m.category != id, MenuItemId);
      forall other ensures ItemCount(Filter(menu.items, (m: MenuItem) => m.category != id), other) ==
        if other == id then 0 else ItemCount(menu.items, other)
      {
        CascadeCounts(menu.items, id, other);
      }
      menu.items := Filter(menu.items, (m: MenuItem) => m.category != id);
      FilterKeepsKeysUnique(categories, (c: Category) => c.id != id, CategoryId);
      FilterKeepsKeysUnique(categories, (c: Category) => c.id != id, CategoryName);
      categories := Filter(categories, (c: Category) => c.id != id);
      r := Success("Category and associated items deleted successfully", ());
    }
  }
}
