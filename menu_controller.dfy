/** The menu endpoints (server/Controller/menuController.js) over the Menu
    collection. Request fields are taken as already converted to the schema's
    types: text fields are strings (empty when falsy) and the price is a whole
    number, so the falsy-price test sees a numeric price of 0. */
module MenuController {
  import opened Wrappers
  import opened Records

  /** A menu item as getMenuItems returns it: the category id replaced by the
      category, or by nothing when no category has that id. */
  datatype PopulatedItem = PopulatedItem(item: MenuItem, category: Option<Category>)

  /** `!name || !category || !price`: the required-field test of addMenuItem, on
      an empty name or category and a numeric price of 0. */
  predicate MissingRequired(name: string, category: Id, price: int)
  {
    name == "" || category == "" || price == 0
  }

  /** `findByIdAndUpdate(id, {name, description, category, price, image})`. */
  function Overwrite(ms: seq<MenuItem>, id: Id, name: string, description: string, category: Id,
                     price: int, image: string): (r: seq<MenuItem>)
    ensures |r| == |ms|
  {
    seq(|ms|, i requires 0 <= i < |ms| =>
      if ms[i].id == id then MenuItem(id, name, description, category, price, image) else ms[i])
  }

  /** An update replaces the named item's five fields, keeps its id and position,
      and leaves every other item alone. */
  lemma OverwriteEffect(ms: seq<MenuItem>, id: Id, name: string, description: string, category: Id,
                        price: int, image: string)
    requires MenuIdsUnique(ms)
    ensures var r := Overwrite(ms, id, name, description, category, price, image);
      MenuIdsUnique(r) &&
      (forall i :: 0 <= i < |ms| && ms[i].id != id ==> r[i] == ms[i]) &&
      (forall i :: 0 <= i < |ms| && ms[i].id == id ==>
        r[i].id == id && r[i].name == name && r[i].description == description &&
        r[i].category == category && r[i].price == price && r[i].image == image)
  {
    var r := Overwrite(ms, id, name, description, category, price, image);
    forall i, j | 0 <= i < j < |r| ensures r[i].id != r[j].id {
      assert MenuItemId(ms[i]) != MenuItemId(ms[j]);
    }
  }

  class MenuStore {
    var items: seq<MenuItem>

    /** `_id` is unique across the collection. */
    ghost predicate Valid()
      reads this
    {
      MenuIdsUnique(items)
    }

    constructor ()
      ensures Valid() && items == []
    {
      items := [];
    }

    /** addMenuItem: an empty name, an empty category or a numeric price of 0 is refused;
        otherwise the five fields are stored. `id` stands for the fresh `_id`. */
    method AddMenuItem(id: Id, name: string, description: string, category: Id, price: int, image: string)
      returns (r: Reply<MenuItem>)
      requires Valid()
      requires forall m :: m in items ==> m.id != id
      modifies this
      ensures Valid()
      ensures MissingRequired(name, category, price) ==>
        r == Failure("Name, category, and price are required") && items == old(items)
      ensures !MissingRequired(name, category, price) ==>
        r == Success("Menu item added successfully", MenuItem(id, name, description, category, price, image)) &&
        items == old(items) + [r.data]
    {
      if name == "" || category == "" || price == 0 {
        r := Failure("Name, category, and price are required");
        return;
      }
      var m := MenuItem(id, name, description, category, price, image);
      ghost var before := items;
      items := items + [m];
      forall i, j | 0 <= i < j < |items| ensures items[i].id != items[j].id {
        if j < |before| {
          assert MenuItemId(before[i]) != MenuItemId(before[j]);
        } else {
          assert before[i] in before;
        }
      }
      r := Success("Menu item added successfully", m);
    }

    /** getMenuItems: every item in table order, with its category resolved
        against the category table `cats`. */
    function GetMenuItems(cats: seq<Category>): (r: seq<PopulatedItem>)
      reads this
      ensures |r| == |items|
      ensures forall i :: 0 <= i < |r| ==> r[i].item == items[i]
      ensures forall i :: 0 <= i < |r| ==>
        (r[i].category.Some? <==> exists c :: c in cats && c.id == items[i].category)
      ensures forall i :: 0 <= i < |r| && r[i].category.Some? ==>
        r[i].category.value in cats && r[i].category.value.id == items[i].category
    {
      seq(|items|, i requires 0 <= i < |items| reads this =>
        PopulatedItem(items[i], FindBy(cats, CategoryId, items[i].category)))
    }

    /** deleteMenuItem: removes the item with `id`, if any; always a success. */
    method DeleteMenuItem(id: Id) returns (r: Reply<()>)
      requires Valid()
      modifies this
      ensures Valid()
      ensures r == Success("Menu item deleted successfully", ())
      ensures items == Filter(old(items), (m: MenuItem) => m.id != id)
      ensures forall m :: m in items <==> m in old(items) && m.id != id
    {
      FilterKeepsKeysUnique(items, (m: MenuItem) => m.id != id, MenuItemId);
      items := Filter(items, (m: MenuItem) => m.id != id);
      r := Success("Menu item deleted successfully", ());
    }

    /** updateMenuItem: no field is checked; the item with `id` gets the five
        values as sent, and the reply carries it (nothing when no item has the id). */
    method UpdateMenuItem(id: Id, name: string, description: string, category: Id, price: int, image: string)
      returns (r: Reply<Option<MenuItem>>)
      requires Valid()
      modifies this
      ensures Valid()
      ensures r.Success? && r.message == "Menu item updated successfully"
      ensures items == Overwrite(old(items), id, name, description, category, price, image)
      ensures (exists m :: m in old(items) && m.id == id) <==> r.data.Some?
      ensures r.data.Some? ==> r.data.value == MenuItem(id, name, description, category, price, image)
    {
      ghost var before := items;
      OverwriteEffect(items, id, name, description, category, price, image);
      items := Overwrite(items, id, name, description, category, price, image);
      var found := FindBy(items, MenuItemId, id);
      if exists m :: m in before && m.id == id {
        var m :| m in before && m.id == id;
        var k :| 0 <= k < |before| && before[k] == m;
        assert items[k].id == id;
      }
      r := Success("Menu item updated successfully", found);
    }
  }
}
