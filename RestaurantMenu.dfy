/** The restaurant menu page (src/pages/RestaurantMenuPage.tsx): the placeholder
    restaurant table and its lookup, the grouping of a menu into per-category lists, and
    the page's dummy cart counter. */
module RestaurantMenu {
  import opened Wrappers
  import opened Lists

  datatype MenuItem = MenuItem(id: string, name: string, description: string, price: real, category: string)

  datatype RestaurantDetails = RestaurantDetails(
    id: string, name: string, logoUrl: string, cuisine: string, rating: real, menu: seq<MenuItem>)

  /** What a menu card hands to `handleAddToCart`. */
  datatype AddedItem = AddedItem(id: string, name: string, price: real)

  const PizzaPalace: RestaurantDetails := RestaurantDetails(
    "1", "Pizza Palace", "https://cdn-icons-png.flaticon.com/512/3595/3595458.png", "Italian, Pizza", 4.5,
    [ MenuItem("m1", "Margherita Pizza", "Classic cheese and tomato pizza.", 12.99, "Pizzas"),
      MenuItem("m2", "Pepperoni Pizza", "Pizza with spicy pepperoni.", 14.99, "Pizzas"),
      MenuItem("m3", "Garlic Bread", "Toasted bread with garlic butter.", 5.99, "Appetizers"),
      MenuItem("m4", "Coke", "Chilled Coca-Cola.", 2.50, "Drinks") ])

  const PlaceholderRestaurantData: map<string, RestaurantDetails> := map["1" := PizzaPalace]

  /** `restaurantId && placeholderRestaurantData[restaurantId]`: found exactly when the route id
      is a key of the table. */
  function Lookup(restaurantId: Option<string>): (r: Option<RestaurantDetails>)
    ensures r.Some? <==> restaurantId.Some? && restaurantId.value in PlaceholderRestaurantData
    ensures r.Some? ==> r.value == PlaceholderRestaurantData[restaurantId.value]
  {
    if restaurantId.Some? && restaurantId.value != "" && restaurantId.value in PlaceholderRestaurantData
    then Some(PlaceholderRestaurantData[restaurantId.value])
    else None
  }

  function InCategory(category: string): MenuItem -> bool {
    (item: MenuItem) => item.category == category
  }

  /** The menu items of one category, in menu order. */
  function Bucket(menu: seq<MenuItem>, category: string): seq<MenuItem> {
    Filter(menu, InCategory(category))
  }

  /** The categories in order of first occurrence: the key order of the grouped object. */
  function Categories(menu: seq<MenuItem>): (cats: seq<string>)
    ensures Distinct(cats)
  {
    if menu == [] then []
    else
      var cs := Categories(menu[..|menu| - 1]);
      var c := menu[|menu| - 1].category;
      if c in cs then cs else cs + [c]
  }

  predicate Occurs(menu: seq<MenuItem>, category: string) {
    exists j :: 0 <= j < |menu| && menu[j].category == category
  }

  /** The categories listed are exactly those some item carries. */
  lemma {:induction false} CategoriesOccur(menu: seq<MenuItem>, c: string)
    ensures c in Categories(menu) <==> Occurs(menu, c)
    decreases |menu|
  {
    if menu != [] {
      var init := menu[..|menu| - 1];
      CategoriesOccur(init, c);
      assert forall j :: 0 <= j < |init| ==> init[j] == menu[j];
    }
  }

  /** The reference grouping: one bucket per occurring category. */
  function Grouped(menu: seq<MenuItem>): map<string, seq<MenuItem>> {
    map c | c in Categories(menu) :: Bucket(menu, c)
  }

  /** The sum of the bucket sizes over `categories`. */
  function SizeSum(menu: seq<MenuItem>, categories: seq<string>): nat {
    if categories == [] then 0
    else SizeSum(menu, categories[..|categories| - 1]) + |Bucket(menu, categories[|categories| - 1])|
  }

  /** `groupMenuItemsByCategory`: push each item onto its category's list, creating the list the
      first time the category is seen. `keys` is the object's key order. */
  method GroupMenuItemsByCategory(menu: seq<MenuItem>) returns (acc: map<string, seq<MenuItem>>, keys: seq<string>)
    ensures keys == Categories(menu)
    ensures acc == Grouped(menu)
  {
    acc, keys := map[], [];
    var i := 0;
    while i < |menu|
      invariant 0 <= i <= |menu|
      invariant keys == Categories(menu[..i])
      invariant acc == Grouped(menu[..i])
    {
      var item := menu[i];
      GroupedStep(menu[..i], item);
      assert menu[..i + 1] == menu[..i] + [item];
      if item.category in acc {
        acc := acc[item.category := acc[item.category] + [item]];
      } else {
        acc := acc[item.category := [item]];
        keys := keys + [item.category];
      }
      i := i + 1;
    }
    assert menu[..|menu|] == menu;
  }

  // ---------------------------------------------------------------------------

  lemma BucketAppend(menu: seq<MenuItem>, x: MenuItem, c: string)
    ensures Bucket(menu + [x], c) == Bucket(menu, c) + (if x.category == c then [x] else [])
  {
    FilterAppend(menu, x, InCategory(c));
  }

  lemma BucketOfAbsent(menu: seq<MenuItem>, c: string)
    requires c !in Categories(menu)
    ensures Bucket(menu, c) == []
  {
    forall j | 0 <= j < |menu|
      ensures !InCategory(c)(menu[j])
    {
      if menu[j].category == c {
        CategoriesOccur(menu, c);
      }
    }
    FilterNone(menu, InCategory(c));
  }

  lemma CategoriesStep(menu: seq<MenuItem>, x: MenuItem)
    ensures Categories(menu + [x]) ==
            if x.category in Categories(menu) then Categories(menu) else Categories(menu) + [x.category]
  {
    var m := menu + [x];
    assert m[..|m| - 1] == menu;
  }

  /** Adding one item to the menu adds it to its own bucket, creating the bucket when needed. */
  lemma GroupedStep(menu: seq<MenuItem>, x: MenuItem)
    ensures Categories(menu + [x]) ==
            if x.category in Categories(menu) then Categories(menu) else Categories(menu) + [x.category]
    ensures Grouped(menu + [x]) ==
            if x.category in Grouped(menu) then Grouped(menu)[x.category := Grouped(menu)[x.category] + [x]]
            else Grouped(menu)[x.category := [x]]
  {
    var m := menu + [x];
    CategoriesStep(menu, x);
    var g, g' := Grouped(menu), Grouped(m);
    var expected := if x.category in g then g[x.category := g[x.category] + [x]] else g[x.category := [x]];
    forall c | c in g'
      ensures c in expected && g'[c] == expected[c]
    {
      BucketAppend(menu, x, c);
      if x.category !in g {
        BucketOfAbsent(menu, x.category);
      }
    }
    assert g'.Keys == expected.Keys;
  }

  /** Every item lands in the bucket of its own category and only there; buckets keep menu order;
      the keys are exactly the occurring categories; and no bucket is empty. */
  lemma GroupingPartitions(menu: seq<MenuItem>)
    ensures forall j :: 0 <= j < |menu| ==>
              menu[j].category in Grouped(menu) && menu[j] in Grouped(menu)[menu[j].category]
    ensures forall c :: c in Grouped(menu) ==> forall x :: x in Grouped(menu)[c] ==> x.category == c && x in menu
    ensures forall c :: c in Grouped(menu) ==> Subsequence(Grouped(menu)[c], menu)
    ensures forall c :: c in Grouped(menu) <==> exists j :: 0 <= j < |menu| && menu[j].category == c
    ensures forall c :: c in Grouped(menu) ==> |Grouped(menu)[c]| > 0
  {
    var g := Grouped(menu);
    forall c
      ensures c in g <==> Occurs(menu, c)
    {
      CategoriesOccur(menu, c);
    }
    forall j | 0 <= j < |menu|
      ensures menu[j].category in g && menu[j] in g[menu[j].category]
    {
      CategoriesOccur(menu, menu[j].category);
    }
    forall c | c in g
      ensures Subsequence(g[c], menu) && |g[c]| > 0
    {
      FilterIsSubsequence(menu, InCategory(c));
      var j :| 0 <= j < |menu| && menu[j].category == c;
      assert menu[j] in g[c];
    }
    forall c | c in g
      ensures forall x: MenuItem :: x in g[c] ==> x.category == c && x in menu
    {
      forall x: MenuItem | x in g[c]
        ensures x.category == c && x in menu
      {
        var k :| 0 <= k < |g[c]| && g[c][k] == x;
      }
    }
  }

  lemma {:induction false} SizeSumStep(menu: seq<MenuItem>, x: MenuItem, categories: seq<string>)
    requires Distinct(categories)
    ensures SizeSum(menu + [x], categories) == SizeSum(menu, categories) + (if x.category in categories then 1 else 0)
    decreases |categories|
  {
    if categories != [] {
      var cs, c := categories[..|categories| - 1], categories[|categories| - 1];
      assert categories == cs + [c];
      SizeSumStep(menu, x, cs);
      BucketAppend(menu, x, c);
    }
  }

  /** The bucket sizes add up to the menu length: no item is lost or duplicated. */
  lemma {:induction false} SizesSumToMenuLength(menu: seq<MenuItem>)
    ensures SizeSum(menu, Categories(menu)) == |menu|
    decreases |menu|
  {
    if menu != [] {
      var m, x := menu[..|menu| - 1], menu[|menu| - 1];
      assert menu == m + [x];
      SizesSumToMenuLength(m);
      var cs := Categories(m);
      SizeSumStep(m, x, cs);
      if x.category !in cs {
        assert Categories(menu) == cs + [x.category];
        BucketAppend(m, x, x.category);
        BucketOfAbsent(m, x.category);
      }
    }
  }

  // ---------------------------------------------------------------------------

  class MenuPage {
    var restaurant: Option<RestaurantDetails>
    var loading: bool
    var cartItemCount: int

    constructor ()
      ensures restaurant == None && loading && cartItemCount == 0
    {
      restaurant := None;
      loading := true;
      cartItemCount := 0;
    }

    /** The simulated fetch for a route id: a hit stores the table entry; a miss stores nothing,
        so the page keeps whatever restaurant it held (none on a first load). */
    method Load(restaurantId: Option<string>)
      modifies this
      ensures Lookup(restaurantId).Some? ==> restaurant == Lookup(restaurantId)
      ensures Lookup(restaurantId).None? ==> restaurant == old(restaurant)
      ensures !loading && cartItemCount == old(cartItemCount)
    {
      loading := true;
      if restaurantId.Some? && restaurantId.value != "" && restaurantId.value in PlaceholderRestaurantData {
        restaurant := Some(PlaceholderRestaurantData[restaurantId.value]);
      }
      loading := false;
    }

    /** `handleAddToCart`: the counter goes up by one, nothing else changes. */
    method HandleAddToCart(item: AddedItem)
      modifies this
      ensures cartItemCount == old(cartItemCount) + 1
      ensures restaurant == old(restaurant) && loading == old(loading)
    {
      cartItemCount := cartItemCount + 1;
    }
  }
}
