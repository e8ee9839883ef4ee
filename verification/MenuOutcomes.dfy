/** What the public menu shows, said of the stored rows field by field, without the filters and
    sort keys that compute it; and what each change of a menu does to the rows and to that. */
module MenuOutcomes {
  import opened Options
  import opened StableSort
  import opened MenuJoin
  import opened MenuTables

  // ---- Listing rows in order ----

  /** a comes before b: by the smaller key, and among equal keys by the smaller id. */
  predicate Before<T>(key: T -> real, id: T -> nat, a: T, b: T) {
    key(a) < key(b) || (key(a) == key(b) && id(a) < id(b))
  }

  ghost predicate InOrder<T(!new)>(key: T -> real, id: T -> nat, s: seq<T>) {
    forall i, j :: 0 <= i < j < |s| ==> Before(key, id, s[i], s[j])
  }

  ghost predicate IdsRise<T(!new)>(id: T -> nat, s: seq<T>) {
    forall i, j :: 0 <= i < j < |s| ==> id(s[i]) < id(s[j])
  }

  lemma {:induction false} FilterKeepsRise<T(!new)>(p: T -> bool, id: T -> nat, s: seq<T>)
    requires IdsRise(id, s)
    ensures IdsRise(id, Filter(p, s))
  {
    if s != [] {
      FilterKeepsRise(p, id, s[1..]);
      var rest := Filter(p, s[1..]);
      forall k | 0 <= k < |rest| ensures id(s[0]) < id(rest[k]) {
        assert rest[k] in rest;
        var i :| 0 <= i < |s[1..]| && s[1..][i] == rest[k];
        assert s[i + 1] == rest[k];
      }
    }
  }

  lemma {:induction false} InsertInOrder<T(!new)>(key: T -> real, id: T -> nat, x: T, s: seq<T>)
    requires InOrder(key, id, s) && forall y :: y in s ==> id(x) < id(y)
    ensures InOrder(key, id, Insert(key, x, s))
  {
    if s != [] && key(x) > key(s[0]) {
      var rest := Insert(key, x, s[1..]);
      InsertInOrder(key, id, x, s[1..]);
      InsertPermutes(key, x, s[1..]);
      forall k | 0 <= k < |rest| ensures Before(key, id, s[0], rest[k]) {
        assert rest[k] in multiset(rest);
        if rest[k] != x {
          assert rest[k] in s[1..];
          var i :| 0 <= i < |s[1..]| && s[1..][i] == rest[k];
          assert s[i + 1] == rest[k];
        }
      }
    } else if s != [] {
      forall k | 0 <= k < |s| ensures Before(key, id, x, s[k]) {
        assert k > 0 ==> Before(key, id, s[0], s[k]);
        assert s[k] in s;
      }
    }
  }

  lemma {:induction false} SortInOrder<T(!new)>(key: T -> real, id: T -> nat, s: seq<T>)
    requires IdsRise(id, s)
    ensures InOrder(key, id, Sort(key, s))
  {
    if s != [] {
      SortInOrder(key, id, s[1..]);
      SortMembers(key, s[1..]);
      forall y | y in Sort(key, s[1..]) ensures id(s[0]) < id(y) {
        assert y in s[1..];
        var i :| 0 <= i < |s[1..]| && s[1..][i] == y;
        assert s[i + 1] == y;
      }
      InsertInOrder(key, id, s[0], Sort(key, s[1..]));
    }
  }

  /** The views are those of exactly the rows that are to be shown, each once, in the order of the
      key and, where keys are equal, of creation. */
  ghost predicate Lists<R(!new), V>(rows: seq<R>, shown: R -> bool, key: R -> real, idOf: V -> nat, views: seq<V>) {
    && (forall k :: 0 <= k < |views| ==> idOf(views[k]) < |rows| && shown(rows[idOf(views[k])]))
    && (forall id: nat :: id < |rows| && shown(rows[id]) ==> IsListed(idOf, views, id))
    && (forall i, j :: 0 <= i < j < |views| ==> ListedBefore(rows, key, idOf(views[i]), idOf(views[j])))
  }

  predicate IsListed<V>(idOf: V -> nat, views: seq<V>, id: nat) {
    exists k :: 0 <= k < |views| && idOf(views[k]) == id
  }

  predicate ListedBefore<R>(rows: seq<R>, key: R -> real, a: nat, b: nat) {
    a < |rows| && b < |rows| && (key(rows[a]) < key(rows[b]) || (key(rows[a]) == key(rows[b]) && a < b))
  }

  lemma {:induction false} SortedRows<R(!new)>(rows: seq<R>, p: R -> bool, key: R -> real, id: R -> nat)
    requires forall k :: 0 <= k < |rows| ==> id(rows[k]) == k
    ensures var s := Sort(key, Filter(p, rows));
      && InOrder(key, id, s)
      && (forall k :: 0 <= k < |s| ==> id(s[k]) < |rows| && rows[id(s[k])] == s[k] && p(s[k]))
      && (forall x :: x in s <==> x in rows && p(x))
  {
    FilterKeepsRise(p, id, rows);
    SortInOrder(key, id, Filter(p, rows));
    SortMembers(key, Filter(p, rows));
    var s := Sort(key, Filter(p, rows));
    forall k | 0 <= k < |s| ensures id(s[k]) < |rows| && rows[id(s[k])] == s[k] && p(s[k]) {
      assert s[k] in s;
      var i :| 0 <= i < |rows| && rows[i] == s[k];
    }
  }

  lemma ListFrom<R(!new), V>(rows: seq<R>, shown: R -> bool, key: R -> real, id: R -> nat, s: seq<R>, idOf: V -> nat, views: seq<V>)
    requires InOrder(key, id, s) && |views| == |s|
    requires forall k :: 0 <= k < |s| ==> id(s[k]) < |rows| && rows[id(s[k])] == s[k] && shown(s[k]) && idOf(views[k]) == id(s[k])
    requires forall k :: 0 <= k < |rows| && shown(rows[k]) ==> id(rows[k]) == k && rows[k] in s
    ensures Lists(rows, shown, key, idOf, views)
  {
    forall k: nat | k < |rows| && shown(rows[k]) ensures IsListed(idOf, views, k) {
      var i :| 0 <= i < |s| && s[i] == rows[k];
      assert idOf(views[i]) == k;
    }
    forall i, j | 0 <= i < j < |views| ensures ListedBefore(rows, key, idOf(views[i]), idOf(views[j])) {
      assert Before(key, id, s[i], s[j]);
    }
  }

  /** The same order by an equal key. */
  lemma SameOrder<R(!new)>(key: R -> real, sortOrder: R -> real, id: R -> nat, s: seq<R>)
    requires InOrder(key, id, s) && forall x :: key(x) == sortOrder(x)
    ensures InOrder(sortOrder, id, s)
  {
    forall i, j | 0 <= i < j < |s| ensures Before(sortOrder, id, s[i], s[j]) {
      assert Before(key, id, s[i], s[j]);
    }
  }

  /** Filtering by what is to be shown, sorting stably and viewing row by row lists those rows. */
  lemma {:induction false} SortedViewsList<R(!new), V>(rows: seq<R>, p: R -> bool, shown: R -> bool, key: R -> real, sortOrder: R -> real,
                                    id: R -> nat, view: R -> V, idOf: V -> nat)
    requires forall k :: 0 <= k < |rows| ==> id(rows[k]) == k
    requires forall x :: (p(x) <==> shown(x)) && key(x) == sortOrder(x) && idOf(view(x)) == id(x)
    ensures Lists(rows, shown, sortOrder, idOf, Map(view, Sort(key, Filter(p, rows))))
  {
    var s := Sort(key, Filter(p, rows));
    SortedRows(rows, p, key, id);
    SameOrder(key, sortOrder, id, s);
    ListFrom(rows, shown, sortOrder, id, s, idOf, Map(view, s));
  }

  // ---- The menu, row by row ----

  predicate SameOption(o: OptionItem, v: OptionView) {
    v.id == o.id && v.name == o.name && v.priceDelta == o.priceDelta && v.sortOrder == o.sortOrder
  }

  predicate SameGroup(g: Group, v: GroupView) {
    && v.id == g.id && v.name == g.name && v.required == g.required && v.multiSelect == g.multiSelect
    && v.minSelect == g.minSelect && v.maxSelect == g.maxSelect && v.sortOrder == g.sortOrder
  }

  /** 15 minutes if no preparation time is known. */
  predicate SameItem(i: Item, v: ItemView) {
    && v.id == i.id && v.details == i.details && v.availability == i.availability
    && (i.prepTime != 0 ==> v.prepTime == i.prepTime) && (i.prepTime == 0 ==> v.prepTime == 15)
  }

  predicate SameCategory(c: Category, v: CategoryView) {
    v.id == c.id && v.name == c.name && v.description == c.description && v.sortOrder == c.sortOrder
  }

  lemma ViewsHaveTheFields(t: Tables, r: nat, c: Category, i: Item, g: Group, o: OptionItem)
    ensures SameCategory(c, JoinCategory(t, r)(c)) && SameItem(i, JoinItem(t)(i)) && SameGroup(g, JoinGroup(t)(g))
    ensures SameOption(o, ToOptionView(o))
  {}

  /** A group is shown with its own fields and lists its options that are active and not deleted. */
  ghost predicate ShowsGroup(t: Tables, g: Group, v: GroupView) {
    && SameGroup(g, v)
    && Lists(t.optionItems, (o: OptionItem) => o.groupId == g.id && o.isActive && !o.deleted, (o: OptionItem) => o.sortOrder,
             (o: OptionView) => o.id, v.items)
    && forall k :: 0 <= k < |v.items| ==> v.items[k].id < |t.optionItems| && SameOption(t.optionItems[v.items[k].id], v.items[k])
  }

  /** An item is shown with its own fields and lists the groups it is linked to that are active
      and not deleted. */
  ghost predicate ShowsItem(t: Tables, i: Item, v: ItemView) {
    && SameItem(i, v)
    && Lists(t.groups, (g: Group) => g.id in i.groupIds && g.isActive && !g.deleted, (g: Group) => g.sortOrder,
             (g: GroupView) => g.id, v.groups)
    && forall k :: 0 <= k < |v.groups| ==> v.groups[k].id < |t.groups| && ShowsGroup(t, t.groups[v.groups[k].id], v.groups[k])
  }

  predicate IsPublishedIn(r: nat, c: nat, i: Item) {
    i.restaurantId == r && i.categoryId == c && i.isPublished && !i.deleted
  }

  /** A category is shown with its own fields and lists the restaurant's items in it that are
      published and not deleted. */
  ghost predicate ShowsCategory(t: Tables, r: nat, c: Category, v: CategoryView) {
    && SameCategory(c, v)
    && Lists(t.items, (i: Item) => IsPublishedIn(r, c.id, i), (i: Item) => i.sortOrder, (i: ItemView) => i.id, v.items)
    && forall k :: 0 <= k < |v.items| ==> v.items[k].id < |t.items| && ShowsItem(t, t.items[v.items[k].id], v.items[k])
  }

  predicate IsActiveOf(r: nat, c: Category) {
    c.restaurantId == r && c.isActive && !c.deleted
  }

  /** The menu of a restaurant lists its categories that are active and not deleted. */
  ghost predicate ShowsMenu(t: Tables, r: nat, views: seq<CategoryView>) {
    && Lists(t.categories, (c: Category) => IsActiveOf(r, c), (c: Category) => c.sortOrder, (c: CategoryView) => c.id, views)
    && forall k :: 0 <= k < |views| ==> views[k].id < |t.categories| && ShowsCategory(t, r, t.categories[views[k].id], views[k])
  }

  lemma JoinShowsGroup(t: Tables, g: Group)
    requires TablesOk(t)
    ensures ShowsGroup(t, g, JoinGroup(t)(g))
  {
    var id := (o: OptionItem) => o.id;
    SortedViewsList(t.optionItems, LiveOption([g.id]), (o: OptionItem) => o.groupId == g.id && o.isActive && !o.deleted,
                    OptionOrder(), (o: OptionItem) => o.sortOrder, id, ToOptionView, (o: OptionView) => o.id);
    SortedRows(t.optionItems, LiveOption([g.id]), OptionOrder(), id);
  }

  lemma JoinShowsItem(t: Tables, i: Item)
    requires TablesOk(t)
    ensures ShowsItem(t, i, JoinItem(t)(i))
  {
    var id := (g: Group) => g.id;
    SortedViewsList(t.groups, LiveGroup(i.groupIds), (g: Group) => g.id in i.groupIds && g.isActive && !g.deleted,
                    GroupOrder(), (g: Group) => g.sortOrder, id, JoinGroup(t), (g: GroupView) => g.id);
    SortedRows(t.groups, LiveGroup(i.groupIds), GroupOrder(), id);
    var groups, views := Sort(GroupOrder(), Filter(LiveGroup(i.groupIds), t.groups)), GroupsOf(t, i);
    forall k | 0 <= k < |views| ensures views[k].id < |t.groups| && ShowsGroup(t, t.groups[views[k].id], views[k]) {
      JoinShowsGroup(t, groups[k]);
    }
  }

  lemma JoinShowsCategory(t: Tables, r: nat, c: Category)
    requires TablesOk(t)
    ensures ShowsCategory(t, r, c, JoinCategory(t, r)(c))
  {
    var id := (i: Item) => i.id;
    SortedViewsList(t.items, PublishedIn(r, c.id), (i: Item) => IsPublishedIn(r, c.id, i),
                    ItemOrder(), (i: Item) => i.sortOrder, id, JoinItem(t), (i: ItemView) => i.id);
    SortedRows(t.items, PublishedIn(r, c.id), ItemOrder(), id);
    var items, views := Sort(ItemOrder(), Filter(PublishedIn(r, c.id), t.items)), ItemsOf(t, r, c.id);
    forall k | 0 <= k < |views| ensures views[k].id < |t.items| && ShowsItem(t, t.items[views[k].id], views[k]) {
      JoinShowsItem(t, items[k]);
    }
  }

  /** The join is the restaurant's menu: at every level exactly the rows that are to be shown, once
      each, in sort order, with their own fields. */
  lemma JoinShowsMenu(t: Tables, r: nat)
    requires TablesOk(t)
    ensures ShowsMenu(t, r, Join(t, r))
  {
    var id := (c: Category) => c.id;
    SortedViewsList(t.categories, LiveCategory(r), (c: Category) => IsActiveOf(r, c),
                    CategoryOrder(), (c: Category) => c.sortOrder, id, JoinCategory(t, r), (c: CategoryView) => c.id);
    SortedRows(t.categories, LiveCategory(r), CategoryOrder(), id);
    var categories, views := Sort(CategoryOrder(), Filter(LiveCategory(r), t.categories)), Join(t, r);
    forall k | 0 <= k < |views| ensures views[k].id < |t.categories| && ShowsCategory(t, r, t.categories[views[k].id], views[k]) {
      JoinShowsCategory(t, r, categories[k]);
    }
  }

  // ---- Which items and categories are on a menu ----

  predicate CategoryOn(views: seq<CategoryView>, id: nat) {
    exists c :: 0 <= c < |views| && views[c].id == id
  }

  predicate ItemIn(v: CategoryView, id: nat) {
    exists i :: 0 <= i < |v.items| && v.items[i].id == id
  }

  predicate ItemOn(views: seq<CategoryView>, id: nat) {
    exists c :: 0 <= c < |views| && ItemIn(views[c], id)
  }

  /** What puts a category on a menu. */
  predicate CategoryShown(t: Tables, r: nat, id: nat) {
    && id < |t.categories| && t.categories[id].restaurantId == r
    && t.categories[id].isActive && !t.categories[id].deleted
  }

  /** What puts an item on a menu: it is the restaurant's, published and not deleted, and so is,
      active and not deleted, the category it is in. */
  predicate ItemShown(t: Tables, r: nat, id: nat) {
    && id < |t.items| && t.items[id].restaurantId == r
    && t.items[id].isPublished && !t.items[id].deleted
    && CategoryShown(t, r, t.items[id].categoryId)
  }

  lemma MenuCategories(t: Tables, r: nat, views: seq<CategoryView>, id: nat)
    requires ShowsMenu(t, r, views)
    ensures CategoryOn(views, id) <==> CategoryShown(t, r, id)
  {
    if CategoryShown(t, r, id) {
      assert IsListed((c: CategoryView) => c.id, views, id);
    }
  }

  /** A category is on the menu exactly if it is the restaurant's, active and not deleted. */
  lemma CategoryShownIff(t: Tables, r: nat, id: nat)
    requires TablesOk(t)
    ensures CategoryOn(Join(t, r), id) <==> CategoryShown(t, r, id)
  {
    JoinShowsMenu(t, r);
    MenuCategories(t, r, Join(t, r), id);
  }

  lemma CategoryItems(t: Tables, r: nat, c: Category, v: CategoryView, id: nat)
    requires ShowsCategory(t, r, c, v)
    ensures ItemIn(v, id) <==> id < |t.items| && IsPublishedIn(r, c.id, t.items[id])
  {
    if id < |t.items| && IsPublishedIn(r, c.id, t.items[id]) {
      assert IsListed((i: ItemView) => i.id, v.items, id);
    }
  }

  lemma ListedItems(t: Tables, r: nat, views: seq<CategoryView>, c: nat, id: nat)
    requires ShowsMenu(t, r, views) && c < |views|
    ensures ItemIn(views[c], id) <==> id < |t.items| && views[c].id < |t.categories| && IsPublishedIn(r, t.categories[views[c].id].id, t.items[id])
  {
    CategoryItems(t, r, t.categories[views[c].id], views[c], id);
  }

  lemma MenuItems(t: Tables, r: nat, views: seq<CategoryView>, id: nat)
    requires TablesOk(t) && ShowsMenu(t, r, views)
    ensures ItemOn(views, id) <==> ItemShown(t, r, id)
  {
    if c: nat :| c < |views| && ItemIn(views[c], id) {
      ListedItems(t, r, views, c, id);
      assert CategoryOn(views, views[c].id);
      MenuCategories(t, r, views, views[c].id);
    }
    if ItemShown(t, r, id) {
      MenuCategories(t, r, views, t.items[id].categoryId);
      var c: nat :| c < |views| && views[c].id == t.items[id].categoryId;
      ListedItems(t, r, views, c, id);
    }
  }

  /** An item is on the menu exactly if it is the restaurant's, published, not deleted, and in a
      category that is on it. */
  lemma ItemShownIff(t: Tables, r: nat, id: nat)
    requires TablesOk(t)
    ensures ItemOn(Join(t, r), id) <==> ItemShown(t, r, id)
  {
    JoinShowsMenu(t, r);
    MenuItems(t, r, Join(t, r), id);
  }

  lemma InStockItemIn(t: Tables, r: nat, c: Category, v: CategoryView, id: nat)
    requires ShowsCategory(t, r, c, v)
    ensures ItemIn(StockFilter()(v), id) <==> ItemIn(v, id) && t.items[id].availability == InStock
  {
    var kept := StockFilter()(v).items;
    if i :| 0 <= i < |kept| && kept[i].id == id {
      assert kept[i] in v.items;
      var k :| 0 <= k < |v.items| && v.items[k] == kept[i];
      assert ShowsItem(t, t.items[v.items[k].id], v.items[k]);
    }
    if k :| 0 <= k < |v.items| && v.items[k].id == id && t.items[id].availability == InStock {
      assert ShowsItem(t, t.items[v.items[k].id], v.items[k]);
      assert v.items[k] in v.items && v.items[k] in kept;
      var i :| 0 <= i < |kept| && kept[i] == v.items[k];
    }
  }

  /** An item is on the menu without what is out of stock exactly if it is on the menu and in stock. */
  lemma InStockShownIff(t: Tables, r: nat, id: nat)
    requires TablesOk(t)
    ensures ItemOn(InStockMenu(Join(t, r)), id) <==> ItemShown(t, r, id) && t.items[id].availability == InStock
  {
    var views := Join(t, r);
    JoinShowsMenu(t, r);
    ItemShownIff(t, r, id);
    forall c | 0 <= c < |views| ensures ItemIn(InStockMenu(views)[c], id) <==> ItemIn(views[c], id) && t.items[id].availability == InStock {
      InStockItemIn(t, r, t.categories[views[c].id], views[c], id);
    }
  }

  // ---- What a change of the menu does to the rows ----

  /** The value given, or the one there is. */
  predicate Given<T(==)>(o: Option<T>, before: T, after: T) {
    match o
    case None => after == before
    case Some(x) => after == x
  }

  /** The category's row is replaced by c, and no other row of any table changes. */
  predicate OnlyCategory(t: Tables, u: Tables, id: nat, c: Category) {
    && id < |t.categories| == |u.categories| && u.categories[id] == c
    && (forall k :: 0 <= k < |t.categories| && k != id ==> u.categories[k] == t.categories[k])
    && u.items == t.items && u.groups == t.groups && u.optionItems == t.optionItems
  }

  predicate OnlyItem(t: Tables, u: Tables, id: nat, i: Item) {
    && id < |t.items| == |u.items| && u.items[id] == i
    && (forall k :: 0 <= k < |t.items| && k != id ==> u.items[k] == t.items[k])
    && u.categories == t.categories && u.groups == t.groups && u.optionItems == t.optionItems
  }

  predicate CategoryThere(t: Tables, r: nat, id: nat) {
    id < |t.categories| && t.categories[id].restaurantId == r && !t.categories[id].deleted
  }

  predicate ItemThere(t: Tables, id: nat) {
    id < |t.items| && !t.items[id].deleted
  }

  lemma CreateCategoryAdds(t: Tables, r: nat, name: string, description: string, sortOrder: real)
    ensures var m := Mutate(t, CreateCategory(r, name, description, sortOrder)); var id := |t.categories|;
      && m.Rebuild? && m.restaurantId == r
      && m.tables.categories == t.categories + [Category(id, r, name, description, sortOrder, true, false)]
      && m.tables.items == t.items && m.tables.groups == t.groups && m.tables.optionItems == t.optionItems
  {}

  /** A category is patched exactly if it is the restaurant's and not deleted; it then has the given
      name, description and place, keeps what is not given, and nothing else changes. */
  lemma UpdateCategoryIff(t: Tables, r: nat, id: nat, p: CategoryPatch)
    ensures var m := Mutate(t, UpdateCategory(r, id, p));
      && (m.Rebuild? <==> CategoryThere(t, r, id)) && (m.NotFound? <==> !CategoryThere(t, r, id))
      && (m.Rebuild? ==>
            var c, c' := t.categories[id], m.tables.categories[id];
            && m.restaurantId == r
            && Given(p.name, c.name, c'.name) && Given(p.description, c.description, c'.description)
            && Given(p.sortOrder, c.sortOrder, c'.sortOrder)
            && OnlyCategory(t, m.tables, id, Category(c.id, r, c'.name, c'.description, c'.sortOrder, c.isActive, false)))
  {}

  /** A category is deleted, and made inactive, exactly if it is the restaurant's and was not; it and
      its items are off the menu, and everything else is on it as before. */
  lemma DeleteCategoryIff(t: Tables, r: nat, id: nat)
    ensures var m := Mutate(t, DeleteCategory(r, id));
      && (m.Rebuild? <==> CategoryThere(t, r, id)) && (m.NotFound? <==> !CategoryThere(t, r, id))
      && (m.Rebuild? ==>
            var c := t.categories[id];
            && m.restaurantId == r
            && OnlyCategory(t, m.tables, id, Category(c.id, r, c.name, c.description, c.sortOrder, false, true))
            && (forall k: nat :: CategoryShown(m.tables, r, k) <==> CategoryShown(t, r, k) && k != id)
            && (forall k: nat :: ItemShown(m.tables, r, k) <==> ItemShown(t, r, k) && t.items[k].categoryId != id))
  {}

  /** A new item carries the fields of the request, and the option groups stored for it. */
  lemma CreateItemIff(t: Tables, r: nat, input: ItemInput, groups: seq<GroupInput>)
    ensures var m := Mutate(t, CreateItem(r, input, groups)); var id := |t.items|;
      && (m.Rebuild? <==> CategoryThere(t, r, input.categoryId)) && (m.NotFound? <==> !CategoryThere(t, r, input.categoryId))
      && (m.Rebuild? ==>
            && m.restaurantId == r && |m.tables.items| == id + 1 && m.tables.categories == t.categories
            && m.tables.items[..id] == t.items && t.groups <= m.tables.groups && t.optionItems <= m.tables.optionItems
            && m.tables.items[id] == Item(id, r, input.categoryId, m.tables.items[id].groupIds, input.details, input.prepTime,
                                          input.availability, input.isPublished, input.sortOrder, false)
            && |m.tables.items[id].groupIds| == |groups|
            && (forall k :: 0 <= k < |groups| ==> m.tables.items[id].groupIds[k] == |t.groups| + k)
            && (ItemShown(m.tables, r, id) <==> input.isPublished && t.categories[input.categoryId].isActive))
  {
    AddGroupsOnlyNew(t, r, groups, |groups|);
  }

  /** The k-th option group of a new item is stored with the fields of the request. */
  lemma CreateItemStoresGroups(t: Tables, r: nat, input: ItemInput, groups: seq<GroupInput>, k: nat)
    requires CategoryThere(t, r, input.categoryId) && k < |groups|
    ensures var u := Mutate(t, CreateItem(r, input, groups)).tables; var g, id := groups[k], |t.groups| + k;
      && |u.groups| == |t.groups| + |groups|
      && u.groups[id] == Group(id, r, g.name, g.required, g.multiSelect, g.minSelect, g.maxSelect, g.sortOrder, true, false)
  {
    AddedGroups(t, r, groups, |groups|);
  }

  /** An item is patched exactly if it is the restaurant's and not deleted; it then has the given
      fields, keeps the others, and nothing else changes. */
  lemma UpdateItemIff(t: Tables, r: nat, id: nat, p: ItemPatch)
    ensures var m := Mutate(t, UpdateItem(r, id, p)); var found := ItemThere(t, id) && t.items[id].restaurantId == r;
      && (m.Rebuild? <==> found) && (m.NotFound? <==> !found)
      && (m.Rebuild? ==>
            var i, i' := t.items[id], m.tables.items[id];
            && m.restaurantId == r
            && Given(p.categoryId, i.categoryId, i'.categoryId) && Given(p.details, i.details, i'.details)
            && Given(p.prepTime, i.prepTime, i'.prepTime) && Given(p.availability, i.availability, i'.availability)
            && Given(p.isPublished, i.isPublished, i'.isPublished) && Given(p.sortOrder, i.sortOrder, i'.sortOrder)
            && OnlyItem(t, m.tables, id, Item(i.id, r, i'.categoryId, i.groupIds, i'.details, i'.prepTime, i'.availability,
                                              i'.isPublished, i'.sortOrder, false)))
  {}

  /** An item is deleted exactly if it is the restaurant's and was not; it is off the menu, and every
      other item is on it as before. */
  lemma DeleteItemIff(t: Tables, r: nat, id: nat)
    ensures var m := Mutate(t, DeleteItem(r, id)); var found := ItemThere(t, id) && t.items[id].restaurantId == r;
      && (m.Rebuild? <==> found) && (m.NotFound? <==> !found)
      && (m.Rebuild? ==>
            var i := t.items[id];
            && m.restaurantId == r
            && OnlyItem(t, m.tables, id, Item(i.id, r, i.categoryId, i.groupIds, i.details, i.prepTime, i.availability,
                                              i.isPublished, i.sortOrder, true))
            && (forall k: nat :: ItemShown(m.tables, r, k) <==> ItemShown(t, r, k) && k != id))
  {}

  /** Availability is set exactly on an item that is not deleted and by someone who may, and only
      that changes: on the menu before or not, the item is so after, and in stock as said. */
  lemma SetAvailabilityIff(t: Tables, id: nat, allowed: bool, availability: Availability)
    ensures var m := Mutate(t, SetAvailability(id, allowed, availability));
      && (m.Rebuild? <==> ItemThere(t, id) && allowed) && (m.NotFound? <==> !ItemThere(t, id))
      && (m.Rebuild? ==>
            var i := t.items[id];
            && m.restaurantId == i.restaurantId
            && OnlyItem(t, m.tables, id, Item(i.id, i.restaurantId, i.categoryId, i.groupIds, i.details, i.prepTime, availability,
                                              i.isPublished, i.sortOrder, false))
            && (forall k: nat :: ItemShown(m.tables, i.restaurantId, k) <==> ItemShown(t, i.restaurantId, k)))
  {}

  /** Publication is set exactly on an item that is not deleted and by someone who may, and only that
      changes: the item is on the menu exactly if it is published and its category is on it. */
  lemma SetPublishIff(t: Tables, id: nat, allowed: bool, isPublished: bool)
    ensures var m := Mutate(t, SetPublish(id, allowed, isPublished));
      && (m.Rebuild? <==> ItemThere(t, id) && allowed) && (m.NotFound? <==> !ItemThere(t, id))
      && (m.Rebuild? ==>
            var i := t.items[id];
            && m.restaurantId == i.restaurantId
            && OnlyItem(t, m.tables, id, Item(i.id, i.restaurantId, i.categoryId, i.groupIds, i.details, i.prepTime, i.availability,
                                              isPublished, i.sortOrder, false))
            && (ItemShown(m.tables, i.restaurantId, id) <==> isPublished && CategoryShown(t, i.restaurantId, i.categoryId))
            && (forall k: nat :: k != id ==> (ItemShown(m.tables, i.restaurantId, k) <==> ItemShown(t, i.restaurantId, k))))
  {}
}
