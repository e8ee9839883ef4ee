/** The menu projection of restaurantService: what it is, as a join done one category and one
    item at a time, and the loop that computes it with one batched lookup per table
    (projection.service.js and the repositories it reads). A table is the sequence of its rows
    in insertion order. */
module MenuJoin {
  import opened StableSort

  datatype Availability = InStock | OutOfStock

  datatype Category = Category(id: nat, restaurantId: nat, name: string, description: string, sortOrder: real,
                               isActive: bool, deleted: bool)
  datatype Group = Group(id: nat, restaurantId: nat, name: string, required: bool, multiSelect: bool,
                         minSelect: int, maxSelect: int, sortOrder: real, isActive: bool, deleted: bool)
  datatype OptionItem = OptionItem(id: nat, groupId: nat, name: string, priceDelta: int, sortOrder: real,
                                   isActive: bool, deleted: bool)

  /** The fields of an item that the projection copies as they are. */
  datatype Details = Details(name: string, description: string, images: seq<string>, basePrice: int, currency: string,
                             tags: seq<string>, allergens: seq<string>)
  datatype Item = Item(id: nat, restaurantId: nat, categoryId: nat, groupIds: seq<nat>, details: Details,
                       prepTime: int, availability: Availability, isPublished: bool, sortOrder: real, deleted: bool)

  datatype Tables = Tables(categories: seq<Category>, items: seq<Item>, groups: seq<Group>, optionItems: seq<OptionItem>)

  datatype OptionView = OptionView(id: nat, name: string, priceDelta: int, sortOrder: real)
  datatype GroupView = GroupView(id: nat, name: string, required: bool, multiSelect: bool, minSelect: int, maxSelect: int,
                                 sortOrder: real, items: seq<OptionView>)
  datatype ItemView = ItemView(id: nat, details: Details, prepTime: int, availability: Availability, groups: seq<GroupView>)
  datatype CategoryView = CategoryView(id: nat, name: string, description: string, sortOrder: real, items: seq<ItemView>)

  // ---- Row filters and sort keys ----

  function LiveCategory(restaurantId: nat): Category -> bool {
    (c: Category) => c.restaurantId == restaurantId && !c.deleted && c.isActive
  }

  function Published(restaurantId: nat): Item -> bool {
    (i: Item) => i.restaurantId == restaurantId && !i.deleted && i.isPublished
  }

  function InCategory(categoryId: nat): Item -> bool {
    (i: Item) => i.categoryId == categoryId
  }

  function PublishedIn(restaurantId: nat, categoryId: nat): Item -> bool {
    (i: Item) => i.restaurantId == restaurantId && !i.deleted && i.isPublished && i.categoryId == categoryId
  }

  function LiveGroup(ids: seq<nat>): Group -> bool {
    (g: Group) => g.id in ids && !g.deleted && g.isActive
  }

  function LinkedGroup(ids: seq<nat>): Group -> bool {
    (g: Group) => g.id in ids
  }

  function LiveOption(ids: seq<nat>): OptionItem -> bool {
    (o: OptionItem) => o.groupId in ids && !o.deleted && o.isActive
  }

  function OptionOf(groupId: nat): OptionItem -> bool {
    (o: OptionItem) => o.groupId == groupId
  }

  function CategoryOrder(): Category -> real { (c: Category) => c.sortOrder }
  function ItemOrder(): Item -> real { (i: Item) => i.sortOrder }
  function GroupOrder(): Group -> real { (g: Group) => g.sortOrder }
  function OptionOrder(): OptionItem -> real { (o: OptionItem) => o.sortOrder }

  // ---- The join, one thing at a time ----

  function ToOptionView(o: OptionItem): OptionView {
    OptionView(o.id, o.name, o.priceDelta, o.sortOrder)
  }

  function GroupViewWith(g: Group, options: seq<OptionItem>): GroupView {
    GroupView(g.id, g.name, g.required, g.multiSelect, g.minSelect, g.maxSelect, g.sortOrder, Map(ToOptionView, options))
  }

  /** averagePrepTime || 15 */
  function PrepTime(i: Item): int {
    if i.prepTime == 0 then 15 else i.prepTime
  }

  function ItemViewWith(i: Item, groups: seq<GroupView>): ItemView {
    ItemView(i.id, i.details, PrepTime(i), i.availability, groups)
  }

  function OptionsOf(t: Tables, g: Group): seq<OptionItem> {
    Sort(OptionOrder(), Filter(LiveOption([g.id]), t.optionItems))
  }

  function JoinGroup(t: Tables): Group -> GroupView {
    (g: Group) => GroupViewWith(g, OptionsOf(t, g))
  }

  function GroupsOf(t: Tables, i: Item): seq<GroupView> {
    Map(JoinGroup(t), Sort(GroupOrder(), Filter(LiveGroup(i.groupIds), t.groups)))
  }

  function JoinItem(t: Tables): Item -> ItemView {
    (i: Item) => ItemViewWith(i, GroupsOf(t, i))
  }

  function ItemsOf(t: Tables, restaurantId: nat, categoryId: nat): seq<ItemView> {
    Map(JoinItem(t), Sort(ItemOrder(), Filter(PublishedIn(restaurantId, categoryId), t.items)))
  }

  function CategoryViewWith(c: Category, items: seq<ItemView>): CategoryView {
    CategoryView(c.id, c.name, c.description, c.sortOrder, items)
  }

  function JoinCategory(t: Tables, restaurantId: nat): Category -> CategoryView {
    (c: Category) => CategoryViewWith(c, ItemsOf(t, restaurantId, c.id))
  }

  /** Every live category in order, with its own published items in order, each with its own
      live option groups in order, each with its own live options in order. */
  function Join(t: Tables, restaurantId: nat): seq<CategoryView> {
    Map(JoinCategory(t, restaurantId), Sort(CategoryOrder(), Filter(LiveCategory(restaurantId), t.categories)))
  }

  // ---- The batched lookups ----

  /** Every group id mentioned by some item. */
  function GroupIds(items: seq<Item>): (ids: seq<nat>)
    ensures Mentioned(items, ids)
  {
    if items == [] then []
    else
      var rest := GroupIds(items[1..]);
      assert forall i, id :: 1 <= i < |items| && id in items[i].groupIds ==> id in rest by {
        forall i, id | 1 <= i < |items| && id in items[i].groupIds ensures id in rest {
          assert items[1..][i - 1] == items[i];
        }
      }
      items[0].groupIds + rest
  }

  function LinkedGroups(i: Item, groups: seq<Group>, options: seq<OptionItem>): seq<GroupView> {
    Map((g: Group) => GroupViewWith(g, Filter(OptionOf(g.id), options)), Sort(GroupOrder(), Filter(LinkedGroup(i.groupIds), groups)))
  }

  lemma {:induction false} MapAgrees<A(!new), B(!new)>(f: A -> B, g: A -> B, s: seq<A>)
    requires forall x :: x in s ==> f(x) == g(x)
    ensures Map(f, s) == Map(g, s)
  {
    forall i | 0 <= i < |s| ensures Map(f, s)[i] == Map(g, s)[i] {
      assert s[i] in s;
    }
  }

  /** One option group's options out of the batch are that group's own options. */
  lemma OptionsFromBatch(t: Tables, ids: seq<nat>, g: Group)
    requires g.id in ids
    ensures Filter(OptionOf(g.id), Sort(OptionOrder(), Filter(LiveOption(ids), t.optionItems))) == OptionsOf(t, g)
  {
    FilterSort(OptionOf(g.id), OptionOrder(), Filter(LiveOption(ids), t.optionItems));
    FilterFilter(OptionOf(g.id), LiveOption(ids), LiveOption([g.id]), t.optionItems);
  }

  /** One item's groups out of the batch are that item's own groups. */
  lemma GroupsFromBatch(t: Tables, ids: seq<nat>, i: Item)
    requires forall id :: id in i.groupIds ==> id in ids
    ensures LinkedGroups(i, Filter(LiveGroup(ids), t.groups), Sort(OptionOrder(), Filter(LiveOption(ids), t.optionItems)))
      == GroupsOf(t, i)
  {
    var options := Sort(OptionOrder(), Filter(LiveOption(ids), t.optionItems));
    FilterFilter(LinkedGroup(i.groupIds), LiveGroup(ids), LiveGroup(i.groupIds), t.groups);
    var own := Sort(GroupOrder(), Filter(LiveGroup(i.groupIds), t.groups));
    SortMembers(GroupOrder(), Filter(LiveGroup(i.groupIds), t.groups));
    var f := (g: Group) => GroupViewWith(g, Filter(OptionOf(g.id), options));
    forall g | g in own ensures f(g) == JoinGroup(t)(g) {
      OptionsFromBatch(t, ids, g);
    }
    MapAgrees(f, JoinGroup(t), own);
  }

  /** Picking a category out of the sorted published items gives that category's own items. */
  lemma BucketIsItems(t: Tables, restaurantId: nat, categoryId: nat)
    ensures Map(JoinItem(t), Filter(InCategory(categoryId), Sort(ItemOrder(), Filter(Published(restaurantId), t.items))))
      == ItemsOf(t, restaurantId, categoryId)
  {
    FilterSort(InCategory(categoryId), ItemOrder(), Filter(Published(restaurantId), t.items));
    FilterFilter(InCategory(categoryId), Published(restaurantId), PublishedIn(restaurantId, categoryId), t.items);
  }

  function Bucket<V>(buckets: map<nat, seq<V>>, key: nat): seq<V> {
    if key in buckets then buckets[key] else []
  }

  /** The buckets after the first n rows: each view lands at the end of its own bucket. */
  function Buckets<R, V>(rows: seq<R>, key: R -> nat, view: R -> V, n: nat): map<nat, seq<V>>
    requires n <= |rows|
  {
    if n == 0 then map[]
    else
      var before, row := Buckets(rows, key, view, n - 1), rows[n - 1];
      before[key(row) := Bucket(before, key(row)) + [view(row)]]
  }

  function WithKey<R>(key: R -> nat, k: nat): R -> bool {
    (row: R) => key(row) == k
  }

  /** Each bucket holds the views of exactly the rows with its key, in order. */
  lemma {:induction false} BucketsHold<R(!new), V(!new)>(rows: seq<R>, key: R -> nat, view: R -> V, n: nat, k: nat)
    requires n <= |rows|
    ensures Bucket(Buckets(rows, key, view, n), k) == Map(view, Filter(WithKey(key, k), rows[..n]))
  {
    if n > 0 {
      BucketsHold(rows, key, view, n - 1, k);
      assert rows[..n] == rows[..n - 1] + [rows[n - 1]];
      FilterAppend(WithKey(key, k), rows[..n - 1], rows[n - 1]);
      MapAppend(view, Filter(WithKey(key, k), rows[..n - 1]), rows[n - 1]);
    }
  }

  lemma MapAppend<A, B>(f: A -> B, s: seq<A>, x: A)
    ensures Map(f, s + [x]) == Map(f, s) + [f(x)]
  {}

  lemma {:induction false} BucketsAgree<R(!new), V(!new)>(rows: seq<R>, key: R -> nat, f: R -> V, g: R -> V, n: nat)
    requires n <= |rows| && forall row :: row in rows ==> f(row) == g(row)
    ensures Buckets(rows, key, f, n) == Buckets(rows, key, g, n)
  {
    if n > 0 {
      BucketsAgree(rows, key, f, g, n - 1);
      assert rows[n - 1] in rows;
    }
  }

  /** The bucket-by-category loop of rebuildForRestaurant, with the view it makes of a row. */
  method BucketBy<R, V>(rows: seq<R>, key: R -> nat, view: R -> V) returns (buckets: map<nat, seq<V>>)
    ensures buckets == Buckets(rows, key, view, |rows|)
  {
    buckets := map[];
    for n := 0 to |rows|
      invariant buckets == Buckets(rows, key, view, n)
    {
      var row := rows[n];
      if key(row) !in buckets {
        buckets := buckets[key(row) := []];
      }
      buckets := buckets[key(row) := buckets[key(row)] + [view(row)]];
    }
  }

  function Batched(buckets: map<nat, seq<ItemView>>): Category -> CategoryView {
    (c: Category) => CategoryViewWith(c, Bucket(buckets, c.id))
  }

  function CategoryOf(): Item -> nat { (i: Item) => i.categoryId }

  /** Once every item is in, a bucket holds the items of its category. */
  lemma {:induction false} BucketOfCategory(t: Tables, restaurantId: nat, items: seq<Item>, categoryId: nat)
    requires items == Sort(ItemOrder(), Filter(Published(restaurantId), t.items))
    ensures Bucket(Buckets(items, CategoryOf(), JoinItem(t), |items|), categoryId) == ItemsOf(t, restaurantId, categoryId)
  {
    assert items[..|items|] == items;
    BucketsHold(items, CategoryOf(), JoinItem(t), |items|, categoryId);
    FilterAgrees(WithKey(CategoryOf(), categoryId), InCategory(categoryId), items);
    BucketIsItems(t, restaurantId, categoryId);
  }

  lemma {:induction false} BucketsAreTheJoin(t: Tables, restaurantId: nat, items: seq<Item>)
    requires items == Sort(ItemOrder(), Filter(Published(restaurantId), t.items))
    ensures Map(Batched(Buckets(items, CategoryOf(), JoinItem(t), |items|)),
                Sort(CategoryOrder(), Filter(LiveCategory(restaurantId), t.categories))) == Join(t, restaurantId)
  {
    var buckets := Buckets(items, CategoryOf(), JoinItem(t), |items|);
    BucketsMakeCategories(t, restaurantId, items, buckets);
    MapAgrees(Batched(buckets), JoinCategory(t, restaurantId), Sort(CategoryOrder(), Filter(LiveCategory(restaurantId), t.categories)));
  }

  lemma {:induction false} BucketsMakeCategories(t: Tables, restaurantId: nat, items: seq<Item>, buckets: map<nat, seq<ItemView>>)
    requires items == Sort(ItemOrder(), Filter(Published(restaurantId), t.items))
    requires buckets == Buckets(items, CategoryOf(), JoinItem(t), |items|)
    ensures forall c :: Batched(buckets)(c) == JoinCategory(t, restaurantId)(c)
  {
    forall c ensures Batched(buckets)(c) == JoinCategory(t, restaurantId)(c) {
      BucketOfCategory(t, restaurantId, items, c.id);
    }
  }

  /** What the two batched lookups return for the given group ids. */
  ghost predicate IsBatch(t: Tables, ids: seq<nat>, groups: seq<Group>, options: seq<OptionItem>) {
    groups == Filter(LiveGroup(ids), t.groups) && options == Sort(OptionOrder(), Filter(LiveOption(ids), t.optionItems))
  }

  predicate Mentioned(items: seq<Item>, ids: seq<nat>) {
    forall i, id :: 0 <= i < |items| && id in items[i].groupIds ==> id in ids
  }

  /** The view the loop makes of an item. */
  function BatchView(groups: seq<Group>, options: seq<OptionItem>): Item -> ItemView {
    (i: Item) => ItemViewWith(i, LinkedGroups(i, groups, options))
  }

  lemma {:induction false} BatchViewsAgree(t: Tables, items: seq<Item>, ids: seq<nat>, groups: seq<Group>, options: seq<OptionItem>)
    requires IsBatch(t, ids, groups, options) && Mentioned(items, ids)
    ensures Buckets(items, CategoryOf(), BatchView(groups, options), |items|)
      == Buckets(items, CategoryOf(), JoinItem(t), |items|)
  {
    forall i | i in items ensures BatchView(groups, options)(i) == JoinItem(t)(i) {
      GroupsFromBatch(t, ids, i);
    }
    BucketsAgree(items, CategoryOf(), BatchView(groups, options), JoinItem(t), |items|);
  }

  /** The lookups, the loop and the final map compute the join. */
  method BuildCategories(t: Tables, restaurantId: nat) returns (views: seq<CategoryView>)
    ensures views == Join(t, restaurantId)
  {
    var categories := Sort(CategoryOrder(), Filter(LiveCategory(restaurantId), t.categories));
    var items := Sort(ItemOrder(), Filter(Published(restaurantId), t.items));
    var groupIds := GroupIds(items);
    var optionGroups := if |groupIds| > 0 then Filter(LiveGroup(groupIds), t.groups) else [];
    var optionItems := if |groupIds| > 0 then Sort(OptionOrder(), Filter(LiveOption(groupIds), t.optionItems)) else [];
    NothingFromNoIds(t, groupIds);
    var itemByCategory := BucketBy(items, CategoryOf(), BatchView(optionGroups, optionItems));
    BatchViewsAgree(t, items, groupIds, optionGroups, optionItems);
    BucketsAreTheJoin(t, restaurantId, items);
    views := Map(Batched(itemByCategory), categories);
  }

  lemma {:induction false} FilterNone<T(!new)>(p: T -> bool, s: seq<T>)
    requires forall x :: x in s ==> !p(x)
    ensures Filter(p, s) == []
  {
    if s != [] {
      assert s[0] in s;
      FilterNone(p, s[1..]);
    }
  }

  lemma NothingFromNoIds(t: Tables, ids: seq<nat>)
    ensures ids == [] ==> IsBatch(t, ids, [], [])
  {
    if ids == [] {
      FilterNone(LiveGroup(ids), t.groups);
      FilterNone(LiveOption(ids), t.optionItems);
    }
  }

  // ---- What is in stock ----

  function StockedView(): ItemView -> bool {
    (v: ItemView) => v.availability.InStock?
  }

  function Stocked(): Item -> bool {
    (i: Item) => i.availability.InStock?
  }

  function StockFilter(): CategoryView -> CategoryView {
    (c: CategoryView) => c.(items := Filter(StockedView(), c.items))
  }

  /** The menu with what is out of stock taken out, as getRestaurantMenu returns it. */
  function InStockMenu(views: seq<CategoryView>): seq<CategoryView> {
    Map(StockFilter(), views)
  }

  function InStockOnly(t: Tables): Tables {
    t.(items := Filter(Stocked(), t.items))
  }

  /** What an item looks like depends on the option tables only. */
  lemma JoinItemReadsOptions(t: Tables, u: Tables, i: Item)
    requires t.groups == u.groups && t.optionItems == u.optionItems
    ensures JoinItem(t)(i) == JoinItem(u)(i)
  {
    var groups := Sort(GroupOrder(), Filter(LiveGroup(i.groupIds), t.groups));
    forall g | g in groups ensures JoinGroup(t)(g) == JoinGroup(u)(g) {
      assert OptionsOf(t, g) == OptionsOf(u, g);
    }
    MapAgrees(JoinGroup(t), JoinGroup(u), groups);
  }

  lemma InStockItems(t: Tables, restaurantId: nat, categoryId: nat)
    ensures Filter(StockedView(), ItemsOf(t, restaurantId, categoryId)) == ItemsOf(InStockOnly(t), restaurantId, categoryId)
  {
    var p := PublishedIn(restaurantId, categoryId);
    var both := (i: Item) => p(i) && i.availability.InStock?;
    var sorted := Sort(ItemOrder(), Filter(p, t.items));
    FilterMap(JoinItem(t), StockedView(), Stocked(), sorted);
    FilterSort(Stocked(), ItemOrder(), Filter(p, t.items));
    FilterFilter(Stocked(), p, both, t.items);
    FilterFilter(p, Stocked(), both, t.items);
    var left := Sort(ItemOrder(), Filter(both, t.items));
    forall i | i in left ensures JoinItem(t)(i) == JoinItem(InStockOnly(t))(i) {
      JoinItemReadsOptions(t, InStockOnly(t), i);
    }
    MapAgrees(JoinItem(t), JoinItem(InStockOnly(t)), left);
  }

  /** Filtering the projection for what is in stock is projecting only what is in stock. */
  lemma InStockMenuIsInStockJoin(t: Tables, restaurantId: nat)
    ensures InStockMenu(Join(t, restaurantId)) == Join(InStockOnly(t), restaurantId)
  {
    var categories := Sort(CategoryOrder(), Filter(LiveCategory(restaurantId), t.categories));
    var left, right := InStockMenu(Join(t, restaurantId)), Join(InStockOnly(t), restaurantId);
    forall k | 0 <= k < |categories| ensures left[k] == right[k] {
      InStockItems(t, restaurantId, categories[k].id);
    }
  }
}
