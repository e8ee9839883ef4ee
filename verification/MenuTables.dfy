/** The menu mutations of restaurantService on the four tables (menu.service.js), and that
    none of them shows in another restaurant's menu. */
module MenuTables {
  import opened Options
  import opened StableSort
  import opened MenuJoin

  datatype CategoryPatch = CategoryPatch(name: Option<string>, description: Option<string>, sortOrder: Option<real>)
  datatype ItemPatch = ItemPatch(categoryId: Option<nat>, details: Option<Details>, prepTime: Option<int>,
                                 availability: Option<Availability>, isPublished: Option<bool>, sortOrder: Option<real>)

  datatype OptionInput = OptionInput(name: string, priceDelta: int, sortOrder: real)
  datatype GroupInput = GroupInput(name: string, required: bool, multiSelect: bool, minSelect: int, maxSelect: int,
                                   sortOrder: real, items: seq<OptionInput>)
  datatype ItemInput = ItemInput(categoryId: nat, details: Details, prepTime: int, availability: Availability,
                                 isPublished: bool, sortOrder: real)

  datatype MenuOp =
    | CreateCategory(restaurantId: nat, name: string, description: string, sortOrder: real)
    | UpdateCategory(restaurantId: nat, categoryId: nat, categoryPatch: CategoryPatch)
    | DeleteCategory(restaurantId: nat, categoryId: nat)
    | CreateItem(restaurantId: nat, input: ItemInput, groups: seq<GroupInput>)
    | UpdateItem(restaurantId: nat, itemId: nat, itemPatch: ItemPatch)
    | DeleteItem(restaurantId: nat, itemId: nat)
    | SetAvailability(itemId: nat, allowed: bool, availability: Availability)
    | SetPublish(itemId: nat, allowed: bool, isPublished: bool)

  function Or<T>(o: Option<T>, d: T): T {
    if o.Some? then o.value else d
  }

  function Patched(i: Item, p: ItemPatch): Item {
    i.(categoryId := Or(p.categoryId, i.categoryId), details := Or(p.details, i.details), prepTime := Or(p.prepTime, i.prepTime),
       availability := Or(p.availability, i.availability), isPublished := Or(p.isPublished, i.isPublished),
       sortOrder := Or(p.sortOrder, i.sortOrder))
  }

  const NoPatch := ItemPatch(None, None, None, None, None, None)

  predicate HasCategory(t: Tables, restaurantId: nat, id: nat) {
    id < |t.categories| && !t.categories[id].deleted && t.categories[id].restaurantId == restaurantId
  }

  predicate HasItem(t: Tables, id: nat) {
    id < |t.items| && !t.items[id].deleted
  }

  function SetCategory(t: Tables, id: nat, c: Category): Tables
    requires id < |t.categories|
  {
    t.(categories := t.categories[id := c])
  }

  function SetItem(t: Tables, id: nat, i: Item): Tables
    requires id < |t.items|
  {
    t.(items := t.items[id := i])
  }

  // ---- createItem ----

  function NewGroup(id: nat, restaurantId: nat, g: GroupInput): Group {
    Group(id, restaurantId, g.name, g.required, g.multiSelect, g.minSelect, g.maxSelect, g.sortOrder, true, false)
  }

  /** insertMany: the new options of one group, numbered from first. */
  function NewOptions(first: nat, groupId: nat, inputs: seq<OptionInput>): seq<OptionItem> {
    seq(|inputs|, k requires 0 <= k < |inputs| =>
      OptionItem(first + k, groupId, inputs[k].name, inputs[k].priceDelta, inputs[k].sortOrder, true, false))
  }

  /** The option tables after the first n option groups of a new item have been stored. */
  function AddGroups(t: Tables, restaurantId: nat, inputs: seq<GroupInput>, n: nat): Tables
    requires n <= |inputs|
  {
    if n == 0 then t
    else
      var u := AddGroups(t, restaurantId, inputs, n - 1);
      var id := |u.groups|;
      u.(groups := u.groups + [NewGroup(id, restaurantId, inputs[n - 1])],
         optionItems := u.optionItems + NewOptions(|u.optionItems|, id, inputs[n - 1].items))
  }

  /** The ids of n new groups. */
  function NewIds(first: nat, n: nat): seq<nat> {
    seq(n, k requires 0 <= k < n => first + k)
  }

  function AddItem(t: Tables, restaurantId: nat, input: ItemInput, groupIds: seq<nat>): Tables {
    t.(items := t.items + [Item(|t.items|, restaurantId, input.categoryId, groupIds, input.details, input.prepTime,
                                input.availability, input.isPublished, input.sortOrder, false)])
  }

  // ---- Every mutation: the new tables and the restaurant to rebuild, or refused ----

  datatype Outcome = NotFound | Denied | Rebuild(tables: Tables, restaurantId: nat)

  function Mutate(t: Tables, op: MenuOp): Outcome {
    match op
    case CreateCategory(r, name, description, sortOrder) =>
      Rebuild(t.(categories := t.categories + [Category(|t.categories|, r, name, description, sortOrder, true, false)]), r)
    case UpdateCategory(r, id, p) =>
      if !HasCategory(t, r, id) then NotFound
      else
        var c := t.categories[id];
        Rebuild(SetCategory(t, id, c.(name := Or(p.name, c.name), description := Or(p.description, c.description),
                                      sortOrder := Or(p.sortOrder, c.sortOrder))), r)
    case DeleteCategory(r, id) =>
      if !HasCategory(t, r, id) then NotFound
      else Rebuild(SetCategory(t, id, t.categories[id].(deleted := true, isActive := false)), r)
    case CreateItem(r, input, groups) =>
      if !HasCategory(t, r, input.categoryId) then NotFound
      else Rebuild(AddItem(AddGroups(t, r, groups, |groups|), r, input, NewIds(|t.groups|, |groups|)), r)
    case UpdateItem(r, id, p) =>
      if !HasItem(t, id) || t.items[id].restaurantId != r then NotFound
      else Rebuild(SetItem(t, id, Patched(t.items[id], p)), r)
    case DeleteItem(r, id) =>
      if !HasItem(t, id) || t.items[id].restaurantId != r then NotFound
      else Rebuild(SetItem(t, id, t.items[id].(deleted := true)), r)
    case SetAvailability(id, allowed, availability) =>
      if !HasItem(t, id) then NotFound
      else if !allowed then Denied
      else Rebuild(SetItem(t, id, Patched(t.items[id], NoPatch.(availability := Some(availability)))), t.items[id].restaurantId)
    case SetPublish(id, allowed, isPublished) =>
      if !HasItem(t, id) then NotFound
      else if !allowed then Denied
      else Rebuild(SetItem(t, id, Patched(t.items[id], NoPatch.(isPublished := Some(isPublished)))), t.items[id].restaurantId)
  }

  // ---- Ids and references ----

  predicate TablesOk(t: Tables) {
    && (forall k :: 0 <= k < |t.categories| ==> t.categories[k].id == k)
    && (forall k :: 0 <= k < |t.items| ==> t.items[k].id == k)
    && (forall k :: 0 <= k < |t.groups| ==> t.groups[k].id == k)
    && (forall k :: 0 <= k < |t.optionItems| ==> t.optionItems[k].id == k)
    && (forall k :: 0 <= k < |t.items| ==> GroupsExist(t.items[k], |t.groups|))
    && (forall k :: 0 <= k < |t.optionItems| ==> t.optionItems[k].groupId < |t.groups|)
  }

  predicate GroupsExist(i: Item, groups: nat) {
    forall id :: id in i.groupIds ==> id < groups
  }

  // ---- Menus that do not change ----

  lemma {:induction false} FilterConcat<T(!new)>(p: T -> bool, a: seq<T>, b: seq<T>)
    ensures Filter(p, a + b) == Filter(p, a) + Filter(p, b)
  {
    if a == [] {
      assert a + b == b;
    } else {
      FilterConcat(p, a[1..], b);
      assert (a + b)[1..] == a[1..] + b && (a + b)[0] == a[0];
      assert Filter(p, a) + Filter(p, b) == (if p(a[0]) then [a[0]] else []) + (Filter(p, a[1..]) + Filter(p, b));
    }
  }

  /** Rows outside the filter may come and go. */
  lemma FilterUpdate<T(!new)>(p: T -> bool, s: seq<T>, k: nat, x: T)
    requires k < |s| && !p(s[k]) && !p(x)
    ensures Filter(p, s[k := x]) == Filter(p, s)
  {
    assert s == s[..k] + ([s[k]] + s[k + 1..]);
    assert s[k := x] == s[..k] + ([x] + s[k + 1..]);
    FilterConcat(p, s[..k], [s[k]] + s[k + 1..]);
    FilterConcat(p, s[..k], [x] + s[k + 1..]);
    FilterConcat(p, [s[k]], s[k + 1..]);
    FilterConcat(p, [x], s[k + 1..]);
    FilterNone(p, [s[k]]);
    FilterNone(p, [x]);
  }

  lemma {:induction false} FilterExtended<T(!new)>(p: T -> bool, s: seq<T>, extra: seq<T>)
    requires forall x :: x in extra ==> !p(x)
    ensures Filter(p, s + extra) == Filter(p, s)
  {
    FilterConcat(p, s, extra);
    FilterNone(p, extra);
  }

  /** Two sets of tables in which a restaurant has the same categories and published items, and
      those items look the same. */
  ghost predicate SameMenu(t: Tables, u: Tables, r: nat) {
    && Filter(LiveCategory(r), t.categories) == Filter(LiveCategory(r), u.categories)
    && (forall c: nat :: Filter(PublishedIn(r, c), t.items) == Filter(PublishedIn(r, c), u.items))
    && (forall i :: i in t.items ==> JoinItem(t)(i) == JoinItem(u)(i))
  }

  lemma SameItems(t: Tables, u: Tables, r: nat, c: nat)
    requires SameMenu(t, u, r)
    ensures ItemsOf(t, r, c) == ItemsOf(u, r, c)
  {
    var rows := Filter(PublishedIn(r, c), t.items);
    SortMembers(ItemOrder(), rows);
    MapAgrees(JoinItem(t), JoinItem(u), Sort(ItemOrder(), rows));
  }

  lemma SameMenuSameJoin(t: Tables, u: Tables, r: nat)
    requires SameMenu(t, u, r)
    ensures Join(t, r) == Join(u, r)
  {
    var categories := Sort(CategoryOrder(), Filter(LiveCategory(r), t.categories));
    forall c | c in categories ensures JoinCategory(t, r)(c) == JoinCategory(u, r)(c) {
      SameItems(t, u, r, c.id);
    }
    MapAgrees(JoinCategory(t, r), JoinCategory(u, r), categories);
  }

  lemma SetCategoryElsewhere(t: Tables, id: nat, c: Category, r: nat)
    requires id < |t.categories| && t.categories[id].restaurantId != r && c.restaurantId != r
    ensures Join(SetCategory(t, id, c), r) == Join(t, r)
  {
    var u := SetCategory(t, id, c);
    FilterUpdate(LiveCategory(r), t.categories, id, c);
    forall i | i in t.items ensures JoinItem(t)(i) == JoinItem(u)(i) {
      JoinItemReadsOptions(t, u, i);
    }
    SameMenuSameJoin(t, u, r);
  }

  lemma AddCategoryElsewhere(t: Tables, c: Category, r: nat)
    requires c.restaurantId != r
    ensures Join(t.(categories := t.categories + [c]), r) == Join(t, r)
  {
    var u := t.(categories := t.categories + [c]);
    FilterExtended(LiveCategory(r), t.categories, [c]);
    forall i | i in t.items ensures JoinItem(t)(i) == JoinItem(u)(i) {
      JoinItemReadsOptions(t, u, i);
    }
    SameMenuSameJoin(t, u, r);
  }

  lemma SetItemElsewhere(t: Tables, id: nat, x: Item, r: nat)
    requires id < |t.items| && t.items[id].restaurantId != r && x.restaurantId != r
    ensures Join(SetItem(t, id, x), r) == Join(t, r)
  {
    var u := SetItem(t, id, x);
    forall c: nat ensures Filter(PublishedIn(r, c), t.items) == Filter(PublishedIn(r, c), u.items) {
      FilterUpdate(PublishedIn(r, c), t.items, id, x);
    }
    forall i | i in t.items ensures JoinItem(t)(i) == JoinItem(u)(i) {
      JoinItemReadsOptions(t, u, i);
    }
    SameMenuSameJoin(t, u, r);
  }

  lemma AddItemElsewhere(t: Tables, r': nat, input: ItemInput, groupIds: seq<nat>, r: nat)
    requires r' != r
    ensures Join(AddItem(t, r', input, groupIds), r) == Join(t, r)
  {
    var u := AddItem(t, r', input, groupIds);
    forall c: nat ensures Filter(PublishedIn(r, c), t.items) == Filter(PublishedIn(r, c), u.items) {
      FilterExtended(PublishedIn(r, c), t.items, u.items[|t.items|..]);
    }
    forall i | i in t.items ensures JoinItem(t)(i) == JoinItem(u)(i) {
      JoinItemReadsOptions(t, u, i);
    }
    SameMenuSameJoin(t, u, r);
  }

  // ---- New option groups are seen by no older item ----

  /** The option tables have only grown, with groups and options of new groups. */
  predicate OnlyNewGroups(t: Tables, u: Tables) {
    && u.categories == t.categories && u.items == t.items
    && t.groups <= u.groups && t.optionItems <= u.optionItems
    && (forall k :: |t.groups| <= k < |u.groups| ==> u.groups[k].id >= |t.groups|)
    && (forall k :: |t.optionItems| <= k < |u.optionItems| ==> u.optionItems[k].groupId >= |t.groups|)
  }

  lemma {:induction false} AddGroupsOnlyNew(t: Tables, r: nat, inputs: seq<GroupInput>, n: nat)
    requires n <= |inputs|
    ensures var u := AddGroups(t, r, inputs, n); OnlyNewGroups(t, u) && |u.groups| == |t.groups| + n
    ensures TablesOk(t) ==> TablesOk(AddGroups(t, r, inputs, n))
  {
    if n > 0 {
      AddGroupsOnlyNew(t, r, inputs, n - 1);
    }
  }

  // ---- A new item shows the option groups it was created with ----

  function NewGroups(first: nat, r: nat, inputs: seq<GroupInput>, n: nat): seq<Group>
    requires n <= |inputs|
  {
    seq(n, k requires 0 <= k < n => NewGroup(first + k, r, inputs[k]))
  }

  lemma {:induction false} AddedGroups(t: Tables, r: nat, inputs: seq<GroupInput>, n: nat)
    requires n <= |inputs|
    ensures AddGroups(t, r, inputs, n).groups == t.groups + NewGroups(|t.groups|, r, inputs, n)
  {
    if n > 0 {
      AddedGroups(t, r, inputs, n - 1);
      assert NewGroups(|t.groups|, r, inputs, n) ==
        NewGroups(|t.groups|, r, inputs, n - 1) + [NewGroup(|t.groups| + n - 1, r, inputs[n - 1])];
    }
  }

  function Content(): OptionItem -> OptionInput {
    (o: OptionItem) => OptionInput(o.name, o.priceDelta, o.sortOrder)
  }

  lemma {:induction false} FilterAll<T(!new)>(p: T -> bool, s: seq<T>)
    requires forall x :: x in s ==> p(x)
    ensures Filter(p, s) == s
  {
    if s != [] {
      assert s[0] in s;
      FilterAll(p, s[1..]);
      assert s == [s[0]] + s[1..];
    }
  }

  lemma {:induction false} OptionsOfOlder(options: seq<OptionItem>, id: nat, newest: nat, inputs: seq<OptionInput>)
    requires id != newest
    ensures Filter(LiveOption([id]), options + NewOptions(|options|, newest, inputs)) == Filter(LiveOption([id]), options)
  {
    FilterExtended(LiveOption([id]), options, NewOptions(|options|, newest, inputs));
  }

  lemma {:induction false} OnlyNewestLeft(options: seq<OptionItem>, newest: nat, added: seq<OptionItem>)
    requires forall k :: 0 <= k < |options| ==> options[k].groupId < newest
    requires forall x :: x in added ==> LiveOption([newest])(x)
    ensures Filter(LiveOption([newest]), options + added) == added
  {
    FilterConcat(LiveOption([newest]), options, added);
    FilterNone(LiveOption([newest]), options);
    FilterAll(LiveOption([newest]), added);
    assert [] + added == added;
  }

  lemma NewOptionsContent(first: nat, groupId: nat, inputs: seq<OptionInput>)
    ensures Map(Content(), NewOptions(first, groupId, inputs)) == inputs
    ensures forall x :: x in NewOptions(first, groupId, inputs) ==> LiveOption([groupId])(x)
  {}

  lemma {:induction false} OptionsOfNewest(options: seq<OptionItem>, newest: nat, inputs: seq<OptionInput>)
    requires forall k :: 0 <= k < |options| ==> options[k].groupId < newest
    ensures Map(Content(), Filter(LiveOption([newest]), options + NewOptions(|options|, newest, inputs))) == inputs
  {
    NewOptionsContent(|options|, newest, inputs);
    OnlyNewestLeft(options, newest, NewOptions(|options|, newest, inputs));
  }

  lemma LastOptions(t: Tables, r: nat, inputs: seq<GroupInput>, n: nat)
    requires TablesOk(t) && 0 < n <= |inputs|
    ensures var before := AddGroups(t, r, inputs, n - 1).optionItems; var newest := |t.groups| + n - 1;
      && AddGroups(t, r, inputs, n).optionItems == before + NewOptions(|before|, newest, inputs[n - 1].items)
      && forall k :: 0 <= k < |before| ==> before[k].groupId < newest
  {
    AddGroupsOnlyNew(t, r, inputs, n - 1);
  }

  /** The stored options of the k-th new group are exactly the ones asked for, in their order. */
  lemma {:induction false} AddedOptions(t: Tables, r: nat, inputs: seq<GroupInput>, n: nat, k: nat)
    requires TablesOk(t) && k < n <= |inputs|
    ensures Map(Content(), Filter(LiveOption([|t.groups| + k]), AddGroups(t, r, inputs, n).optionItems)) == inputs[k].items
  {
    LastOptions(t, r, inputs, n);
    var before, newest := AddGroups(t, r, inputs, n - 1).optionItems, |t.groups| + n - 1;
    if k < n - 1 {
      AddedOptions(t, r, inputs, n - 1, k);
      OptionsOfOlder(before, |t.groups| + k, newest, inputs[n - 1].items);
    } else {
      OptionsOfNewest(before, newest, inputs[n - 1].items);
    }
  }

  lemma {:induction false} LinkedToNewGroups(t: Tables, r: nat, inputs: seq<GroupInput>, n: nat)
    requires TablesOk(t) && n <= |inputs|
    ensures Filter(LiveGroup(NewIds(|t.groups|, n)), AddGroups(t, r, inputs, n).groups) == NewGroups(|t.groups|, r, inputs, n)
  {
    var ids, added := NewIds(|t.groups|, n), NewGroups(|t.groups|, r, inputs, n);
    AddedGroups(t, r, inputs, n);
    FilterConcat(LiveGroup(ids), t.groups, added);
    NoOldGroupLinked(t, n);
    FilterNone(LiveGroup(ids), t.groups);
    NewGroupsAreLinked(|t.groups|, r, inputs, n);
    FilterAll(LiveGroup(ids), added);
    assert [] + added == added;
  }

  lemma NoOldGroupLinked(t: Tables, n: nat)
    requires TablesOk(t)
    ensures forall g :: g in t.groups ==> !LiveGroup(NewIds(|t.groups|, n))(g)
  {}

  /** A created item is joined with exactly the groups it was created with, in sort order, each
      with exactly its own options; whatever groups and options other items have. */
  lemma CreatedItemShowsItsGroups(t: Tables, r: nat, input: ItemInput, inputs: seq<GroupInput>)
    requires TablesOk(t) && HasCategory(t, r, input.categoryId)
    ensures var u := Mutate(t, CreateItem(r, input, inputs)).tables;
      && |u.items| == |t.items| + 1
      && GroupsOf(u, u.items[|t.items|]) == Map(JoinGroup(u), Sort(GroupOrder(), NewGroups(|t.groups|, r, inputs, |inputs|)))
      && forall k :: 0 <= k < |inputs| ==>
           Map(Content(), Filter(LiveOption([|t.groups| + k]), u.optionItems)) == inputs[k].items
  {
    AddGroupsOnlyNew(t, r, inputs, |inputs|);
    LinkedToNewGroups(t, r, inputs, |inputs|);
    forall k | 0 <= k < |inputs|
      ensures Map(Content(), Filter(LiveOption([|t.groups| + k]), AddGroups(t, r, inputs, |inputs|).optionItems)) == inputs[k].items
    {
      AddedOptions(t, r, inputs, |inputs|, k);
    }
  }

  lemma NewGroupsAreLinked(first: nat, r: nat, inputs: seq<GroupInput>, n: nat)
    requires n <= |inputs|
    ensures forall g :: g in NewGroups(first, r, inputs, n) ==> LiveGroup(NewIds(first, n))(g)
  {
    forall g | g in NewGroups(first, r, inputs, n) ensures LiveGroup(NewIds(first, n))(g) {
      var k :| 0 <= k < n && NewGroups(first, r, inputs, n)[k] == g;
      assert NewIds(first, n)[k] == g.id;
    }
  }

  // ---- New option groups are invisible to older items ----

  lemma OldItemLooksTheSame(t: Tables, u: Tables, i: Item)
    requires OnlyNewGroups(t, u) && GroupsExist(i, |t.groups|)
    ensures JoinItem(t)(i) == JoinItem(u)(i)
  {
    assert u.groups == t.groups + u.groups[|t.groups|..];
    FilterExtended(LiveGroup(i.groupIds), t.groups, u.groups[|t.groups|..]);
    var groups := Sort(GroupOrder(), Filter(LiveGroup(i.groupIds), t.groups));
    SortMembers(GroupOrder(), Filter(LiveGroup(i.groupIds), t.groups));
    forall g | g in groups ensures JoinGroup(t)(g) == JoinGroup(u)(g) {
      assert u.optionItems == t.optionItems + u.optionItems[|t.optionItems|..];
      FilterExtended(LiveOption([g.id]), t.optionItems, u.optionItems[|t.optionItems|..]);
    }
    MapAgrees(JoinGroup(t), JoinGroup(u), groups);
  }

  lemma NewGroupsElsewhere(t: Tables, u: Tables, r: nat)
    requires TablesOk(t) && OnlyNewGroups(t, u)
    ensures Join(t, r) == Join(u, r)
  {
    forall i | i in t.items ensures JoinItem(t)(i) == JoinItem(u)(i) {
      var k :| 0 <= k < |t.items| && t.items[k] == i;
      assert GroupsExist(t.items[k], |t.groups|);
      OldItemLooksTheSame(t, u, i);
    }
    SameMenuSameJoin(t, u, r);
  }

  lemma {:induction false} CreateItemElsewhere(t: Tables, r': nat, input: ItemInput, groups: seq<GroupInput>, r: nat)
    requires TablesOk(t) && r' != r
    ensures Join(AddItem(AddGroups(t, r', groups, |groups|), r', input, NewIds(|t.groups|, |groups|)), r) == Join(t, r)
  {
    var u := AddGroups(t, r', groups, |groups|);
    AddGroupsOnlyNew(t, r', groups, |groups|);
    NewGroupsElsewhere(t, u, r);
    AddItemElsewhere(u, r', input, NewIds(|t.groups|, |groups|), r);
  }

  /** Every mutation keeps the references sound. */
  lemma MutateKeepsTables(t: Tables, op: MenuOp)
    requires TablesOk(t) && Mutate(t, op).Rebuild?
    ensures TablesOk(Mutate(t, op).tables)
  {
    if op.CreateItem? {
      AddGroupsOnlyNew(t, op.restaurantId, op.groups, |op.groups|);
    }
  }

  /** No mutation shows in the menu of any restaurant but the one that is rebuilt. */
  lemma MutateElsewhere(t: Tables, op: MenuOp, r: nat)
    requires TablesOk(t) && Mutate(t, op).Rebuild? && r != Mutate(t, op).restaurantId
    ensures Join(Mutate(t, op).tables, r) == Join(t, r)
  {
    var u := Mutate(t, op).tables;
    match op
    case CreateCategory(_, _, _, _) => AddCategoryElsewhere(t, u.categories[|t.categories|], r);
    case UpdateCategory(_, id, _) => SetCategoryElsewhere(t, id, u.categories[id], r);
    case DeleteCategory(_, id) => SetCategoryElsewhere(t, id, u.categories[id], r);
    case CreateItem(r', input, groups) => CreateItemElsewhere(t, r', input, groups, r);
    case UpdateItem(_, id, _) => SetItemElsewhere(t, id, u.items[id], r);
    case DeleteItem(_, id) => SetItemElsewhere(t, id, u.items[id], r);
    case SetAvailability(id, _, _) => SetItemElsewhere(t, id, u.items[id], r);
    case SetPublish(id, _, _) => SetItemElsewhere(t, id, u.items[id], r);
  }
}
