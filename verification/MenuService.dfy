/** The menu mutations and the projection as they run: one object whose collections and cache
    are updated in place, proved to do what Menu says. */
module MenuService {
  import opened Options
  import opened Slugs
  import opened MenuJoin
  import opened MenuTables
  import opened Menu

  class Service {
    const ttl: int
    const redis: bool
    var restaurants: seq<Restaurant>
    var categories: seq<Category>
    var items: seq<Item>
    var groups: seq<Group>
    var optionItems: seq<OptionItem>
    var rows: map<nat, Row>
    var inserted: seq<nat>          // the natural order of the projection collection
    var cache: map<string, Entry>

    function Tables(): Tables
      reads this
    {
      MenuJoin.Tables.Tables(categories, items, groups, optionItems)
    }

    function View(now: int): World
      reads this
    {
      World(ttl, redis, now, restaurants, Tables(), rows, inserted, cache)
    }

    constructor (ttl: int, redis: bool)
      ensures this.ttl == ttl && this.redis == redis && View(0) == Start(ttl, redis)
    {
      this.ttl, this.redis := ttl, redis;
      restaurants, categories, items, groups, optionItems, rows, inserted, cache := [], [], [], [], [], map[], [], map[];
    }

    method PutCache(citySlug: string, slug: string, row: Row, now: int)
      modifies this`cache
      ensures View(now) == SetCache(old(View(now)), citySlug, slug, row)
    {
      if !redis {
        return;
      }
      cache := cache[CacheKey(citySlug, slug) := Entry(row, now + ttl)];
    }

    /** ok is false when the unique index refuses the upsert. */
    method RebuildForRestaurant(r: nat, now: int) returns (ok: bool)
      modifies this`rows, this`inserted, this`cache
      ensures (View(now), ok) == RebuildFor(old(View(now)), r)
    {
      if r >= |restaurants| || !restaurants[r].active {
        if r in rows && !rows[r].deleted {
          rows := rows[r := rows[r].(deleted := true)];
        }
        if r < |restaurants| && redis {
          cache := cache - {CacheKey(restaurants[r].citySlug, restaurants[r].slug)};
        }
        return true;
      }
      var x := restaurants[r];
      var views := BuildCategories(Tables(), r);
      var projection := Projection(r, x, views);
      if r in rows && rows[r].deleted {
        return false;
      }
      if r !in rows {
        inserted := inserted + [r];
      }
      rows := rows[r := projection];
      PutCache(x.citySlug, x.slug, projection, now);
      return true;
    }

    method ReadPublicMenu(citySlug: string, slug: string, now: int) returns (found: Option<Row>)
      modifies this`cache
      ensures (View(now), found) == GetPublicMenu(old(View(now)), citySlug, slug)
    {
      var key := CacheKey(citySlug, slug);
      if redis && key in cache && now < cache[key].deadline {
        return Some(cache[key].row);
      }
      found := FindLive(rows, inserted, citySlug, slug);
      if found.Some? {
        PutCache(citySlug, slug, found.value, now);
      }
    }

    method GetRestaurantMenu(citySlug: string, slug: string, includeOutOfStock: bool, now: int) returns (menu: Option<seq<CategoryView>>)
      modifies this`cache
      ensures View(now) == ReadMenu(old(View(now)), citySlug, slug).0
      ensures menu == MenuReply(old(View(now)), citySlug, slug, includeOutOfStock)
    {
      if !Visible(restaurants, citySlug, slug) {
        return None;
      }
      var projection := ReadPublicMenu(citySlug, slug, now);
      if projection.None? {
        return None;
      }
      if includeOutOfStock {
        return Some(projection.value.categories);
      }
      return Some(InStockMenu(projection.value.categories));
    }

    /** The tail of every mutation: the new tables are in place, the projection follows. */
    method Finish(ghost op: MenuOp, ghost before: World, r: nat, now: int)
      requires before.clock == now && Mutate(before.tables, op) == Outcome.Rebuild(Tables(), r)
      requires View(now) == before.(tables := Tables())
      modifies this`rows, this`inserted, this`cache
      ensures View(now) == Apply(before, MenuCall(op))
    {
      var ok := RebuildForRestaurant(r, now);
    }

    method CreateCategory(r: nat, name: string, description: string, sortOrder: real, now: int)
      modifies this`categories, this`rows, this`inserted, this`cache
      ensures View(now) == Apply(old(View(now)), MenuCall(MenuOp.CreateCategory(r, name, description, sortOrder)))
    {
      ghost var before := View(now);
      categories := categories + [Category(|categories|, r, name, description, sortOrder, true, false)];
      Finish(MenuOp.CreateCategory(r, name, description, sortOrder), before, r, now);
    }

    method UpdateCategory(r: nat, id: nat, p: CategoryPatch, now: int) returns (found: bool)
      modifies this`categories, this`rows, this`inserted, this`cache
      ensures found == HasCategory(old(Tables()), r, id)
      ensures View(now) == Apply(old(View(now)), MenuCall(MenuOp.UpdateCategory(r, id, p)))
    {
      if id >= |categories| || categories[id].deleted || categories[id].restaurantId != r {
        return false;
      }
      ghost var before := View(now);
      var c := categories[id];
      categories := categories[id := c.(name := Or(p.name, c.name), description := Or(p.description, c.description),
                                        sortOrder := Or(p.sortOrder, c.sortOrder))];
      Finish(MenuOp.UpdateCategory(r, id, p), before, r, now);
      return true;
    }

    method DeleteCategory(r: nat, id: nat, now: int) returns (found: bool)
      modifies this`categories, this`rows, this`inserted, this`cache
      ensures found == HasCategory(old(Tables()), r, id)
      ensures View(now) == Apply(old(View(now)), MenuCall(MenuOp.DeleteCategory(r, id)))
    {
      if id >= |categories| || categories[id].deleted || categories[id].restaurantId != r {
        return false;
      }
      ghost var before := View(now);
      categories := categories[id := categories[id].(deleted := true, isActive := false)];
      Finish(MenuOp.DeleteCategory(r, id), before, r, now);
      return true;
    }

    /** The loop of createItem over the option groups of the new item. */
    method StoreGroups(r: nat, inputs: seq<GroupInput>) returns (groupIds: seq<nat>)
      modifies this`groups, this`optionItems
      ensures Tables() == AddGroups(old(Tables()), r, inputs, |inputs|)
      ensures groupIds == NewIds(|old(groups)|, |inputs|)
    {
      groupIds := [];
      for n := 0 to |inputs|
        invariant Tables() == AddGroups(old(Tables()), r, inputs, n)
        invariant |groups| == |old(groups)| + n
        invariant groupIds == NewIds(|old(groups)|, n)
      {
        var id := |groups|;
        groups := groups + [NewGroup(id, r, inputs[n])];
        groupIds := groupIds + [id];
        var more := inputs[n].items;
        if |more| > 0 {
          optionItems := optionItems + NewOptions(|optionItems|, id, more);
        } else {
          assert optionItems + NewOptions(|optionItems|, id, more) == optionItems;
        }
      }
    }

    method CreateItem(r: nat, input: ItemInput, inputs: seq<GroupInput>, now: int) returns (found: bool)
      modifies this`items, this`groups, this`optionItems, this`rows, this`inserted, this`cache
      ensures found == HasCategory(old(Tables()), r, input.categoryId)
      ensures View(now) == Apply(old(View(now)), MenuCall(MenuOp.CreateItem(r, input, inputs)))
    {
      var id := input.categoryId;
      if id >= |categories| || categories[id].deleted || categories[id].restaurantId != r {
        return false;
      }
      ghost var before := View(now);
      var groupIds := StoreGroups(r, inputs);
      items := items + [Item(|items|, r, id, groupIds, input.details, input.prepTime, input.availability,
                             input.isPublished, input.sortOrder, false)];
      assert Tables() == AddItem(AddGroups(before.tables, r, inputs, |inputs|), r, input, groupIds);
      Finish(MenuOp.CreateItem(r, input, inputs), before, r, now);
      return true;
    }

    method UpdateItem(r: nat, id: nat, p: ItemPatch, now: int) returns (found: bool)
      modifies this`items, this`rows, this`inserted, this`cache
      ensures found == (HasItem(old(Tables()), id) && old(items)[id].restaurantId == r)
      ensures View(now) == Apply(old(View(now)), MenuCall(MenuOp.UpdateItem(r, id, p)))
    {
      if id >= |items| || items[id].deleted || items[id].restaurantId != r {
        return false;
      }
      ghost var before := View(now);
      items := items[id := Patched(items[id], p)];
      Finish(MenuOp.UpdateItem(r, id, p), before, r, now);
      return true;
    }

    method DeleteItem(r: nat, id: nat, now: int) returns (found: bool)
      modifies this`items, this`rows, this`inserted, this`cache
      ensures found == (HasItem(old(Tables()), id) && old(items)[id].restaurantId == r)
      ensures View(now) == Apply(old(View(now)), MenuCall(MenuOp.DeleteItem(r, id)))
    {
      if id >= |items| || items[id].deleted || items[id].restaurantId != r {
        return false;
      }
      ghost var before := View(now);
      items := items[id := items[id].(deleted := true)];
      Finish(MenuOp.DeleteItem(r, id), before, r, now);
      return true;
    }

    /** allowed: what ensureManageAccess finds. */
    method SetAvailability(id: nat, allowed: bool, availability: Availability, now: int) returns (done: bool)
      modifies this`items, this`rows, this`inserted, this`cache
      ensures done == (HasItem(old(Tables()), id) && allowed)
      ensures View(now) == Apply(old(View(now)), MenuCall(MenuOp.SetAvailability(id, allowed, availability)))
    {
      if id >= |items| || items[id].deleted || !allowed {
        return false;
      }
      ghost var before := View(now);
      items := items[id := items[id].(availability := availability)];
      Finish(MenuOp.SetAvailability(id, allowed, availability), before, items[id].restaurantId, now);
      return true;
    }

    method SetPublish(id: nat, allowed: bool, isPublished: bool, now: int) returns (done: bool)
      modifies this`items, this`rows, this`inserted, this`cache
      ensures done == (HasItem(old(Tables()), id) && allowed)
      ensures View(now) == Apply(old(View(now)), MenuCall(MenuOp.SetPublish(id, allowed, isPublished)))
    {
      if id >= |items| || items[id].deleted || !allowed {
        return false;
      }
      ghost var before := View(now);
      items := items[id := items[id].(isPublished := isPublished)];
      Finish(MenuOp.SetPublish(id, allowed, isPublished), before, items[id].restaurantId, now);
      return true;
    }
  }
}
