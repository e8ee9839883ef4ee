/** What the public menu shows over whole runs, traced back to the calls that made it so: which
    items and categories are on it, and what becomes of a deleted item. */
module MenuHistory {
  import opened Options
  import opened Runs
  import opened Slugs
  import opened MenuJoin
  import opened MenuTables
  import opened Menu
  import opened MenuRuns
  import opened MenuOutcomes

  lemma {:induction false} IndexAt(ttl: int, redis: bool, events: seq<Event>, n: nat)
    requires Possible(Step, Enabled, Start(ttl, redis), events) && n <= |events|
    ensures IndexOk(At(Step, Start(ttl, redis), events, n))
  {
    IndexKept();
    InvariantAt(Step, Enabled, IndexOk, Start(ttl, redis), events, n);
  }

  // ---- What a reply shows ----

  predicate ReplyShows(w: World, citySlug: string, slug: string, all: bool, id: nat) {
    match MenuReply(w, citySlug, slug, all)
    case None => false
    case Some(views) => ItemOn(views, id)
  }

  /** In runs in which slugs do not change, the reply at the address of an open restaurant shows an
      item exactly if the restaurant has a live projection, the item is its own, published and not
      deleted, in a category of its own that is active and not deleted, and in stock unless asked
      for all. */
  lemma {:induction false} ReplyShowsIff(ttl: int, redis: bool, events: seq<Event>, n: nat, citySlug: string, slug: string, all: bool, r: nat, id: nat)
    requires Possible(Step, EnabledNoRename, Start(ttl, redis), events) && n <= |events|
    requires IsOpen(At(Step, Start(ttl, redis), events, n).restaurants, r, citySlug, slug)
    ensures var w := At(Step, Start(ttl, redis), events, n);
      ReplyShows(w, citySlug, slug, all, id) <==>
        HasLive(w.rows, r) && ItemShown(w.tables, r, id) && (all || w.tables.items[id].availability == InStock)
  {
    var w := At(Step, Start(ttl, redis), events, n);
    WeakerGuard(Start(ttl, redis), events);
    IndexAt(ttl, redis, events, n);
    ShownMenuIsTheJoin(ttl, redis, events, n, citySlug, slug, all, r);
    InStockMenuIsInStockJoin(w.tables, r);
    ItemShownIff(w.tables, r, id);
    InStockShownIff(w.tables, r, id);
  }

  // ---- Which calls the rows go back to ----

  /** The menu operation of the event, if it is one and goes through. */
  function OpOf(w: World, e: Event): Option<MenuOp> {
    if e.call.MenuCall? && Mutate(w.tables, e.call.op).Rebuild? then Some(e.call.op) else None
  }

  lemma StepTables(w: World, e: Event)
    ensures Step(w, e).tables == if OpOf(w, e).Some? then Mutate(w.tables, e.call.op).tables else w.tables
  {
    var w0 := w.(clock := e.at);
    match e.call
    case MenuCall(op) =>
      var m := Mutate(w.tables, op);
      if m.Rebuild? {
        RebuildFrame(w0.(tables := m.tables), m.restaurantId, Join(m.tables, m.restaurantId));
      }
    case RebuildOnly(r) => RebuildFrame(w0, r, Join(w.tables, r));
    case _ => OtherCallsKeepIndex(w0, e.call);
  }

  /** The event is a deletion of the item by its restaurant, found. */
  function DeletesItem(id: nat): (World, Event) -> bool {
    (w: World, e: Event) =>
      e.call.MenuCall? && e.call.op.DeleteItem? && e.call.op.itemId == id
      && ItemThere(w.tables, id) && w.tables.items[id].restaurantId == e.call.op.restaurantId
  }

  function DeletesCategory(id: nat): (World, Event) -> bool {
    (w: World, e: Event) =>
      e.call.MenuCall? && e.call.op.DeleteCategory? && e.call.op.categoryId == id && CategoryThere(w.tables, e.call.op.restaurantId, id)
  }

  /** The event says of the item whether it is published: it creates it, patches that field, or sets it. */
  predicate SaysPublished(w: World, e: Event, id: nat, published: bool) {
    e.call.MenuCall? && match e.call.op
      case CreateItem(r, input, _) => id == |w.tables.items| && CategoryThere(w.tables, r, input.categoryId) && input.isPublished == published
      case UpdateItem(r, k, p) =>
        k == id && ItemThere(w.tables, id) && w.tables.items[id].restaurantId == r && p.isPublished == Some(published)
      case SetPublish(k, allowed, isPublished) => k == id && ItemThere(w.tables, id) && allowed && isPublished == published
      case _ => false
  }

  function Publishes(id: nat): (World, Event) -> bool { (w: World, e: Event) => SaysPublished(w, e, id, true) }
  function Unpublishes(id: nat): (World, Event) -> bool { (w: World, e: Event) => SaysPublished(w, e, id, false) }

  predicate SaysAvailable(w: World, e: Event, id: nat, availability: Availability) {
    e.call.MenuCall? && match e.call.op
      case CreateItem(r, input, _) => id == |w.tables.items| && CategoryThere(w.tables, r, input.categoryId) && input.availability == availability
      case UpdateItem(r, k, p) =>
        k == id && ItemThere(w.tables, id) && w.tables.items[id].restaurantId == r && p.availability == Some(availability)
      case SetAvailability(k, allowed, a) => k == id && ItemThere(w.tables, id) && allowed && a == availability
      case _ => false
  }

  function Stocks(id: nat): (World, Event) -> bool { (w: World, e: Event) => SaysAvailable(w, e, id, InStock) }
  function RunsOut(id: nat): (World, Event) -> bool { (w: World, e: Event) => SaysAvailable(w, e, id, OutOfStock) }

  predicate ItemDeleted(t: Tables, id: nat) { id < |t.items| && t.items[id].deleted }
  predicate ItemPublished(t: Tables, id: nat) { id < |t.items| && t.items[id].isPublished }
  predicate ItemInStock(t: Tables, id: nat) { id < |t.items| && t.items[id].availability == InStock }
  predicate CategoryGone(t: Tables, id: nat) { id < |t.categories| && t.categories[id].deleted }

  function HasDeleted(id: nat): World -> bool { (w: World) => ItemDeleted(w.tables, id) }
  function HasGone(id: nat): World -> bool { (w: World) => CategoryGone(w.tables, id) }
  function HasPublished(id: nat): World -> bool { (w: World) => ItemPublished(w.tables, id) }
  function HasStock(id: nat): World -> bool { (w: World) => ItemInStock(w.tables, id) }

  lemma NothingAtStart(ttl: int, redis: bool, id: nat)
    ensures var s := Start(ttl, redis); !HasDeleted(id)(s) && !HasGone(id)(s) && !HasPublished(id)(s) && !HasStock(id)(s)
  {}

  /** What an event makes of the flags of the item and of the category with the id. */
  predicate FlagsAfter(w: World, e: Event, t: Tables, id: nat) {
    && (ItemDeleted(t, id) <==> ItemDeleted(w.tables, id) || DeletesItem(id)(w, e))
    && (CategoryGone(t, id) <==> CategoryGone(w.tables, id) || DeletesCategory(id)(w, e))
    && (ItemPublished(t, id) <==> Publishes(id)(w, e) || (ItemPublished(w.tables, id) && !Unpublishes(id)(w, e)))
    && (ItemInStock(t, id) <==> Stocks(id)(w, e) || (ItemInStock(w.tables, id) && !RunsOut(id)(w, e)))
  }

  function TablesAfter(w: World, e: Event): Tables {
    if OpOf(w, e).Some? then Mutate(w.tables, e.call.op).tables else w.tables
  }

  lemma CategoryOpFlags(w: World, e: Event, id: nat)
    requires e.call.MenuCall? && (e.call.op.CreateCategory? || e.call.op.UpdateCategory? || e.call.op.DeleteCategory?)
    ensures FlagsAfter(w, e, TablesAfter(w, e), id)
  {
    match e.call.op
    case CreateCategory(r, name, description, sortOrder) => CreateCategoryAdds(w.tables, r, name, description, sortOrder);
    case UpdateCategory(r, k, p) => UpdateCategoryIff(w.tables, r, k, p);
    case DeleteCategory(r, k) => DeleteCategoryIff(w.tables, r, k);
  }

  lemma CreateItemFlags(w: World, e: Event, id: nat)
    requires e.call.MenuCall? && e.call.op.CreateItem?
    ensures FlagsAfter(w, e, TablesAfter(w, e), id)
  {
    CreateItemIff(w.tables, e.call.op.restaurantId, e.call.op.input, e.call.op.groups);
    var t := TablesAfter(w, e);
    assert id < |w.tables.items| ==> OpOf(w, e).Some? ==> t.items[id] == t.items[..|w.tables.items|][id];
  }

  lemma ItemOpFlags(w: World, e: Event, id: nat)
    requires e.call.MenuCall? && (e.call.op.UpdateItem? || e.call.op.DeleteItem?)
    ensures FlagsAfter(w, e, TablesAfter(w, e), id)
  {
    match e.call.op
    case UpdateItem(r, k, p) => UpdateItemIff(w.tables, r, k, p);
    case DeleteItem(r, k) => DeleteItemIff(w.tables, r, k);
  }

  lemma SetterFlags(w: World, e: Event, id: nat)
    requires e.call.MenuCall? && (e.call.op.SetAvailability? || e.call.op.SetPublish?)
    ensures FlagsAfter(w, e, TablesAfter(w, e), id)
  {
    match e.call.op
    case SetAvailability(k, allowed, availability) => SetAvailabilityIff(w.tables, k, allowed, availability);
    case SetPublish(k, allowed, isPublished) => SetPublishIff(w.tables, k, allowed, isPublished);
  }

  lemma StepFlags(w: World, e: Event, id: nat)
    ensures FlagsAfter(w, e, Step(w, e).tables, id)
  {
    StepTables(w, e);
    if e.call.MenuCall? {
      match e.call.op
      case CreateCategory(_, _, _, _) => CategoryOpFlags(w, e, id);
      case UpdateCategory(_, _, _) => CategoryOpFlags(w, e, id);
      case DeleteCategory(_, _) => CategoryOpFlags(w, e, id);
      case CreateItem(_, _, _) => CreateItemFlags(w, e, id);
      case UpdateItem(_, _, _) => ItemOpFlags(w, e, id);
      case DeleteItem(_, _) => ItemOpFlags(w, e, id);
      case SetAvailability(_, _, _) => SetterFlags(w, e, id);
      case SetPublish(_, _, _) => SetterFlags(w, e, id);
    }
  }

  lemma AnyKept()
    ensures Kept(Step, Enabled, Menu.Any)
  {}

  /** In every run, renames included, an item or a category is deleted exactly if its restaurant has
      had it deleted. */
  lemma {:induction false} DeletedIff(ttl: int, redis: bool, events: seq<Event>, n: nat, id: nat)
    requires Possible(Step, Enabled, Start(ttl, redis), events) && n <= |events|
    ensures var s := Start(ttl, redis); var t := At(Step, s, events, n).tables;
      && (ItemDeleted(t, id) <==> HappenedBefore(Step, s, events, DeletesItem(id), n))
      && (CategoryGone(t, id) <==> HappenedBefore(Step, s, events, DeletesCategory(id), n))
  {
    AnyKept();
    forall w: World, e: Event
      ensures HasDeleted(id)(Step(w, e)) <==> HasDeleted(id)(w) || DeletesItem(id)(w, e)
      ensures HasGone(id)(Step(w, e)) <==> HasGone(id)(w) || DeletesCategory(id)(w, e)
    {
      StepFlags(w, e, id);
    }
    NothingAtStart(ttl, redis, id);
    TurnedOnIff(Step, Enabled, Menu.Any, HasDeleted(id), DeletesItem(id), Start(ttl, redis), events, n);
    TurnedOnIff(Step, Enabled, Menu.Any, HasGone(id), DeletesCategory(id), Start(ttl, redis), events, n);
  }

  /** In every run an item is published, and in stock, exactly if the last call to say which has
      said so: its creation, an update of that field, or the call that sets it. */
  lemma {:induction false} PublishedAndStockedIff(ttl: int, redis: bool, events: seq<Event>, n: nat, id: nat)
    requires Possible(Step, Enabled, Start(ttl, redis), events) && n <= |events|
    ensures var s := Start(ttl, redis); var t := At(Step, s, events, n).tables;
      && (ItemPublished(t, id) <==> LastOn(Step, s, events, Publishes(id), Unpublishes(id), 0, n))
      && (ItemInStock(t, id) <==> LastOn(Step, s, events, Stocks(id), RunsOut(id), 0, n))
  {
    AnyKept();
    forall w: World, e: Event
      ensures HasPublished(id)(Step(w, e)) <==> Publishes(id)(w, e) || (HasPublished(id)(w) && !Unpublishes(id)(w, e))
      ensures HasStock(id)(Step(w, e)) <==> Stocks(id)(w, e) || (HasStock(id)(w) && !RunsOut(id)(w, e))
    {
      StepFlags(w, e, id);
    }
    NothingAtStart(ttl, redis, id);
    SwitchedIff(Step, Enabled, Menu.Any, HasPublished(id), Publishes(id), Unpublishes(id), Start(ttl, redis), events, n);
    SwitchedIff(Step, Enabled, Menu.Any, HasStock(id), Stocks(id), RunsOut(id), Start(ttl, redis), events, n);
  }

  // ---- Which restaurants have a live projection ----

  /** The event ends with the rebuild of the restaurant. */
  predicate RebuildsIt(w: World, e: Event, r: nat) {
    match e.call
    case RebuildOnly(k) => k == r
    case MenuCall(op) => Mutate(w.tables, op).Rebuild? && Mutate(w.tables, op).restaurantId == r
    case _ => false
  }

  predicate IsActive(w: World, r: nat) {
    r < |w.restaurants| && w.restaurants[r].active
  }

  function RebuildsActive(r: nat): (World, Event) -> bool {
    (w: World, e: Event) => RebuildsIt(w, e, r) && IsActive(w, r)
  }

  /** The restaurant, projected before, is rebuilt while it is not active. */
  function RebuildsInactive(r: nat): (World, Event) -> bool {
    (w: World, e: Event) => RebuildsIt(w, e, r) && r in w.rows && !IsActive(w, r)
  }

  function HasRow(r: nat): World -> bool { (w: World) => r in w.rows }

  predicate Deleted(rows: map<nat, Row>, r: nat) {
    r in rows && rows[r].deleted
  }

  /** What the rebuild of a restaurant, or none, does to the row of r. */
  predicate RowAfter(w: World, rows: map<nat, Row>, r: nat, rebuilt: bool) {
    && (r in rows <==> r in w.rows || (rebuilt && IsActive(w, r)))
    && (Deleted(rows, r) <==> Deleted(w.rows, r) || (rebuilt && r in w.rows && !IsActive(w, r)))
  }

  lemma RebuildRowAfter(w: World, k: nat, categories: seq<CategoryView>, r: nat)
    ensures RowAfter(w, RebuildWith(w, k, categories).0.rows, r, k == r)
  {}

  lemma MenuCallRowAfter(w: World, op: MenuOp, r: nat)
    ensures var m := Mutate(w.tables, op);
      RowAfter(w, Apply(w, MenuCall(op)).rows, r, m.Rebuild? && m.restaurantId == r)
  {
    var m := Mutate(w.tables, op);
    if m.Rebuild? {
      RebuildRowAfter(w.(tables := m.tables), m.restaurantId, Join(m.tables, m.restaurantId), r);
    }
  }

  lemma StepRowAfter(w: World, e: Event, r: nat)
    ensures RowAfter(w, Step(w, e).rows, r, RebuildsIt(w, e, r))
  {
    var w0 := w.(clock := e.at);
    match e.call
    case RebuildOnly(k) => RebuildRowAfter(w0, k, Join(w0.tables, k), r);
    case MenuCall(op) => MenuCallRowAfter(w0, op, r);
    case _ => OtherCallsKeepIndex(w0, e.call);
  }

  lemma StepRowsIff(w: World, e: Event, r: nat)
    ensures HasRow(r)(Step(w, e)) <==> HasRow(r)(w) || RebuildsActive(r)(w, e)
    ensures Gone(r)(Step(w, e)) <==> Gone(r)(w) || RebuildsInactive(r)(w, e)
  {
    StepRowAfter(w, e, r);
  }

  /** In every run a restaurant has a live projection exactly if it has been rebuilt while active,
      by a menu change or otherwise, and never, once projected, while not active. */
  lemma {:induction false} LiveIff(ttl: int, redis: bool, events: seq<Event>, n: nat, r: nat)
    requires Possible(Step, Enabled, Start(ttl, redis), events) && n <= |events|
    ensures var s := Start(ttl, redis);
      HasLive(At(Step, s, events, n).rows, r) <==>
        HappenedBefore(Step, s, events, RebuildsActive(r), n) && !HappenedBefore(Step, s, events, RebuildsInactive(r), n)
  {
    AnyKept();
    forall w: World, e: Event
      ensures HasRow(r)(Step(w, e)) <==> HasRow(r)(w) || RebuildsActive(r)(w, e)
      ensures Gone(r)(Step(w, e)) <==> Gone(r)(w) || RebuildsInactive(r)(w, e)
    {
      StepRowsIff(w, e, r);
    }
    TurnedOnIff(Step, Enabled, Menu.Any, HasRow(r), RebuildsActive(r), Start(ttl, redis), events, n);
    TurnedOnIff(Step, Enabled, Menu.Any, Gone(r), RebuildsInactive(r), Start(ttl, redis), events, n);
  }

  // ---- What is cached, and for how long ----

  /** The cache holds the row under the key, for ttl from now, and is as before elsewhere. */
  ghost predicate Caches(w: World, w': World, key: string, row: Row) {
    && key in w'.cache && w'.cache[key] == Entry(row, w.clock + w.ttl)
    && (forall k :: k in w'.cache <==> k in w.cache || k == key)
    && (forall k :: k in w.cache && k != key ==> w'.cache[k] == w.cache[k])
  }

  /** A rebuild that goes through stores the restaurant's row, under its name and address as they
      are, after all others if it is new, and caches it for ttl; that of a restaurant which is not active drops what is cached at
      its address. */
  lemma RebuildCaches(w: World, r: nat, categories: seq<CategoryView>)
    requires r < |w.restaurants|
    ensures var x := w.restaurants[r]; var key := CacheKey(x.citySlug, x.slug); var (w', done) := RebuildWith(w, r, categories);
      && (done <==> !(x.active && r in w.rows && w.rows[r].deleted)) && (!done ==> w' == w)
      && (done && x.active ==>
            var row := Row(r, x.citySlug, x.slug, x.name, categories, false);
            && w'.rows == w.rows[r := row] && (if w.redis then Caches(w, w', key, row) else w'.cache == w.cache)
            && w.inserted <= w'.inserted && w'.inserted[|w.inserted|..] == (if r in w.rows then [] else [r]))
      && (!x.active ==>
            && (r in w.rows ==> w'.rows == w.rows[r := w.rows[r].(deleted := true)]) && (r !in w.rows ==> w'.rows == w.rows)
            && (forall k :: k in w'.cache <==> k in w.cache && !(w.redis && k == key))
            && (forall k :: k in w'.cache ==> w'.cache[k] == w.cache[k]))
  {}

  /** Reading answers from the cache while the entry lasts, without prolonging it; otherwise it
      caches for ttl what it finds. */
  lemma ReadCaches(w: World, citySlug: string, slug: string)
    ensures var key, found := CacheKey(citySlug, slug), Stored(w, citySlug, slug);
      var (w', answer) := GetPublicMenu(w, citySlug, slug);
      var hit := w.redis && key in w.cache && w.clock < w.cache[key].deadline;
      && answer == (if hit then Some(w.cache[key].row) else found)
      && (if hit || !w.redis || found.None? then w' == w else Caches(w, w', key, found.value) && w' == w.(cache := w'.cache))
  {}

  // ---- Which restaurants there are ----

  /** An address may be taken exactly if no restaurant has it; a restaurant then is there under it,
      and every call changes what it names, of the restaurant it names, and nothing else. */
  lemma RestaurantsIff(restaurants: seq<Restaurant>, call: Call)
    ensures var after := Restaurants(restaurants, call);
      match call
      case AddRestaurant(name, citySlug, slug, active, listed) =>
        if exists k :: 0 <= k < |restaurants| && restaurants[k].citySlug == citySlug && restaurants[k].slug == slug
        then after == restaurants else after == restaurants + [Restaurant(name, citySlug, slug, active, listed)]
      case Rename(r, citySlug, slug) =>
        if r >= |restaurants| || exists k :: 0 <= k < |restaurants| && restaurants[k].citySlug == citySlug && restaurants[k].slug == slug
        then after == restaurants
        else after == restaurants[r := Restaurant(restaurants[r].name, citySlug, slug, restaurants[r].active, restaurants[r].listed)]
      case SetStatus(r, active, listed) =>
        if r >= |restaurants| then after == restaurants
        else after == restaurants[r := Restaurant(restaurants[r].name, restaurants[r].citySlug, restaurants[r].slug, active, listed)]
      case Edit(r, name) =>
        if r >= |restaurants| then after == restaurants
        else after == restaurants[r := Restaurant(name, restaurants[r].citySlug, restaurants[r].slug, restaurants[r].active, restaurants[r].listed)]
      case RebuildOnly(_) => after == restaurants
      case MenuCall(_) => after == restaurants
      case Read(_, _) => after == restaurants
  {
    if call.AddRestaurant? || call.Rename? {
      if k: nat :| k < |restaurants| && restaurants[k].citySlug == call.citySlug && restaurants[k].slug == call.slug {
        assert Named(restaurants, k, call.citySlug, call.slug);
      }
    }
  }

  predicate ServesAt(x: Restaurant, citySlug: string, slug: string) {
    x.citySlug == citySlug && x.slug == slug && x.active && x.listed
  }

  /** A reply is given only at the address of a restaurant that is active and listed. */
  lemma AnsweredOnlyIfOpen(w: World, citySlug: string, slug: string, all: bool)
    ensures MenuReply(w, citySlug, slug, all).Some? ==> exists k :: 0 <= k < |w.restaurants| && ServesAt(w.restaurants[k], citySlug, slug)
  {
    if MenuReply(w, citySlug, slug, all).Some? {
      var r: nat :| r < |w.restaurants| && IsOpen(w.restaurants, r, citySlug, slug);
    }
  }

  // ---- What becomes of a deleted item ----

  /** In runs in which slugs do not change, an item is on no menu at all once it has been deleted. */
  lemma {:induction false} DeletedIsNeverShown(ttl: int, redis: bool, events: seq<Event>, m: nat, n: nat, citySlug: string, slug: string, all: bool, id: nat)
    requires Possible(Step, EnabledNoRename, Start(ttl, redis), events) && m < n <= |events|
    requires DeletesItem(id)(At(Step, Start(ttl, redis), events, m), events[m])
    ensures !ReplyShows(At(Step, Start(ttl, redis), events, n), citySlug, slug, all, id)
  {
    var s := Start(ttl, redis);
    var w := At(Step, s, events, n);
    WeakerGuard(s, events);
    assert Happened(Step, s, events, DeletesItem(id), m);
    DeletedIff(ttl, redis, events, n, id);
    if Visible(w.restaurants, citySlug, slug) {
      var r: nat :| r < |w.restaurants| && IsOpen(w.restaurants, r, citySlug, slug);
      ReplyShowsIff(ttl, redis, events, n, citySlug, slug, all, r, id);
    }
  }

  /** Nor is any item of a category that has been deleted. */
  lemma {:induction false} DeletedCategoryIsNeverShown(ttl: int, redis: bool, events: seq<Event>, m: nat, n: nat, citySlug: string, slug: string, all: bool,
                                    c: nat, id: nat)
    requires Possible(Step, EnabledNoRename, Start(ttl, redis), events) && m < n <= |events|
    requires DeletesCategory(c)(At(Step, Start(ttl, redis), events, m), events[m])
    requires var t := At(Step, Start(ttl, redis), events, n).tables; id < |t.items| && t.items[id].categoryId == c
    ensures !ReplyShows(At(Step, Start(ttl, redis), events, n), citySlug, slug, all, id)
  {
    var s := Start(ttl, redis);
    var w := At(Step, s, events, n);
    WeakerGuard(s, events);
    assert Happened(Step, s, events, DeletesCategory(c), m);
    DeletedIff(ttl, redis, events, n, c);
    if Visible(w.restaurants, citySlug, slug) {
      var r: nat :| r < |w.restaurants| && IsOpen(w.restaurants, r, citySlug, slug);
      ReplyShowsIff(ttl, redis, events, n, citySlug, slug, all, r, id);
    }
  }

  lemma StoredShowsNoDeleted(w: World, citySlug: string, slug: string, id: nat)
    requires Owned(w) && IndexOk(w) && ItemDeleted(w.tables, id)
    ensures var found := Stored(w, citySlug, slug); found.Some? ==>
      !ItemOn(found.value.categories, id) && !ItemOn(InStockMenu(found.value.categories), id)
  {
    FoundAmong(w.rows, w.inserted, citySlug, slug);
    var found := Stored(w, citySlug, slug);
    if found.Some? {
      var r: nat :| r in w.rows && w.rows[r] == found.value && Names(w.rows[r], citySlug, slug);
      assert HasLive(w.rows, r) && found.value.categories == JoinOf(w.tables)(r);
      ItemShownIff(w.tables, r, id);
      InStockShownIff(w.tables, r, id);
    }
  }

  /** In every run, renames included, a deleted item is shown exactly by a cache entry that is still
      fresh under the requested address and still holds it. */
  lemma {:induction false} DeletedShownIff(ttl: int, redis: bool, events: seq<Event>, n: nat, citySlug: string, slug: string, id: nat)
    requires Possible(Step, Enabled, Start(ttl, redis), events) && n <= |events|
    requires ItemDeleted(At(Step, Start(ttl, redis), events, n).tables, id)
    ensures var w := At(Step, Start(ttl, redis), events, n); var key := CacheKey(citySlug, slug);
      ReplyShows(w, citySlug, slug, true, id) <==>
        Visible(w.restaurants, citySlug, slug) && w.redis && Fresh(w, key) && ItemOn(w.cache[key].row.categories, id)
  {
    var w := At(Step, Start(ttl, redis), events, n);
    OwnedAt(ttl, redis, events, n);
    IndexAt(ttl, redis, events, n);
    StoredShowsNoDeleted(w, citySlug, slug, id);
  }

  /** And that does happen: a restaurant is renamed, deletes an item, and takes its old name back
      while the menu cached there is still fresh. */
  lemma RenamedBackShowsDeleted(w: World, r: nat, citySlug: string, slug: string, id: nat)
    requires Inv(w) && w.redis && r < |w.restaurants| && w.restaurants[r].active && w.restaurants[r].listed
    requires IsSlug(citySlug) && IsSlug(slug) && !Taken(w.restaurants, citySlug, slug)
    requires ItemThere(w.tables, id) && w.tables.items[id].restaurantId == r
    requires var x := w.restaurants[r]; var key := CacheKey(x.citySlug, x.slug);
      Fresh(w, key) && ItemOn(w.cache[key].row.categories, id)
    ensures var x, at := w.restaurants[r], w.clock;
      var away := Step(w, Event(at, Rename(r, citySlug, slug)));
      var deleted := Step(away, Event(at, MenuCall(DeleteItem(r, id))));
      var back := Step(deleted, Event(at, Rename(r, x.citySlug, x.slug)));
      ItemDeleted(back.tables, id) && ReplyShows(back, x.citySlug, x.slug, true, id)
  {
    var x, at := w.restaurants[r], w.clock;
    var key := CacheKey(x.citySlug, x.slug);
    var away := Step(w, Event(at, Rename(r, citySlug, slug)));
    OldNameIsFree(w.restaurants, r, citySlug, slug);
    assert away == w.(restaurants := w.restaurants[r := x.(citySlug := citySlug, slug := slug)]);
    assert !Named(w.restaurants, r, citySlug, slug);
    var deleted := Step(away, Event(at, MenuCall(DeleteItem(r, id))));
    StepFlags(away, Event(at, MenuCall(DeleteItem(r, id))), id);
    RebuildLeavesKey(away.(tables := Mutate(away.tables, DeleteItem(r, id)).tables), r, x.citySlug, x.slug);
    assert deleted.cache[key] == w.cache[key] && deleted.restaurants == away.restaurants;
    var back := Step(deleted, Event(at, Rename(r, x.citySlug, x.slug)));
    assert back == deleted.(restaurants := deleted.restaurants[r := x]);
    assert IsOpen(back.restaurants, r, x.citySlug, x.slug);
  }

  /** Rebuilding a restaurant leaves what is cached under another address alone. */
  lemma RebuildLeavesKey(w: World, r: nat, citySlug: string, slug: string)
    requires r < |w.restaurants| && IsSlug(w.restaurants[r].citySlug) && IsSlug(w.restaurants[r].slug)
    requires !Named(w.restaurants, r, citySlug, slug) && CacheKey(citySlug, slug) in w.cache
    ensures var w' := RebuildFor(w, r).0; var key := CacheKey(citySlug, slug);
      && key in w'.cache && w'.cache[key] == w.cache[key]
      && w'.restaurants == w.restaurants && w'.redis == w.redis && w'.clock == w.clock && w'.tables == w.tables
  {
    var x := w.restaurants[r];
    if CacheKey(x.citySlug, x.slug) == CacheKey(citySlug, slug) {
      CacheKeyInjective(x.citySlug, x.slug, citySlug, slug);
    }
    RebuildFrame(w, r, Join(w.tables, r));
  }
}
