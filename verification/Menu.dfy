/** The public menu of restaurantService: the projection rows that every menu mutation
    rebuilds, and the cache in front of them (projection.service.js, public-menu.repository.js,
    menu.service.js, public.service.js). */
module Menu {
  import opened Options
  import opened Runs
  import opened Slugs
  import opened MenuJoin
  import opened MenuTables

  /** listed: public, with an active subscription and verified. */
  datatype Restaurant = Restaurant(name: string, citySlug: string, slug: string, active: bool, listed: bool)

  /** A document of the projection collection; restaurantId is unique in it. */
  datatype Row = Row(restaurantId: nat, citySlug: string, slug: string, name: string, categories: seq<CategoryView>, deleted: bool)

  datatype Entry = Entry(row: Row, deadline: int)

  datatype World = World(
    ttl: int, redis: bool,
    clock: int,
    restaurants: seq<Restaurant>,
    tables: Tables,
    rows: map<nat, Row>,                    // the projection collection, by restaurant
    inserted: seq<nat>,                     // its restaurants, in the order their rows were inserted
    cache: map<string, Entry>)

  function Start(ttl: int, redis: bool): World {
    World(ttl, redis, 0, [], Tables([], [], [], []), map[], [], map[])
  }

  // ---- The projection collection and the cache ----

  predicate HasLive(rows: map<nat, Row>, r: nat) {
    r in rows && !rows[r].deleted
  }

  function SoftDelete(rows: map<nat, Row>, r: nat): map<nat, Row> {
    if HasLive(rows, r) then rows[r := rows[r].(deleted := true)] else rows
  }

  /** The upsert filters on deletedAt: null, so a soft-deleted row makes it insert a second row
      for the same restaurant, which the unique index refuses. */
  predicate UpsertRefused(rows: map<nat, Row>, r: nat) {
    r in rows && rows[r].deleted
  }

  predicate Names(row: Row, citySlug: string, slug: string) {
    !row.deleted && row.citySlug == citySlug && row.slug == slug
  }

  /** findByCityAndSlug: the first live row with the slugs, in insertion order. */
  function FindLive(rows: map<nat, Row>, inserted: seq<nat>, citySlug: string, slug: string): Option<Row> {
    if inserted == [] then None
    else
      var n := |inserted| - 1;
      var before := FindLive(rows, inserted[..n], citySlug, slug);
      if before.Some? then before
      else if inserted[n] in rows && Names(rows[inserted[n]], citySlug, slug) then Some(rows[inserted[n]])
      else None
  }

  function SetCache(w: World, citySlug: string, slug: string, row: Row): World {
    if !w.redis then w else w.(cache := w.cache[CacheKey(citySlug, slug) := Entry(row, w.clock + w.ttl)])
  }

  function InvalidateCache(w: World, citySlug: string, slug: string): World {
    if !w.redis then w else w.(cache := w.cache - {CacheKey(citySlug, slug)})
  }

  predicate Fresh(w: World, key: string) {
    key in w.cache && w.clock < w.cache[key].deadline
  }

  // ---- rebuildForRestaurant ----

  function Projection(r: nat, x: Restaurant, categories: seq<CategoryView>): Row {
    Row(r, x.citySlug, x.slug, x.name, categories, false)
  }

  /** The new state, and whether the rebuild went through or threw. */
  function RebuildFor(w: World, r: nat): (World, bool) {
    RebuildWith(w, r, Join(w.tables, r))
  }

  function RebuildWith(w: World, r: nat, categories: seq<CategoryView>): (World, bool) {
    if r >= |w.restaurants| then (w.(rows := SoftDelete(w.rows, r)), true)
    else
      var x := w.restaurants[r];
      if !x.active then (InvalidateCache(w.(rows := SoftDelete(w.rows, r)), x.citySlug, x.slug), true)
      else if UpsertRefused(w.rows, r) then (w, false)
      else
        var row := Projection(r, x, categories);
        var inserted := if r in w.rows then w.inserted else w.inserted + [r];
        (SetCache(w.(rows := w.rows[r := row], inserted := inserted), x.citySlug, x.slug, row), true)
  }

  // ---- getPublicMenu and getRestaurantMenu ----

  function Stored(w: World, citySlug: string, slug: string): Option<Row> {
    FindLive(w.rows, w.inserted, citySlug, slug)
  }

  function GetPublicMenu(w: World, citySlug: string, slug: string): (World, Option<Row>) {
    var key := CacheKey(citySlug, slug);
    if w.redis && Fresh(w, key) then (w, Some(w.cache[key].row))
    else
      var found := Stored(w, citySlug, slug);
      (if found.Some? then SetCache(w, citySlug, slug, found.value) else w, found)
  }

  predicate Named(restaurants: seq<Restaurant>, r: nat, citySlug: string, slug: string) {
    r < |restaurants| && restaurants[r].citySlug == citySlug && restaurants[r].slug == slug
  }

  /** getPublicRestaurantByCitySlug finds the restaurant. */
  predicate IsOpen(restaurants: seq<Restaurant>, r: nat, citySlug: string, slug: string) {
    Named(restaurants, r, citySlug, slug) && restaurants[r].active && restaurants[r].listed
  }

  predicate Visible(restaurants: seq<Restaurant>, citySlug: string, slug: string) {
    exists r: nat :: r < |restaurants| && IsOpen(restaurants, r, citySlug, slug)
  }

  /** The row getRestaurantMenu answers with, if it does. */
  function ReadMenu(w: World, citySlug: string, slug: string): (World, Option<Row>) {
    if Visible(w.restaurants, citySlug, slug) then GetPublicMenu(w, citySlug, slug) else (w, None)
  }

  function MenuReply(w: World, citySlug: string, slug: string, includeOutOfStock: bool): Option<seq<CategoryView>> {
    var row := ReadMenu(w, citySlug, slug).1;
    if row.None? then None
    else Some(if includeOutOfStock then row.value.categories else InStockMenu(row.value.categories))
  }

  // ---- Runs ----

  datatype Call =
    | AddRestaurant(name: string, citySlug: string, slug: string, active: bool, listed: bool)
    | SetStatus(r: nat, active: bool, listed: bool)    // archive, reject, activate, subscription: no rebuild
    | Edit(r: nat, name: string)                       // updateRestaurant without slugs: no rebuild
    | Rename(r: nat, citySlug: string, slug: string)   // updateRestaurant with slugs: no rebuild
    | RebuildOnly(r: nat)                              // what publish, suspend and unsuspend end with
    | MenuCall(op: MenuOp)
    | Read(citySlug: string, slug: string)

  datatype Event = Event(at: int, call: Call)

  /** The unique index on (citySlug, slug). */
  predicate Taken(restaurants: seq<Restaurant>, citySlug: string, slug: string) {
    exists r: nat :: r < |restaurants| && Named(restaurants, r, citySlug, slug)
  }

  /** What a call does to the restaurants themselves. */
  function Restaurants(restaurants: seq<Restaurant>, call: Call): seq<Restaurant> {
    match call
    case AddRestaurant(name, citySlug, slug, active, listed) =>
      if Taken(restaurants, citySlug, slug) then restaurants
      else restaurants + [Restaurant(name, citySlug, slug, active, listed)]
    case SetStatus(r, active, listed) =>
      if r >= |restaurants| then restaurants else restaurants[r := restaurants[r].(active := active, listed := listed)]
    case Edit(r, name) =>
      if r >= |restaurants| then restaurants else restaurants[r := restaurants[r].(name := name)]
    case Rename(r, citySlug, slug) =>
      if r >= |restaurants| || Taken(restaurants, citySlug, slug) then restaurants
      else restaurants[r := restaurants[r].(citySlug := citySlug, slug := slug)]
    case _ => restaurants
  }

  function Apply(w: World, call: Call): World {
    match call
    case RebuildOnly(r) => RebuildFor(w, r).0
    case MenuCall(op) =>
      var m := Mutate(w.tables, op);
      if m.Rebuild? then RebuildFor(w.(tables := m.tables), m.restaurantId).0 else w
    case Read(citySlug, slug) => ReadMenu(w, citySlug, slug).0
    case _ => w.(restaurants := Restaurants(w.restaurants, call))
  }

  function Step(w: World, e: Event): World {
    Apply(w.(clock := e.at), e.call)
  }

  /** Restaurants are named by toSlug, and time does not go back. */
  predicate Enabled(w: World, e: Event) {
    && w.clock <= e.at
    && (e.call.AddRestaurant? || e.call.Rename? ==> IsSlug(e.call.citySlug) && IsSlug(e.call.slug))
  }

  /** A run in which slugs do not change. */
  predicate EnabledNoRename(w: World, e: Event) {
    Enabled(w, e) && !e.call.Rename?
  }

  // ---- The index agrees with the tables ----

  /** Each live row holds what the given function says of its restaurant. */
  ghost predicate RowsHold(rows: map<nat, Row>, join: nat -> seq<CategoryView>) {
    forall r: nat :: HasLive(rows, r) ==> rows[r].categories == join(r)
  }

  function JoinOf(t: Tables): nat -> seq<CategoryView> {
    (r: nat) => Join(t, r)
  }

  ghost predicate IndexOk(w: World) {
    TablesOk(w.tables) && RowsHold(w.rows, JoinOf(w.tables))
  }

  lemma RebuildHolds(w: World, r: nat, join: nat -> seq<CategoryView>, join': nat -> seq<CategoryView>)
    requires RowsHold(w.rows, join) && forall k: nat :: k != r ==> join'(k) == join(k)
    ensures RowsHold(RebuildWith(w, r, join'(r)).0.rows, join')
  {}

  lemma OtherJoinsStay(t: Tables, op: MenuOp)
    requires TablesOk(t) && Mutate(t, op).Rebuild?
    ensures var m := Mutate(t, op); forall k: nat :: k != m.restaurantId ==> JoinOf(m.tables)(k) == JoinOf(t)(k)
  {
    var m := Mutate(t, op);
    forall k: nat | k != m.restaurantId ensures JoinOf(m.tables)(k) == JoinOf(t)(k) {
      MutateElsewhere(t, op, k);
    }
  }

  lemma RebuildFrame(w: World, r: nat, categories: seq<CategoryView>)
    ensures var w' := RebuildWith(w, r, categories).0;
      w'.tables == w.tables && w'.restaurants == w.restaurants && w'.clock == w.clock && w'.ttl == w.ttl && w'.redis == w.redis
  {}

  lemma NewTablesKeepIndex(w: World, t: Tables, r: nat)
    requires IndexOk(w) && TablesOk(t) && forall k: nat :: k != r ==> JoinOf(t)(k) == JoinOf(w.tables)(k)
    ensures IndexOk(RebuildFor(w.(tables := t), r).0)
  {
    var categories := JoinOf(t)(r);
    RebuildHolds(w.(tables := t), r, JoinOf(w.tables), JoinOf(t));
    RebuildFrame(w.(tables := t), r, categories);
    assert RebuildFor(w.(tables := t), r) == RebuildWith(w.(tables := t), r, categories);
  }

  lemma MenuCallKeepsIndex(w: World, op: MenuOp)
    requires IndexOk(w) && Mutate(w.tables, op).Rebuild?
    ensures var m := Mutate(w.tables, op); IndexOk(RebuildFor(w.(tables := m.tables), m.restaurantId).0)
  {
    var m := Mutate(w.tables, op);
    MutateKeepsTables(w.tables, op);
    OtherJoinsStay(w.tables, op);
    NewTablesKeepIndex(w, m.tables, m.restaurantId);
  }

  lemma RebuildKeepsIndex(w: World, r: nat)
    requires IndexOk(w)
    ensures IndexOk(RebuildFor(w, r).0)
  {
    NewTablesKeepIndex(w, w.tables, r);
  }

  lemma OtherCallsKeepIndex(w: World, call: Call)
    requires !call.MenuCall? && !call.RebuildOnly?
    ensures Apply(w, call).tables == w.tables && Apply(w, call).rows == w.rows && Apply(w, call).inserted == w.inserted
  {}

  lemma StepKeepsIndex(w: World, e: Event)
    requires IndexOk(w)
    ensures IndexOk(Step(w, e))
  {
    var w0 := w.(clock := e.at);
    if e.call.MenuCall? {
      if Mutate(w.tables, e.call.op).Rebuild? {
        MenuCallKeepsIndex(w0, e.call.op);
      }
    } else if e.call.RebuildOnly? {
      RebuildKeepsIndex(w0, e.call.r);
    } else {
      OtherCallsKeepIndex(w0, e.call);
    }
  }

  lemma IndexKept()
    ensures Kept(Step, Enabled, IndexOk)
  {
    forall w: World, e: Event | IndexOk(w) && Enabled(w, e) ensures IndexOk(Step(w, e)) {
      StepKeepsIndex(w, e);
    }
  }

  /** In every run, renames included, whichever rebuilds throw, each live projection row holds
      the join over the current tables. */
  lemma {:induction false} IndexAgrees(ttl: int, redis: bool, events: seq<Event>, n: nat, r: nat)
    requires Possible(Step, Enabled, Start(ttl, redis), events) && n <= |events|
    ensures var w := At(Step, Start(ttl, redis), events, n); HasLive(w.rows, r) ==> w.rows[r].categories == Join(w.tables, r)
  {
    IndexKept();
    InvariantAt(Step, Enabled, IndexOk, Start(ttl, redis), events, n);
  }

  // ---- A soft-deleted projection never comes back ----

  /** After the rebuild of an active restaurant there is a live row exactly when there was no
      soft-deleted one, and exactly then the rebuild does not throw. */
  lemma RebuildRevivesIff(w: World, r: nat)
    requires r < |w.restaurants| && w.restaurants[r].active
    ensures HasLive(RebuildFor(w, r).0.rows, r) <==> !(r in w.rows && w.rows[r].deleted)
    ensures RebuildFor(w, r).1 <==> HasLive(RebuildFor(w, r).0.rows, r)
  {}

  function Gone(r: nat): World -> bool {
    (w: World) => r in w.rows && w.rows[r].deleted
  }

  predicate Any(w: World) { true }

  lemma RebuildKeepsGone(w: World, r: nat, k: nat, categories: seq<CategoryView>)
    requires Gone(r)(w)
    ensures Gone(r)(RebuildWith(w, k, categories).0)
  {}

  lemma StepKeepsGone(w: World, e: Event, r: nat)
    requires Gone(r)(w)
    ensures Gone(r)(Step(w, e))
  {
    var w0 := w.(clock := e.at);
    if e.call.MenuCall? {
      var m := Mutate(w.tables, e.call.op);
      if m.Rebuild? {
        RebuildKeepsGone(w0.(tables := m.tables), r, m.restaurantId, Join(m.tables, m.restaurantId));
      }
    } else if e.call.RebuildOnly? {
      RebuildKeepsGone(w0, r, e.call.r, Join(w.tables, e.call.r));
    } else {
      OtherCallsKeepIndex(w0, e.call);
    }
  }

  lemma GoneStable(r: nat)
    ensures Stable(Step, Enabled, Any, Gone(r)) && Kept(Step, Enabled, Any)
  {
    forall w: World, e: Event | Enabled(w, e) && Gone(r)(w) ensures Gone(r)(Step(w, e)) {
      StepKeepsGone(w, e, r);
    }
  }

  /** A restaurant whose projection was soft-deleted, because it was rebuilt while not active,
      has no live projection ever again, even when it is active and rebuilt. */
  lemma {:induction false} SoftDeletedForEver(w: World, events: seq<Event>, m: nat, n: nat, r: nat)
    requires Possible(Step, Enabled, w, events) && m <= n <= |events|
    requires var v := At(Step, w, events, m); r in v.rows && v.rows[r].deleted
    ensures !HasLive(At(Step, w, events, n).rows, r)
  {
    GoneStable(r);
    StableAt(Step, Enabled, Any, Gone(r), w, events, m, n);
  }

  // ---- Names and owners, in all runs ----

  predicate UniqueNames(restaurants: seq<Restaurant>) {
    && (forall k :: 0 <= k < |restaurants| ==> IsSlug(restaurants[k].citySlug) && IsSlug(restaurants[k].slug))
    && (forall k, l :: 0 <= k < l < |restaurants| ==>
          !(restaurants[k].citySlug == restaurants[l].citySlug && restaurants[k].slug == restaurants[l].slug))
  }

  predicate Distinct(ids: seq<nat>) {
    forall i, j :: 0 <= i < j < |ids| ==> ids[i] != ids[j]
  }

  /** A row that names its restaurant and carries two slugs. */
  predicate OwnedRow(row: Row, r: nat, restaurants: nat) {
    row.restaurantId == r < restaurants && IsSlug(row.citySlug) && IsSlug(row.slug)
  }

  /** Each row is that of one restaurant, and the insertion order lists every row once. */
  ghost predicate RowsOwned(rows: map<nat, Row>, inserted: seq<nat>, restaurants: nat) {
    && Distinct(inserted)
    && (forall r: nat :: r in rows <==> r in inserted)
    && (forall r: nat :: r in rows ==> OwnedRow(rows[r], r, restaurants))
  }

  /** A cache entry lies under the key of the row it holds. */
  predicate KeyedEntry(key: string, row: Row, restaurants: nat) {
    key == CacheKey(row.citySlug, row.slug) && OwnedRow(row, row.restaurantId, restaurants)
  }

  ghost predicate CacheKeyed(cache: map<string, Entry>, restaurants: nat) {
    forall key :: key in cache ==> KeyedEntry(key, cache[key].row, restaurants)
  }

  ghost predicate Owned(w: World) {
    UniqueNames(w.restaurants) && RowsOwned(w.rows, w.inserted, |w.restaurants|) && CacheKeyed(w.cache, |w.restaurants|)
  }

  lemma {:induction false} FoundAmong(rows: map<nat, Row>, inserted: seq<nat>, citySlug: string, slug: string)
    ensures var found := FindLive(rows, inserted, citySlug, slug);
      && (found.Some? ==> exists r: nat :: r in inserted && r in rows && rows[r] == found.value && Names(rows[r], citySlug, slug))
      && (found.None? ==> forall r: nat :: r in inserted && r in rows ==> !Names(rows[r], citySlug, slug))
  {
    if inserted != [] {
      FoundAmong(rows, inserted[..|inserted| - 1], citySlug, slug);
    }
  }

  lemma RebuildKeepsOwned(w: World, r: nat, categories: seq<CategoryView>)
    requires Owned(w)
    ensures Owned(RebuildWith(w, r, categories).0)
  {
    var w' := RebuildWith(w, r, categories).0;
    if r in w.rows {
      assert OwnedRow(w.rows[r], r, |w.restaurants|);
    }
  }

  lemma ReadKeepsOwned(w: World, citySlug: string, slug: string)
    requires Owned(w)
    ensures Owned(GetPublicMenu(w, citySlug, slug).0)
  {
    FoundAmong(w.rows, w.inserted, citySlug, slug);
  }

  lemma RestaurantsKeepUnique(restaurants: seq<Restaurant>, call: Call)
    requires UniqueNames(restaurants)
    requires call.AddRestaurant? || call.Rename? ==> IsSlug(call.citySlug) && IsSlug(call.slug)
    ensures UniqueNames(Restaurants(restaurants, call)) && |restaurants| <= |Restaurants(restaurants, call)|
  {
    var after := Restaurants(restaurants, call);
    if (call.AddRestaurant? || call.Rename?) && !Taken(restaurants, call.citySlug, call.slug) {
      forall k: nat | k < |restaurants| ensures !(restaurants[k].citySlug == call.citySlug && restaurants[k].slug == call.slug) {
        assert !Named(restaurants, k, call.citySlug, call.slug);
      }
    }
  }

  lemma MoreRestaurants(w: World, restaurants: seq<Restaurant>)
    requires Owned(w) && UniqueNames(restaurants) && |w.restaurants| <= |restaurants|
    ensures Owned(w.(restaurants := restaurants))
  {
    forall r: nat | r in w.rows ensures OwnedRow(w.rows[r], r, |restaurants|) {
      assert OwnedRow(w.rows[r], r, |w.restaurants|);
    }
    forall key | key in w.cache ensures KeyedEntry(key, w.cache[key].row, |restaurants|) {
      assert KeyedEntry(key, w.cache[key].row, |w.restaurants|);
    }
  }

  lemma ApplyKeepsOwned(w: World, call: Call)
    requires Owned(w)
    requires call.AddRestaurant? || call.Rename? ==> IsSlug(call.citySlug) && IsSlug(call.slug)
    ensures Owned(Apply(w, call))
  {
    match call
    case RebuildOnly(r) => RebuildKeepsOwned(w, r, Join(w.tables, r));
    case MenuCall(op) =>
      var m := Mutate(w.tables, op);
      if m.Rebuild? {
        RebuildKeepsOwned(w.(tables := m.tables), m.restaurantId, Join(m.tables, m.restaurantId));
      }
    case Read(citySlug, slug) => ReadKeepsOwned(w, citySlug, slug);
    case _ =>
      RestaurantsKeepUnique(w.restaurants, call);
      MoreRestaurants(w, Restaurants(w.restaurants, call));
  }

  lemma StepKeepsOwned(w: World, e: Event)
    requires Owned(w) && Enabled(w, e)
    ensures Owned(Step(w, e))
  {
    ApplyKeepsOwned(w.(clock := e.at), e.call);
  }

  lemma OwnedKept()
    ensures Kept(Step, Enabled, Owned) && Kept(Step, EnabledNoRename, Owned)
  {
    forall w: World, e: Event | Owned(w) && Enabled(w, e) ensures Owned(Step(w, e)) {
      StepKeepsOwned(w, e);
    }
  }

  // ---- The cache agrees with the rows, while slugs do not change ----

  /** Rows carry the slugs of their restaurants. */
  ghost predicate RowsNamed(rows: map<nat, Row>, restaurants: seq<Restaurant>) {
    forall r: nat :: HasLive(rows, r) ==> Named(restaurants, r, rows[r].citySlug, rows[r].slug)
  }

  /** The cached row is the live row of its restaurant. */
  predicate Backed(rows: map<nat, Row>, row: Row) {
    HasLive(rows, row.restaurantId) && rows[row.restaurantId] == row
  }

  ghost predicate CacheOk(w: World) {
    && (!w.redis ==> w.cache == map[])
    && forall key :: Fresh(w, key) ==> Backed(w.rows, w.cache[key].row)
  }

  ghost predicate Inv(w: World) {
    Owned(w) && RowsNamed(w.rows, w.restaurants) && CacheOk(w)
  }

  /** Two live rows with the same slugs are the same row. */
  lemma OneRowPerName(w: World, r: nat, s: nat)
    requires UniqueNames(w.restaurants) && RowsNamed(w.rows, w.restaurants) && HasLive(w.rows, r) && HasLive(w.rows, s)
    requires w.rows[r].citySlug == w.rows[s].citySlug && w.rows[r].slug == w.rows[s].slug
    ensures r == s
  {
    assert Named(w.restaurants, r, w.rows[r].citySlug, w.rows[r].slug) && Named(w.restaurants, s, w.rows[s].citySlug, w.rows[s].slug);
  }

  /** With or without Redis, and whatever strings a request asks for, the menu read is the one
      a query of the collection finds. */
  lemma ReadIsStored(w: World, citySlug: string, slug: string)
    requires Inv(w)
    ensures GetPublicMenu(w, citySlug, slug).1 == Stored(w, citySlug, slug)
  {
    var key := CacheKey(citySlug, slug);
    if w.redis && Fresh(w, key) {
      var row := w.cache[key].row;
      assert KeyedEntry(key, row, |w.restaurants|);
      CacheKeyInjective(row.citySlug, row.slug, citySlug, slug);
      StoredIs(w, row.restaurantId);
    }
  }

  lemma StoredIs(w: World, r: nat)
    requires Inv(w) && HasLive(w.rows, r)
    ensures Stored(w, w.rows[r].citySlug, w.rows[r].slug) == Some(w.rows[r])
  {
    var row := w.rows[r];
    FoundAmong(w.rows, w.inserted, row.citySlug, row.slug);
    assert r in w.inserted && Names(w.rows[r], row.citySlug, row.slug);
    var found := Stored(w, row.citySlug, row.slug);
    assert found.Some?;
    var s: nat :| s in w.rows && w.rows[s] == found.value && Names(w.rows[s], row.citySlug, row.slug);
    OneRowPerName(w, r, s);
  }

  lemma ReadKeeps(w: World, citySlug: string, slug: string)
    requires Inv(w)
    ensures Inv(GetPublicMenu(w, citySlug, slug).0)
  {
    ReadKeepsOwned(w, citySlug, slug);
    FoundAmong(w.rows, w.inserted, citySlug, slug);
    if Stored(w, citySlug, slug).Some? {
      var r: nat :| r in w.rows && Stored(w, citySlug, slug) == Some(w.rows[r]) && Names(w.rows[r], citySlug, slug);
      assert OwnedRow(w.rows[r], r, |w.restaurants|);
    }
  }

  /** A fresh entry under any key but the restaurant's own is another restaurant's. */
  lemma OtherKeysAreOthers(w: World, r: nat, key: string)
    requires Inv(w) && r < |w.restaurants| && Fresh(w, key)
    requires key != CacheKey(w.restaurants[r].citySlug, w.restaurants[r].slug)
    ensures w.cache[key].row.restaurantId != r
  {
    var row := w.cache[key].row;
    assert KeyedEntry(key, row, |w.restaurants|) && Backed(w.rows, row);
    assert Named(w.restaurants, row.restaurantId, row.citySlug, row.slug);
  }

  lemma RebuildKeepsNamed(w: World, r: nat, categories: seq<CategoryView>)
    requires RowsNamed(w.rows, w.restaurants)
    ensures RowsNamed(RebuildWith(w, r, categories).0.rows, w.restaurants)
  {
    var rows' := RebuildWith(w, r, categories).0.rows;
    forall k: nat | HasLive(rows', k) ensures Named(w.restaurants, k, rows'[k].citySlug, rows'[k].slug) {
      if k != r {
        assert HasLive(w.rows, k);
      }
    }
  }

  lemma RebuildKeepsCache(w: World, r: nat, categories: seq<CategoryView>)
    requires Inv(w)
    ensures CacheOk(RebuildWith(w, r, categories).0)
  {
    var w' := RebuildWith(w, r, categories).0;
    forall key | Fresh(w', key) ensures Backed(w'.rows, w'.cache[key].row) {
      if r < |w.restaurants| {
        var own := CacheKey(w.restaurants[r].citySlug, w.restaurants[r].slug);
        if key != own {
          assert Fresh(w, key) && Backed(w.rows, w.cache[key].row);
          OtherKeysAreOthers(w, r, key);
        } else if UpsertRefused(w.rows, r) {
          assert Fresh(w', key) ==> Fresh(w, key);
        }
      } else {
        assert Fresh(w, key) && Backed(w.rows, w.cache[key].row);
        assert OwnedRow(w.rows[w.cache[key].row.restaurantId], w.cache[key].row.restaurantId, |w.restaurants|);
      }
    }
  }

  lemma RebuildKeeps(w: World, r: nat, categories: seq<CategoryView>)
    requires Inv(w)
    ensures Inv(RebuildWith(w, r, categories).0)
  {
    RebuildKeepsOwned(w, r, categories);
    RebuildKeepsNamed(w, r, categories);
    RebuildKeepsCache(w, r, categories);
  }

  lemma TimeKeeps(w: World, at: int)
    requires Inv(w) && w.clock <= at
    ensures Inv(w.(clock := at))
  {
    var w' := w.(clock := at);
    forall key | Fresh(w', key) ensures Backed(w'.rows, w'.cache[key].row) {
      assert Fresh(w, key);
    }
  }

  lemma MenuCallKeeps(w: World, op: MenuOp)
    requires Inv(w)
    ensures Inv(Apply(w, MenuCall(op)))
  {
    var m := Mutate(w.tables, op);
    if m.Rebuild? {
      TablesKeep(w, m.tables);
      RebuildKeeps(w.(tables := m.tables), m.restaurantId, Join(m.tables, m.restaurantId));
    }
  }

  lemma TablesKeep(w: World, t: Tables)
    requires Inv(w)
    ensures Inv(w.(tables := t))
  {
    var w' := w.(tables := t);
    forall key | Fresh(w', key) ensures Backed(w'.rows, w'.cache[key].row) {
      assert Fresh(w, key);
    }
  }

  lemma RestaurantCallsKeep(w: World, call: Call)
    requires Inv(w) && (call.AddRestaurant? || call.SetStatus? || call.Edit?)
    requires call.AddRestaurant? ==> IsSlug(call.citySlug) && IsSlug(call.slug)
    ensures Inv(Apply(w, call))
  {
    ApplyKeepsOwned(w, call);
    var w' := Apply(w, call);
    forall r: nat | HasLive(w'.rows, r) ensures Named(w'.restaurants, r, w'.rows[r].citySlug, w'.rows[r].slug) {
      assert HasLive(w.rows, r) && Named(w.restaurants, r, w.rows[r].citySlug, w.rows[r].slug);
    }
    forall key | Fresh(w', key) ensures Backed(w'.rows, w'.cache[key].row) {
      assert Fresh(w, key);
    }
  }

  lemma ApplyKeeps(w: World, call: Call)
    requires Inv(w) && !call.Rename?
    requires call.AddRestaurant? ==> IsSlug(call.citySlug) && IsSlug(call.slug)
    ensures Inv(Apply(w, call))
  {
    match call
    case MenuCall(op) => MenuCallKeeps(w, op);
    case RebuildOnly(r) => RebuildKeeps(w, r, Join(w.tables, r));
    case Read(citySlug, slug) => ReadKeeps(w, citySlug, slug);
    case AddRestaurant(_, _, _, _, _) => RestaurantCallsKeep(w, call);
    case SetStatus(_, _, _) => RestaurantCallsKeep(w, call);
    case Edit(_, _) => RestaurantCallsKeep(w, call);
  }

  lemma StepKeeps(w: World, e: Event)
    requires Inv(w) && EnabledNoRename(w, e)
    ensures Inv(Step(w, e))
  {
    TimeKeeps(w, e.at);
    ApplyKeeps(w.(clock := e.at), e.call);
  }

  lemma InvKept()
    ensures Kept(Step, EnabledNoRename, Inv)
  {
    forall w: World, e: Event | Inv(w) && EnabledNoRename(w, e) ensures Inv(Step(w, e)) {
      StepKeeps(w, e);
    }
  }
}
