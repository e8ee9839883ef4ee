/** What the public menu guarantees over whole runs. */
module MenuRuns {
  import opened Options
  import opened Runs
  import opened Slugs
  import opened MenuJoin
  import opened MenuTables
  import opened Menu

  lemma {:induction false} InvAt(ttl: int, redis: bool, events: seq<Event>, n: nat)
    requires Possible(Step, EnabledNoRename, Start(ttl, redis), events) && n <= |events|
    ensures Inv(At(Step, Start(ttl, redis), events, n))
  {
    InvKept();
    InvariantAt(Step, EnabledNoRename, Inv, Start(ttl, redis), events, n);
  }

  /** In every run in which slugs do not change, reading through the cache and querying the
      collection give the same menu, for any two strings a request may ask for. */
  lemma {:induction false} ReadsAgree(ttl: int, redis: bool, events: seq<Event>, n: nat, citySlug: string, slug: string)
    requires Possible(Step, EnabledNoRename, Start(ttl, redis), events) && n <= |events|
    ensures var w := At(Step, Start(ttl, redis), events, n);
      GetPublicMenu(w, citySlug, slug).1 == Stored(w, citySlug, slug)
  {
    InvAt(ttl, redis, events, n);
    ReadIsStored(At(Step, Start(ttl, redis), events, n), citySlug, slug);
  }

  // ---- With and without Redis ----

  function WithoutRedis(w: World): World {
    w.(redis := false, cache := map[])
  }

  lemma RebuildWithoutRedis(w: World, r: nat, categories: seq<CategoryView>)
    ensures RebuildWith(WithoutRedis(w), r, categories) ==
      (WithoutRedis(RebuildWith(w, r, categories).0), RebuildWith(w, r, categories).1)
  {}

  lemma MenuCallWithoutRedis(w: World, op: MenuOp)
    ensures Apply(WithoutRedis(w), MenuCall(op)) == WithoutRedis(Apply(w, MenuCall(op)))
  {
    var m := Mutate(w.tables, op);
    if m.Rebuild? {
      var v := w.(tables := m.tables);
      RebuildWithoutRedis(v, m.restaurantId, Join(v.tables, m.restaurantId));
      assert WithoutRedis(w).(tables := m.tables) == WithoutRedis(v);
    }
  }

  lemma OtherCallsWithoutRedis(w: World, call: Call)
    requires !call.MenuCall? && !call.RebuildOnly? && !call.Read?
    ensures Apply(WithoutRedis(w), call) == WithoutRedis(Apply(w, call))
  {}

  lemma ReadWithoutRedis(w: World, citySlug: string, slug: string)
    ensures GetPublicMenu(WithoutRedis(w), citySlug, slug) == (WithoutRedis(w), Stored(w, citySlug, slug))
    ensures WithoutRedis(ReadMenu(w, citySlug, slug).0) == WithoutRedis(w) == ReadMenu(WithoutRedis(w), citySlug, slug).0
  {}

  /** Taking Redis away changes nothing but the cache, step by step. */
  lemma StepWithoutRedis(w: World, e: Event)
    ensures Step(WithoutRedis(w), e) == WithoutRedis(Step(w, e))
  {
    var w0 := w.(clock := e.at);
    assert WithoutRedis(w).(clock := e.at) == WithoutRedis(w0);
    match e.call
    case MenuCall(op) => MenuCallWithoutRedis(w0, op);
    case RebuildOnly(r) => RebuildWithoutRedis(w0, r, Join(w.tables, r));
    case Read(citySlug, slug) => ReadWithoutRedis(w0, citySlug, slug);
    case AddRestaurant(_, _, _, _, _) => OtherCallsWithoutRedis(w0, e.call);
    case SetStatus(_, _, _) => OtherCallsWithoutRedis(w0, e.call);
    case Edit(_, _) => OtherCallsWithoutRedis(w0, e.call);
    case Rename(_, _, _) => OtherCallsWithoutRedis(w0, e.call);
  }

  lemma {:induction false} RunWithoutRedis(w: World, events: seq<Event>, n: nat)
    requires n <= |events|
    ensures At(Step, WithoutRedis(w), events, n) == WithoutRedis(At(Step, w, events, n))
  {
    if n > 0 {
      RunWithoutRedis(w, events, n - 1);
      AtNext(Step, w, events, n - 1);
      AtNext(Step, WithoutRedis(w), events, n - 1);
      StepWithoutRedis(At(Step, w, events, n - 1), events[n - 1]);
    }
  }

  /** The same run with Redis and without it: the same restaurants, tables and rows at every
      moment, and the same menu to every reader. */
  lemma {:induction false} RedisMakesNoDifference(ttl: int, events: seq<Event>, n: nat, citySlug: string, slug: string, all: bool)
    requires Possible(Step, EnabledNoRename, Start(ttl, true), events) && n <= |events|
    ensures var on, off := At(Step, Start(ttl, true), events, n), At(Step, Start(ttl, false), events, n);
      && off == WithoutRedis(on)
      && MenuReply(on, citySlug, slug, all) == MenuReply(off, citySlug, slug, all)
  {
    RunWithoutRedis(Start(ttl, true), events, n);
    var on := At(Step, Start(ttl, true), events, n);
    InvAt(ttl, true, events, n);
    ReadIsStored(on, citySlug, slug);
    ReadWithoutRedis(on, citySlug, slug);
  }

  // ---- What a customer sees ----

  /** In runs in which slugs do not change, a menu that is shown is the join over the tables as
      they are now, for the open restaurant with the requested slugs; without the items out of
      stock unless they are asked for. */
  lemma {:induction false} ShownMenuIsTheJoin(ttl: int, redis: bool, events: seq<Event>, n: nat, citySlug: string, slug: string, all: bool, r: nat)
    requires Possible(Step, EnabledNoRename, Start(ttl, redis), events) && n <= |events|
    requires IsOpen(At(Step, Start(ttl, redis), events, n).restaurants, r, citySlug, slug)
    ensures var w := At(Step, Start(ttl, redis), events, n);
      MenuReply(w, citySlug, slug, all) ==
        if HasLive(w.rows, r) then Some(Join(if all then w.tables else InStockOnly(w.tables), r)) else None
  {
    var w := At(Step, Start(ttl, redis), events, n);
    InvAt(ttl, redis, events, n);
    ReadIsStored(w, citySlug, slug);
    OwnRowIsStored(w, citySlug, slug, r);
    WeakerGuard(Start(ttl, redis), events);
    IndexAgrees(ttl, redis, events, n, r);
    InStockMenuIsInStockJoin(w.tables, r);
  }

  lemma StoredIsOwn(w: World, citySlug: string, slug: string, r: nat)
    requires Inv(w) && Named(w.restaurants, r, citySlug, slug) && Stored(w, citySlug, slug).Some?
    ensures HasLive(w.rows, r) && Stored(w, citySlug, slug) == Some(w.rows[r])
  {
    FoundAmong(w.rows, w.inserted, citySlug, slug);
    var found := Stored(w, citySlug, slug).value;
    var s: nat :| s in w.rows && w.rows[s] == found && Names(w.rows[s], citySlug, slug);
    assert HasLive(w.rows, s) && Named(w.restaurants, s, w.rows[s].citySlug, w.rows[s].slug);
    OnlyOneNamed(w.restaurants, r, s, citySlug, slug);
  }

  lemma OwnRowIsStored(w: World, citySlug: string, slug: string, r: nat)
    requires Inv(w) && Named(w.restaurants, r, citySlug, slug)
    ensures Stored(w, citySlug, slug) == if HasLive(w.rows, r) then Some(w.rows[r]) else None
  {
    if Stored(w, citySlug, slug).Some? {
      StoredIsOwn(w, citySlug, slug, r);
    } else {
      FoundAmong(w.rows, w.inserted, citySlug, slug);
      assert HasLive(w.rows, r) ==> Named(w.restaurants, r, w.rows[r].citySlug, w.rows[r].slug) && Names(w.rows[r], citySlug, slug);
    }
  }

  lemma WeakerGuard(w: World, events: seq<Event>)
    requires Possible(Step, EnabledNoRename, w, events)
    ensures Possible(Step, Enabled, w, events)
  {
    forall n | 0 <= n < |events| ensures Allowed(Step, Enabled, w, events, n) {
      assert Allowed(Step, EnabledNoRename, w, events, n);
    }
  }

  // ---- When slugs change ----

  lemma {:induction false} OwnedAt(ttl: int, redis: bool, events: seq<Event>, n: nat)
    requires Possible(Step, Enabled, Start(ttl, redis), events) && n <= |events|
    ensures Owned(At(Step, Start(ttl, redis), events, n))
  {
    OwnedKept();
    InvariantAt(Step, Enabled, Owned, Start(ttl, redis), events, n);
  }

  /** The cache would answer, with another restaurant's row. */
  predicate CachedForAnother(w: World, key: string, r: nat) {
    w.redis && Fresh(w, key) && w.cache[key].row.restaurantId != r
  }

  /** The restaurant has been renamed and its row not been rebuilt since: the live row still
      carries the given slugs, the restaurant no longer does. */
  predicate StaleRow(w: World, s: nat, citySlug: string, slug: string) {
    s in w.rows && Names(w.rows[s], citySlug, slug) && !Named(w.restaurants, s, citySlug, slug)
  }

  /** The i-th inserted row is the first live one with the slugs. */
  predicate IsFirst(rows: map<nat, Row>, inserted: seq<nat>, i: nat, citySlug: string, slug: string) {
    && i < |inserted| && inserted[i] in rows && Names(rows[inserted[i]], citySlug, slug)
    && forall j :: 0 <= j < i && inserted[j] in rows ==> !Names(rows[inserted[j]], citySlug, slug)
  }

  predicate FirstNamed(w: World, i: nat, citySlug: string, slug: string) {
    IsFirst(w.rows, w.inserted, i, citySlug, slug)
  }

  /** The query answers with a stale row. */
  predicate StaleIsFirst(w: World, citySlug: string, slug: string) {
    exists i: nat :: i < |w.inserted| && FirstNamed(w, i, citySlug, slug) && StaleRow(w, w.inserted[i], citySlug, slug)
  }

  lemma {:induction false} FoundIsFirst(rows: map<nat, Row>, inserted: seq<nat>, citySlug: string, slug: string) returns (i: nat)
    requires FindLive(rows, inserted, citySlug, slug).Some?
    ensures IsFirst(rows, inserted, i, citySlug, slug) && FindLive(rows, inserted, citySlug, slug) == Some(rows[inserted[i]])
  {
    var n := |inserted| - 1;
    var front := inserted[..n];
    if FindLive(rows, front, citySlug, slug).Some? {
      i := FoundIsFirst(rows, front, citySlug, slug);
      assert inserted[i] == front[i] && forall j :: 0 <= j < i ==> inserted[j] == front[j];
    } else {
      i := n;
      FoundAmong(rows, front, citySlug, slug);
      forall j | 0 <= j < n && inserted[j] in rows ensures !Names(rows[inserted[j]], citySlug, slug) {
        assert inserted[j] == front[j] && front[j] in front;
      }
    }
  }

  /** The query gives another restaurant's row exactly when the first row there is stale. */
  lemma StoredForAnotherIff(w: World, citySlug: string, slug: string, r: nat)
    requires Owned(w) && Named(w.restaurants, r, citySlug, slug)
    ensures var found := Stored(w, citySlug, slug);
      found.Some? && found.value.restaurantId != r <==> StaleIsFirst(w, citySlug, slug)
  {
    var found := Stored(w, citySlug, slug);
    FoundAmong(w.rows, w.inserted, citySlug, slug);
    if found.Some? {
      var i := FoundIsFirst(w.rows, w.inserted, citySlug, slug);
      OnlyOneFirst(w, i, citySlug, slug);
      var s := w.inserted[i];
      assert OwnedRow(w.rows[s], s, |w.restaurants|);
      OnlyOneNamed(w.restaurants, r, s, citySlug, slug);
    }
  }

  lemma OnlyOneFirst(w: World, i: nat, citySlug: string, slug: string)
    requires FirstNamed(w, i, citySlug, slug)
    ensures forall k :: 0 <= k < |w.inserted| && FirstNamed(w, k, citySlug, slug) ==> k == i
  {}

  lemma OnlyOneNamed(restaurants: seq<Restaurant>, r: nat, s: nat, citySlug: string, slug: string)
    requires UniqueNames(restaurants) && Named(restaurants, r, citySlug, slug)
    ensures Named(restaurants, s, citySlug, slug) <==> s == r
  {}

  /** In any run, renames included: the menu shown at the address of an open restaurant belongs to
      another restaurant exactly when that one's cache entry there is still fresh, or there is no
      fresh entry and the first row found is that of a restaurant renamed away and not rebuilt. */
  lemma {:induction false} WrongMenuIff(ttl: int, redis: bool, events: seq<Event>, n: nat, citySlug: string, slug: string, r: nat)
    requires Possible(Step, Enabled, Start(ttl, redis), events) && n <= |events|
    requires IsOpen(At(Step, Start(ttl, redis), events, n).restaurants, r, citySlug, slug)
    ensures var w := At(Step, Start(ttl, redis), events, n);
      var shown, key := ReadMenu(w, citySlug, slug).1, CacheKey(citySlug, slug);
      shown.Some? && shown.value.restaurantId != r <==>
        CachedForAnother(w, key, r) || (!(w.redis && Fresh(w, key)) && StaleIsFirst(w, citySlug, slug))
  {
    var w := At(Step, Start(ttl, redis), events, n);
    OwnedAt(ttl, redis, events, n);
    assert Visible(w.restaurants, citySlug, slug);
    StoredForAnotherIff(w, citySlug, slug, r);
  }

  // ---- Where the wrong menu comes from ----

  /** At the m-th moment the restaurant had the slugs. */
  predicate HadName(s: World, events: seq<Event>, m: nat, r: nat, citySlug: string, slug: string)
    requires m <= |events|
  {
    Named(At(Step, s, events, m).restaurants, r, citySlug, slug)
  }

  /** At one of the first moments. */
  predicate HasHadName(s: World, events: seq<Event>, n: nat, r: nat, citySlug: string, slug: string)
    requires n <= |events|
  {
    exists m {:trigger HadName(s, events, m, r, citySlug, slug)} :: 0 <= m <= n && HadName(s, events, m, r, citySlug, slug)
  }

  predicate RowHeld(s: World, events: seq<Event>, n: nat, row: Row)
    requires n <= |events|
  {
    HasHadName(s, events, n, row.restaurantId, row.citySlug, row.slug)
  }

  /** Every row, stored or cached, carries slugs its restaurant has had. */
  ghost predicate AllHeld(s: World, events: seq<Event>, n: nat)
    requires n <= |events|
  {
    var w := At(Step, s, events, n);
    && (forall r: nat :: r in w.rows ==> RowHeld(s, events, n, w.rows[r]))
    && (forall key :: key in w.cache ==> RowHeld(s, events, n, w.cache[key].row))
  }

  lemma HeldLater(s: World, events: seq<Event>, n: nat, row: Row)
    requires n < |events| && RowHeld(s, events, n, row)
    ensures RowHeld(s, events, n + 1, row)
  {
    var m: nat :| m <= n && HadName(s, events, m, row.restaurantId, row.citySlug, row.slug);
    assert HadName(s, events, m, row.restaurantId, row.citySlug, row.slug);
  }

  /** A row after a step was there before, or carries the slugs its restaurant has. */
  predicate OldOrNamed(w: World, row: Row) {
    || (row.restaurantId in w.rows && SameAddress(w.rows[row.restaurantId], row))
    || (exists key :: key in w.cache && w.cache[key].row == row)
    || Named(w.restaurants, row.restaurantId, row.citySlug, row.slug)
  }

  predicate SameAddress(a: Row, b: Row) {
    a.restaurantId == b.restaurantId && a.citySlug == b.citySlug && a.slug == b.slug
  }

  lemma RebuildRows(w: World, r: nat, categories: seq<CategoryView>)
    requires Owned(w)
    ensures var w' := RebuildWith(w, r, categories).0;
      && (forall k: nat :: k in w'.rows ==> OldOrNamed(w, w'.rows[k]))
      && (forall key :: key in w'.cache ==> OldOrNamed(w, w'.cache[key].row))
  {
    var w' := RebuildWith(w, r, categories).0;
    forall k: nat | k in w'.rows ensures OldOrNamed(w, w'.rows[k]) {
      if k in w.rows {
        assert OwnedRow(w.rows[k], k, |w.restaurants|);
      }
    }
    forall key | key in w'.cache ensures OldOrNamed(w, w'.cache[key].row) {
      if key in w.cache {
        assert KeyedEntry(key, w.cache[key].row, |w.restaurants|);
      }
    }
  }

  lemma ReadRows(w: World, citySlug: string, slug: string)
    requires Owned(w)
    ensures var w' := ReadMenu(w, citySlug, slug).0;
      w'.rows == w.rows && forall key :: key in w'.cache ==> OldOrNamed(w, w'.cache[key].row)
  {
    FoundAmong(w.rows, w.inserted, citySlug, slug);
    var found := Stored(w, citySlug, slug);
    if found.Some? {
      var r: nat :| r in w.rows && w.rows[r] == found.value && Names(w.rows[r], citySlug, slug);
      assert OwnedRow(w.rows[r], r, |w.restaurants|);
    }
  }

  lemma ApplyRows(w: World, call: Call)
    requires Owned(w)
    ensures var w' := Apply(w, call);
      && (forall k: nat :: k in w'.rows ==> OldOrNamed(w, w'.rows[k]))
      && (forall key :: key in w'.cache ==> OldOrNamed(w, w'.cache[key].row))
  {
    forall k: nat | k in w.rows ensures OldOrNamed(w, w.rows[k]) {
      assert OwnedRow(w.rows[k], k, |w.restaurants|);
    }
    match call
    case RebuildOnly(r) => RebuildRows(w, r, Join(w.tables, r));
    case MenuCall(op) =>
      var m := Mutate(w.tables, op);
      if m.Rebuild? {
        RebuildRows(w.(tables := m.tables), m.restaurantId, Join(m.tables, m.restaurantId));
        TablesDoNotMatter(w, m.tables, Apply(w, call));
      }
    case Read(citySlug, slug) => ReadRows(w, citySlug, slug);
    case _ =>
  }

  lemma TablesDoNotMatter(w: World, t: Tables, w': World)
    requires forall k: nat :: k in w'.rows ==> OldOrNamed(w.(tables := t), w'.rows[k])
    requires forall key :: key in w'.cache ==> OldOrNamed(w.(tables := t), w'.cache[key].row)
    ensures forall k: nat :: k in w'.rows ==> OldOrNamed(w, w'.rows[k])
    ensures forall key :: key in w'.cache ==> OldOrNamed(w, w'.cache[key].row)
  {
    assert forall row :: OldOrNamed(w.(tables := t), row) ==> OldOrNamed(w, row);
  }

  lemma StepRows(w: World, e: Event)
    requires Owned(w)
    ensures var w' := Step(w, e);
      && (forall k: nat :: k in w'.rows ==> OldOrNamed(w, w'.rows[k]))
      && (forall key :: key in w'.cache ==> OldOrNamed(w, w'.cache[key].row))
  {
    ApplyRows(w.(clock := e.at), e.call);
    assert forall row :: OldOrNamed(w.(clock := e.at), row) ==> OldOrNamed(w, row);
  }

  lemma {:induction false} RowStaysHeld(s: World, events: seq<Event>, n: nat, row: Row)
    requires n < |events| && AllHeld(s, events, n) && OldOrNamed(At(Step, s, events, n), row)
    requires Owned(At(Step, s, events, n))
    ensures RowHeld(s, events, n + 1, row)
  {
    var w := At(Step, s, events, n);
    if row.restaurantId in w.rows && SameAddress(w.rows[row.restaurantId], row) {
      HeldLater(s, events, n, w.rows[row.restaurantId]);
    } else if key :| key in w.cache && w.cache[key].row == row {
      HeldLater(s, events, n, row);
    } else {
      assert HadName(s, events, n, row.restaurantId, row.citySlug, row.slug);
    }
  }

  lemma {:induction false} AllHeldAt(ttl: int, redis: bool, events: seq<Event>, n: nat)
    requires Possible(Step, Enabled, Start(ttl, redis), events) && n <= |events|
    ensures AllHeld(Start(ttl, redis), events, n)
  {
    if n > 0 {
      AllHeldAt(ttl, redis, events, n - 1);
      AllHeldNext(ttl, redis, events, n - 1);
    }
  }

  lemma AllHeldNext(ttl: int, redis: bool, events: seq<Event>, n: nat)
    requires Possible(Step, Enabled, Start(ttl, redis), events) && n < |events| && AllHeld(Start(ttl, redis), events, n)
    ensures AllHeld(Start(ttl, redis), events, n + 1)
  {
    var s := Start(ttl, redis);
    var v, w' := At(Step, s, events, n), At(Step, s, events, n + 1);
    OwnedAt(ttl, redis, events, n);
    StepRows(v, events[n]);
    AtNext(Step, s, events, n);
    forall r: nat | r in w'.rows ensures RowHeld(s, events, n + 1, w'.rows[r]) {
      RowStaysHeld(s, events, n, w'.rows[r]);
    }
    forall key | key in w'.cache ensures RowHeld(s, events, n + 1, w'.cache[key].row) {
      RowStaysHeld(s, events, n, w'.cache[key].row);
    }
  }

  predicate Renames(events: seq<Event>, i: nat, r: nat)
    requires i < |events|
  {
    events[i].call.Rename? && events[i].call.r == r
  }

  lemma StepRestaurants(w: World, e: Event)
    ensures Step(w, e).restaurants == Restaurants(w.restaurants, e.call)
  {
    var w0 := w.(clock := e.at);
    if e.call.MenuCall? {
      var m := Mutate(w.tables, e.call.op);
      if m.Rebuild? {
        RebuildFrame(w0.(tables := m.tables), m.restaurantId, Join(m.tables, m.restaurantId));
      }
    } else if e.call.RebuildOnly? {
      RebuildFrame(w0, e.call.r, Join(w.tables, e.call.r));
    }
  }

  lemma OnlyRenameRenames(restaurants: seq<Restaurant>, call: Call, r: nat, citySlug: string, slug: string)
    requires Named(restaurants, r, citySlug, slug) && !(call.Rename? && call.r == r)
    ensures Named(Restaurants(restaurants, call), r, citySlug, slug)
  {}

  lemma {:induction false} NameLostByRename(s: World, events: seq<Event>, m: nat, n: nat, r: nat, citySlug: string, slug: string)
    requires m <= n <= |events| && HadName(s, events, m, r, citySlug, slug) && !HadName(s, events, n, r, citySlug, slug)
    ensures exists i: nat :: m <= i < n && Renames(events, i, r)
  {
    if HadName(s, events, n - 1, r, citySlug, slug) {
      StepRestaurants(At(Step, s, events, n - 1), events[n - 1]);
      AtNext(Step, s, events, n - 1);
      if !Renames(events, n - 1, r) {
        OnlyRenameRenames(At(Step, s, events, n - 1).restaurants, events[n - 1].call, r, citySlug, slug);
      }
      assert Renames(events, n - 1, r);
    } else {
      NameLostByRename(s, events, m, n - 1, r, citySlug, slug);
    }
  }

  lemma ShownIsHeld(w: World, citySlug: string, slug: string)
    requires Owned(w) && ReadMenu(w, citySlug, slug).1.Some?
    ensures var row := ReadMenu(w, citySlug, slug).1.value;
      && row.citySlug == citySlug && row.slug == slug
      && ((exists key :: key in w.cache && w.cache[key].row == row) || (row.restaurantId in w.rows && w.rows[row.restaurantId] == row))
  {
    var key := CacheKey(citySlug, slug);
    if w.redis && Fresh(w, key) {
      var row := w.cache[key].row;
      assert KeyedEntry(key, row, |w.restaurants|);
      CacheKeyInjective(row.citySlug, row.slug, citySlug, slug);
    } else {
      FoundAmong(w.rows, w.inserted, citySlug, slug);
      var found := Stored(w, citySlug, slug);
      var r: nat :| r in w.rows && w.rows[r] == found.value && Names(w.rows[r], citySlug, slug);
      assert OwnedRow(w.rows[r], r, |w.restaurants|);
    }
  }

  /** A restaurant whose menu is shown at another's address has had that address itself, and
      has been renamed since. */
  lemma {:induction false} WrongMenuWasRenamed(ttl: int, redis: bool, events: seq<Event>, n: nat, citySlug: string, slug: string, r: nat)
    requires Possible(Step, Enabled, Start(ttl, redis), events) && n <= |events|
    requires IsOpen(At(Step, Start(ttl, redis), events, n).restaurants, r, citySlug, slug)
    requires var shown := ReadMenu(At(Step, Start(ttl, redis), events, n), citySlug, slug).1;
      shown.Some? && shown.value.restaurantId != r
    ensures var other := ReadMenu(At(Step, Start(ttl, redis), events, n), citySlug, slug).1.value.restaurantId;
      exists m, i: nat :: 0 <= m <= i < n && HadName(Start(ttl, redis), events, m, other, citySlug, slug) && Renames(events, i, other)
  {
    var s := Start(ttl, redis);
    var w := At(Step, s, events, n);
    var row := ReadMenu(w, citySlug, slug).1.value;
    OwnedAt(ttl, redis, events, n);
    AllHeldAt(ttl, redis, events, n);
    ShownIsHeld(w, citySlug, slug);
    assert RowHeld(s, events, n, row);
    var m: nat :| m <= n && HadName(s, events, m, row.restaurantId, citySlug, slug);
    OnlyOneNamed(w.restaurants, r, row.restaurantId, citySlug, slug);
    NameLostByRename(s, events, m, n, row.restaurantId, citySlug, slug);
  }

  /** A listed restaurant is renamed and a new one opens at its old address: until the first is
      rebuilt, its menu is what the new address shows. */
  lemma NewcomerShowsOldMenu(w: World, r: nat, citySlug: string, slug: string, name: string)
    requires Inv(w) && r < |w.restaurants| && HasLive(w.rows, r)
    requires IsSlug(citySlug) && IsSlug(slug) && !Taken(w.restaurants, citySlug, slug)
    ensures var x, at := w.restaurants[r], w.clock;
      var renamed := Step(w, Event(at, Rename(r, citySlug, slug)));
      var v := Step(renamed, Event(at, AddRestaurant(name, x.citySlug, x.slug, true, true)));
      && IsOpen(v.restaurants, |w.restaurants|, x.citySlug, x.slug)
      && ReadMenu(v, x.citySlug, x.slug).1 == Some(w.rows[r])
      && w.rows[r].restaurantId == r
  {
    var x, at := w.restaurants[r], w.clock;
    assert Named(w.restaurants, r, w.rows[r].citySlug, w.rows[r].slug);
    assert OwnedRow(w.rows[r], r, |w.restaurants|);
    var renamed := Step(w, Event(at, Rename(r, citySlug, slug)));
    OldNameIsFree(w.restaurants, r, citySlug, slug);
    var v := Step(renamed, Event(at, AddRestaurant(name, x.citySlug, x.slug, true, true)));
    assert v == w.(restaurants := v.restaurants);
    assert IsOpen(v.restaurants, |w.restaurants|, x.citySlug, x.slug);
    ReadIsStored(w, x.citySlug, x.slug);
    StoredIs(w, r);
  }

  lemma OldNameIsFree(restaurants: seq<Restaurant>, r: nat, citySlug: string, slug: string)
    requires UniqueNames(restaurants) && r < |restaurants| && !Taken(restaurants, citySlug, slug)
    ensures var x, after := restaurants[r], Restaurants(restaurants, Rename(r, citySlug, slug));
      |after| == |restaurants| && !Taken(after, x.citySlug, x.slug)
  {
    var x, after := restaurants[r], Restaurants(restaurants, Rename(r, citySlug, slug));
    assert Named(restaurants, r, x.citySlug, x.slug);
    forall k: nat | k < |after| ensures !Named(after, k, x.citySlug, x.slug) {
      if k != r {
        OnlyOneNamed(restaurants, r, k, x.citySlug, x.slug);
      }
    }
  }

  /** The renamed restaurant's old address answers that there is no such restaurant, cached menu
      or not, until another restaurant takes it. */
  lemma OldAddressIsClosed(w: World, r: nat, citySlug: string, slug: string, all: bool)
    requires UniqueNames(w.restaurants) && r < |w.restaurants| && !Taken(w.restaurants, citySlug, slug)
    ensures var x, v := w.restaurants[r], Step(w, Event(w.clock, Rename(r, citySlug, slug)));
      MenuReply(v, x.citySlug, x.slug, all).None?
  {
    OldNameIsFree(w.restaurants, r, citySlug, slug);
  }

  /** Suspending a listed restaurant takes its menu off; nothing that follows, reactivation and
      rebuilds included, lists it again. */
  lemma {:induction false} SuspendedOnceIsNeverListedAgain(w: World, at: int, r: nat, listed: bool, events: seq<Event>, n: nat)
    requires HasLive(w.rows, r) && r < |w.restaurants|
    requires var v := Step(Step(w, Event(at, SetStatus(r, false, listed))), Event(at, RebuildOnly(r)));
      Possible(Step, Enabled, v, events) && n <= |events|
    ensures var v := Step(Step(w, Event(at, SetStatus(r, false, listed))), Event(at, RebuildOnly(r)));
      !HasLive(At(Step, v, events, n).rows, r)
  {
    var v := Step(Step(w, Event(at, SetStatus(r, false, listed))), Event(at, RebuildOnly(r)));
    SuspendDeletes(w, at, r, listed);
    SoftDeletedForEver(v, events, 0, n, r);
  }

  lemma SuspendDeletes(w: World, at: int, r: nat, listed: bool)
    requires HasLive(w.rows, r) && r < |w.restaurants|
    ensures var v := Step(Step(w, Event(at, SetStatus(r, false, listed))), Event(at, RebuildOnly(r))); r in v.rows && v.rows[r].deleted
  {}
}
