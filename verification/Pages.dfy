/**
 Serving a stored result set page by page. The encoded size of a response is an arbitrary function, so
 what is proved holds for every response format.
 */
module Pages {
  import opened Wrappers
  import opened Clocks
  import opened Catalog
  import opened CatalogReuse
  import Cursors

  datatype Response = Response(items: seq<string>, total: nat, cursor: Option<Cursors.Cursor>)

  datatype Fault = NotFound | ZeroLimit | TooLarge | BadCursor(cause: Cursors.Fault)

  type Size = Response -> nat

  /** What a request needs to know: the signing key, the workspace, and the size of an encoded response. */
  datatype Server = Server(key: string, workspace: string, size: Size)

  // ---- One page ----

  function Available(items: seq<string>, from: nat, limit: nat): nat {
    if from >= |items| then 0 else if |items| - from < limit then |items| - from else limit
  }

  /** The response that returns `n` items from `from` on. */
  function Showing(v: Server, id: string, items: seq<string>, from: nat, n: nat, expires: int): Result<Response, Fault>
    requires n == 0 || from + n <= |items|
  {
    var shown := if n == 0 then [] else items[from..from + n];
    if from + n < |items| then
      match Cursors.Encode(v.key, v.workspace, id, from + n, expires)
      case Ok(c) => Ok(Response(shown, |items|, Some(c)))
      case Err(e) => Err(BadCursor(e))
    else Ok(Response(shown, |items|, None))
  }

  /** Drop items from the end until the response fits. */
  function Shrunk(v: Server, id: string, items: seq<string>, from: nat, n: nat, available: nat, expires: int,
                  bytes: nat): Result<Response, Fault>
    requires n <= available == 0 || from + available <= |items|
    requires n <= available
  {
    match Showing(v, id, items, from, n, expires)
    case Err(e) => Err(e)
    case Ok(r) =>
      if v.size(r) <= bytes then (if n == 0 && available > 0 then Err(TooLarge) else Ok(r))
      else if n == 0 then Err(TooLarge)
      else Shrunk(v, id, items, from, n - 1, available, expires, bytes)
  }

  function PageOf(v: Server, sets: map<string, ResultSet>, id: string, from: nat, limit: nat, bytes: nat,
                  expires: int): Result<Response, Fault> {
    if limit == 0 then Err(ZeroLimit)
    else if id !in sets then Err(NotFound)
    else
      var n := Available(sets[id].items, from, limit);
      Shrunk(v, id, sets[id].items, from, n, n, expires, bytes)
  }

  /** readPage's loop. */
  method ReadPage(v: Server, sets: map<string, ResultSet>, id: string, from: nat, limit: nat, bytes: nat, expires: int)
    returns (r: Result<Response, Fault>)
    ensures r == PageOf(v, sets, id, from, limit, bytes, expires)
  {
    if limit == 0 {
      return Err(ZeroLimit);
    }
    if id !in sets {
      return Err(NotFound);
    }
    var items := sets[id].items;
    var available := Available(items, from, limit);
    var returned := available;
    while true
      invariant 0 <= returned <= available
      invariant PageOf(v, sets, id, from, limit, bytes, expires)
          == Shrunk(v, id, items, from, returned, available, expires, bytes)
      decreases returned
    {
      var shown := Showing(v, id, items, from, returned, expires);
      if shown.Err? {
        return shown;
      }
      if v.size(shown.value) <= bytes {
        if returned == 0 && available > 0 {
          return Err(TooLarge);
        }
        return shown;
      }
      if returned == 0 {
        return Err(TooLarge);
      }
      returned := returned - 1;
    }
  }

  ghost predicate NoneFits(v: Server, id: string, items: seq<string>, from: nat, above: nat, n: nat, expires: int,
                           bytes: nat)
    requires n == 0 || from + n <= |items|
  {
    forall m :: above < m <= n ==> Showing(v, id, items, from, m, expires).Ok?
                                     && v.size(Showing(v, id, items, from, m, expires).value) > bytes
  }

  /** A served page is the longest one that fits, and makes progress unless there is nothing to show. */
  lemma {:induction false} ShrunkLongest(v: Server, id: string, items: seq<string>, from: nat, n: nat, available: nat,
                                         expires: int, bytes: nat)
    requires n <= available && (available == 0 || from + available <= |items|)
    requires Cursors.Encode(v.key, v.workspace, id, 0, expires).Ok?
    ensures var r := Shrunk(v, id, items, from, n, available, expires, bytes);
      r.Ok? ==>
        var shown := |r.value.items|;
        && v.size(r.value) <= bytes && shown <= n && (available > 0 ==> shown > 0)
        && Showing(v, id, items, from, shown, expires) == r && NoneFits(v, id, items, from, shown, n, expires, bytes)
    ensures var r := Shrunk(v, id, items, from, n, available, expires, bytes);
      r.Err? ==> r.error == TooLarge && NoneFits(v, id, items, from, 0, n, expires, bytes)
  {
    var shown := Showing(v, id, items, from, n, expires);
    assert shown.Ok? && |shown.value.items| == n;
    if v.size(shown.value) > bytes && n > 0 {
      ShrunkLongest(v, id, items, from, n - 1, available, expires, bytes);
    }
  }

  /**
   A page of a stored set holds as many items as the limit and the rest of the set allow, fewer only because
   every longer page is too large; it is refused exactly when no page with an item fits.
   */
  lemma PageLongest(v: Server, sets: map<string, ResultSet>, id: string, from: nat, limit: nat, bytes: nat,
                    expires: int)
    requires limit > 0 && id in sets && Cursors.Encode(v.key, v.workspace, id, 0, expires).Ok?
    ensures var r, items := PageOf(v, sets, id, from, limit, bytes, expires), sets[id].items;
      var shown := if r.Ok? then |r.value.items| else 0;
      && shown <= limit && (r.Ok? && from < |items| ==> shown > 0)
      && (shown > 0 ==> from + shown <= |items| && r.value.items == items[from..from + shown])
      && forall m :: shown < m <= limit && from + m <= |items| ==>
           v.size(Showing(v, id, items, from, m, expires).value) > bytes
  {
    var n := Available(sets[id].items, from, limit);
    ShrunkLongest(v, id, sets[id].items, from, n, n, expires, bytes);
  }

  // ---- A live set stays while anything else happens ----

  /** Unless it has expired, the set is stored unchanged. */
  ghost predicate Held(w: World, id: string, s: ResultSet) {
    s.expires > w.clock ==> id in w.tables.sets && w.tables.sets[id] == s
  }

  lemma CreatedHolds(t: Tables, clock: int, id: string, s: ResultSet, other: string, o: ResultSet)
    requires id in t.sets && t.sets[id] == s && s.expires > clock && o.created <= clock && Created(t, other, o).Some?
    ensures id in Created(t, other, o).value.sets && Created(t, other, o).value.sets[id] == s
  {
    ReclaimSpares(t, o.created, EXPIRED_BATCH, id);
  }

  lemma StepHolds(w: World, query: Query, e: Event, id: string, s: ResultSet)
    requires WorldInv(w, query) && Held(w, id, s)
    ensures Held(Step(w, query, e), id, s) && w.clock <= Step(w, query, e).clock
  {
    match e {
      case Tick(to) =>
      case Publish(g, _, sql) =>
      case Withdraw(workspace, sql) =>
      case Prune(workspace, now) =>
      case Reclaim(now, limit) => if s.expires > w.clock && now <= w.clock { ReclaimSpares(w.tables, now, limit, id); }
      case Initialize(column, now) => InitializeAgain(w.tables, column, now);
      case Resolve(call, workspace) =>
      case Sample(call) =>
      case Compute(call, enabled, key) =>
      case Persist(call, other) => PersistHolds(w, query, call, other, id, s);
      case Other(other, o) => StoreHolds(w, other, o, id, s);
    }
  }

  lemma PersistHolds(w: World, query: Query, call: nat, other: string, id: string, s: ResultSet)
    requires WorldInv(w, query) && Held(w, id, s)
    ensures Held(Persisting(w, call, other), id, s) && Persisting(w, call, other).clock == w.clock
  {
    if call in w.pending && w.pending[call].now.Some? && w.pending[call].work.Some? {
      var o := StoredSet(w.pending[call]);
      assert BuildInv(w.tables, query, w.clock, w.pending[call]);
      if s.expires > w.clock && Created(w.tables, other, o).Some? { CreatedHolds(w.tables, w.clock, id, s, other, o); }
    }
  }

  lemma StoreHolds(w: World, other: string, o: ResultSet, id: string, s: ResultSet)
    requires Held(w, id, s)
    ensures Held(Storing(w, other, o), id, s) && Storing(w, other, o).clock == w.clock
  {
    if s.expires > w.clock && o.created <= w.clock && Created(w.tables, other, o).Some? {
      CreatedHolds(w.tables, w.clock, id, s, other, o);
    }
  }

  lemma {:induction false} RunHolds(w: World, query: Query, events: seq<Event>, id: string, s: ResultSet)
    requires WorldInv(w, query) && Held(w, id, s)
    ensures WorldInv(RunFrom(w, query, events), query) && Held(RunFrom(w, query, events), id, s)
  {
    if events != [] {
      var past := RunFrom(w, query, events[..|events| - 1]);
      RunHolds(w, query, events[..|events| - 1], id, s);
      StepKeeps(past, query, events[|events| - 1]);
      StepHolds(past, query, events[|events| - 1], id, s);
    }
  }

  // ---- Following cursors ----

  /** Whatever else happens first, then a request for the next page with its own limits. */
  datatype Follow = Follow(events: seq<Event>, limit: nat, bytes: nat)

  datatype Outcome = Done | More | Stopped(fault: Fault)

  datatype Walk = Walk(pages: seq<Response>, outcome: Outcome)

  function FromCursor(v: Server, w: World, c: Cursors.Cursor, limit: nat, bytes: nat): Result<Response, Fault> {
    match Cursors.Decode(v.key, c, v.workspace, w.clock)
    case Err(e) => Err(BadCursor(e))
    case Ok(p) => PageOf(v, w.tables.sets, p.resultSet, p.next, limit, bytes, p.expires * SECOND)
  }

  ghost function Following(v: Server, query: Query, w: World, c: Option<Cursors.Cursor>, follows: seq<Follow>): Walk
    decreases |follows|
  {
    if c.None? then Walk([], Done)
    else if follows == [] then Walk([], More)
    else
      var z := RunFrom(w, query, follows[0].events);
      match FromCursor(v, z, c.value, follows[0].limit, follows[0].bytes)
      case Err(e) => Walk([], Stopped(e))
      case Ok(r) =>
        var rest := Following(v, query, z, r.cursor, follows[1..]);
        Walk([r] + rest.pages, rest.outcome)
  }

  function Concat(pages: seq<Response>): seq<string> {
    if pages == [] then [] else pages[0].items + Concat(pages[1..])
  }

  ghost predicate CursorAt(v: Server, c: Option<Cursors.Cursor>, id: string, s: ResultSet, from: nat) {
    if from < |s.items| then c.Some? && Cursors.Encode(v.key, v.workspace, id, from, s.expires) == Ok(c.value)
    else c.None?
  }

  predicate Serveable(v: Server, id: string, s: ResultSet) {
    v.workspace != "" && id != "" && (s.expires / SECOND) * SECOND != ZERO_TIME && s.expires != ZERO_TIME
  }

  /** One step along: the page is a non-empty stretch of the items, and its cursor points behind it. */
  lemma PageAdvances(v: Server, sets: map<string, ResultSet>, id: string, s: ResultSet, from: nat, limit: nat,
                     bytes: nat, expires: int)
    requires Serveable(v, id, s) && id in sets && sets[id] == s && from <= |s.items| && limit > 0
    requires expires == s.expires || expires == (s.expires / SECOND) * SECOND
    ensures var r := PageOf(v, sets, id, from, limit, bytes, expires);
      && (r.Err? ==> r.error == TooLarge)
      && (r.Ok? ==> var n := |r.value.items|;
            && n <= limit && from + n <= |s.items| && r.value.items == s.items[from..from + n]
                && (from < |s.items| ==> n > 0)
            && v.size(r.value) <= bytes && r.value.total == |s.items| && CursorAt(v, r.value.cursor, id, s, from + n))
  {
    var n := Available(s.items, from, limit);
    ShrunkLongest(v, id, s.items, from, n, n, expires, bytes);
    assert forall k: nat ::
             Cursors.Encode(v.key, v.workspace, id, k, expires) == Cursors.Encode(v.key, v.workspace, id, k, s.expires);
  }

  /** A followed cursor gives the next non-empty stretch with a cursor behind it, or stops for one of two reasons. */
  ghost predicate Advances(v: Server, id: string, s: ResultSet, from: nat, f: Follow, r: Result<Response, Fault>) {
    match r
    case Err(e) => e == TooLarge || e == BadCursor(Cursors.Expired)
    case Ok(page) =>
      && PageFits(v, page, f) && from + |page.items| <= |s.items| && page.items == s.items[from..from + |page.items|]
      && CursorAt(v, page.cursor, id, s, from + |page.items|)
  }

  /** A page with something in it, within both of its limits. */
  predicate PageFits(v: Server, page: Response, f: Follow) {
    page.items != [] && |page.items| <= f.limit && v.size(page) <= f.bytes
  }

  lemma FollowAdvances(v: Server, w: World, id: string, s: ResultSet, from: nat, c: Cursors.Cursor, f: Follow)
    requires Serveable(v, id, s) && Held(w, id, s) && from < |s.items| && f.limit > 0
    requires CursorAt(v, Some(c), id, s, from)
    ensures Advances(v, id, s, from, f, FromCursor(v, w, c, f.limit, f.bytes))
  {
    Cursors.RoundTrip(v.key, v.workspace, id, from, s.expires, w.clock);
    if Cursors.Decode(v.key, c, v.workspace, w.clock).Ok? {
      PageAdvances(v, w.tables.sets, id, s, from, f.limit, f.bytes, (s.expires / SECOND) * SECOND);
    }
  }

  /** One request of a walk, with whatever happens before it. */
  lemma FollowOnce(v: Server, query: Query, w: World, id: string, s: ResultSet, from: nat, c: Cursors.Cursor, f: Follow)
    returns (z: World, r: Result<Response, Fault>)
    requires WorldInv(w, query) && Serveable(v, id, s) && Held(w, id, s) && from < |s.items|
    requires CursorAt(v, Some(c), id, s, from) && f.limit > 0
    ensures z == RunFrom(w, query, f.events) && r == FromCursor(v, z, c, f.limit, f.bytes)
    ensures WorldInv(z, query) && Held(z, id, s) && Advances(v, id, s, from, f, r)
  {
    z := RunFrom(w, query, f.events);
    r := FromCursor(v, z, c, f.limit, f.bytes);
    RunHolds(w, query, f.events, id, s);
    FollowAdvances(v, z, id, s, from, c, f);
  }

  /**
   The walk's pages are the items from `from` on, each once and in order, one page per request at most, and
   each within its own request's limits.
   */
  ghost predicate Covers(v: Server, s: ResultSet, from: nat, walk: Walk, follows: seq<Follow>) {
    var all := Concat(walk.pages);
    && from + |all| <= |s.items| && all == s.items[from..from + |all|]
    && (walk.outcome.Done? ==> from + |all| == |s.items|)
    && (walk.outcome.Stopped? ==> walk.outcome.fault == TooLarge || walk.outcome.fault == BadCursor(Cursors.Expired))
    && |walk.pages| <= |follows| && (forall i :: 0 <= i < |walk.pages| ==> PageFits(v, walk.pages[i], follows[i]))
    && (|follows| >= |s.items| - from ==> !walk.outcome.More?)
  }

  predicate Limited(follows: seq<Follow>) {
    forall i :: 0 <= i < |follows| ==> follows[i].limit > 0
  }

  /**
   Following cursors from any point, with any limits and anything happening in between: the pages are
   the items from there on, each exactly once and in order, each page within its limits; the walk stops
   only because a cursor has expired or a page cannot fit; and it takes at most one page per remaining item.
   */
  lemma {:induction false} WalkCovers(v: Server, query: Query, w: World, id: string, s: ResultSet, from: nat,
                                      c: Option<Cursors.Cursor>, follows: seq<Follow>)
    requires WorldInv(w, query) && Serveable(v, id, s) && Held(w, id, s) && from <= |s.items|
    requires CursorAt(v, c, id, s, from)
    requires Limited(follows)
    ensures Covers(v, s, from, Following(v, query, w, c, follows), follows)
    decreases |follows|
  {
    if c.None? || follows == [] {
      Ended(v, s, from, Following(v, query, w, c, follows), follows);
    } else {
      var z, r := FollowOnce(v, query, w, id, s, from, c.value, follows[0]);
      if r.Ok? { WalkCovers(v, query, z, id, s, from + |r.value.items|, r.value.cursor, follows[1..]); }
      Continues(v, query, w, id, s, from, c, follows, z, r);
    }
  }

  /** The walk from one request on, given that the rest of it covers what remains. */
  lemma Continues(v: Server, query: Query, w: World, id: string, s: ResultSet, from: nat,
                  c: Option<Cursors.Cursor>, follows: seq<Follow>, z: World, r: Result<Response, Fault>)
    requires c.Some? && follows != [] && z == RunFrom(w, query, follows[0].events) && from <= |s.items|
    requires r == FromCursor(v, z, c.value, follows[0].limit, follows[0].bytes)
    requires Advances(v, id, s, from, follows[0], r)
    requires r.Ok? ==>
        Covers(v, s, from + |r.value.items|, Following(v, query, z, r.value.cursor, follows[1..]), follows[1..])
    ensures Covers(v, s, from, Following(v, query, w, c, follows), follows)
  {
    var walk := Following(v, query, w, c, follows);
    if r.Ok? {
      Joined(v, s, from, r.value, Following(v, query, z, r.value.cursor, follows[1..]), follows, walk);
    } else {
      Ended(v, s, from, walk, follows);
    }
  }

  lemma Ended(v: Server, s: ResultSet, from: nat, walk: Walk, follows: seq<Follow>)
    requires from <= |s.items| && walk.pages == [] && (walk.outcome.Done? ==> from == |s.items|)
    requires walk.outcome.Stopped? ==> walk.outcome.fault == TooLarge
                                         || walk.outcome.fault == BadCursor(Cursors.Expired)
    requires walk.outcome.More? ==> |follows| < |s.items| - from
    ensures Covers(v, s, from, walk, follows)
  {
  }

  lemma Joined(v: Server, s: ResultSet, from: nat, first: Response, rest: Walk, follows: seq<Follow>, walk: Walk)
    requires follows != [] && PageFits(v, first, follows[0])
    requires from + |first.items| <= |s.items| && first.items == s.items[from..from + |first.items|]
    requires Covers(v, s, from + |first.items|, rest, follows[1..])
    requires walk.pages == [first] + rest.pages && walk.outcome == rest.outcome
    ensures Covers(v, s, from, walk, follows)
  {
    assert walk.pages[1..] == rest.pages;
    forall i | 0 <= i < |walk.pages| ensures PageFits(v, walk.pages[i], follows[i]) {
      if i > 0 { assert PageFits(v, rest.pages[i - 1], follows[1..][i - 1]); }
    }
  }

  /** A first page of a stored set and the walk from its cursor: everything, in order, from the start. */
  lemma FirstPageCovers(v: Server, query: Query, w: World, id: string, limit: nat, bytes: nat, follows: seq<Follow>)
    requires WorldInv(w, query) && id in w.tables.sets && Serveable(v, id, w.tables.sets[id]) && limit > 0
    requires Limited(follows)
    ensures var s := w.tables.sets[id]; var r := PageOf(v, w.tables.sets, id, 0, limit, bytes, s.expires);
      r.Ok? && s.items != [] ==>
        var rest := Following(v, query, w, r.value.cursor, follows);
        Covers(v, s, 0, Walk([r.value] + rest.pages, rest.outcome), [Follow([], limit, bytes)] + follows)
  {
    var s := w.tables.sets[id];
    PageAdvances(v, w.tables.sets, id, s, 0, limit, bytes, s.expires);
    var r := PageOf(v, w.tables.sets, id, 0, limit, bytes, s.expires);
    if r.Ok? && s.items != [] {
      WalkCovers(v, query, w, id, s, |r.value.items|, r.value.cursor, follows);
      var rest := Following(v, query, w, r.value.cursor, follows);
      var all := [Follow([], limit, bytes)] + follows;
      assert all[1..] == follows;
      Joined(v, s, 0, r.value, rest, all, Walk([r.value] + rest.pages, rest.outcome));
    }
  }
}
