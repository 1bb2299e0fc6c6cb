/** The three sources of assistants, and the overrides that hold the user's own state of them. */
module AssistantOverrides {
  import opened Wrappers
  import opened Assistants

  datatype Builtin = Builtin(agentType: string, fields: string)

  /** A stored row. `decodes` tells whether its encoded columns can be read back. */
  datatype UserRow = UserRow(agentType: string, fields: string, decodes: bool)

  datatype Override = Override(enabled: bool, sortOrder: int, lastUsed: Option<int>, agentType: Option<string>)

  datatype Source = FromBuiltin | FromUser | FromExtension

  datatype Response = Response(
    id: Id,
    source: Source,
    agentType: string,
    enabled: bool,
    sortOrder: int,
    lastUsed: Option<int>,
    fields: string
  )

  datatype World = World(
    builtin: map<Id, Builtin>,
    extension: map<Id, string>,
    rows: map<Id, UserRow>,
    overrides: map<Id, Override>
  )

  datatype Error = NotFound | BadRequest | Forbidden | Internal

  function Lookup<K, V>(m: map<K, V>, k: K): Option<V> { if k in m then Some(m[k]) else None }

  function Or<T>(o: Option<T>, t: T): T { if o.Some? then o.value else t }

  // ---- Reading ----

  function BuiltinResponse(id: Id, b: Builtin, o: Option<Override>): Response {
    Response(
      id, FromBuiltin,
      if o.Some? then Or(o.value.agentType, b.agentType) else b.agentType,
      o.None? || o.value.enabled,
      if o.Some? then o.value.sortOrder else 0,
      if o.Some? then o.value.lastUsed else None,
      b.fields)
  }

  function UserResponse(id: Id, row: UserRow, o: Option<Override>): Result<Response, Error> {
    if !row.decodes then Err(Internal)
    else
      Ok(Response(
           id, FromUser, row.agentType,
           o.None? || o.value.enabled,
           if o.Some? then o.value.sortOrder else 0,
           if o.Some? then o.value.lastUsed else None,
           row.fields))
  }

  function ExtensionResponse(id: Id, fields: string): Response {
    Response(id, FromExtension, DEFAULT_AGENT_TYPE, true, 0, None, fields)
  }

  function Get(w: World, id: Id): Result<Response, Error> {
    if id in w.builtin then Ok(BuiltinResponse(id, w.builtin[id], Lookup(w.overrides, id)))
    else if id in w.extension then Ok(ExtensionResponse(id, w.extension[id]))
    else if id in w.rows then UserResponse(id, w.rows[id], Lookup(w.overrides, id))
    else Err(NotFound)
  }

  /**
   What is shown of an assistant: a built-in has its own agent and fields, a user's assistant those
   of its row and an extension's the default agent. The first two take the rest from the override,
   a built-in also the agent if the override has one; without an override they are enabled, at
   sort order 0 and never used, as an extension's always is.
   */
  lemma GetShows(w: World, id: Id)
    ensures var r, builtin, row := Get(w, id), id in w.builtin, id !in w.builtin && id !in w.extension && id in w.rows;
            && (r == Err(NotFound) <==> id !in w.builtin && id !in w.extension && id !in w.rows)
            && (r == Err(Internal) <==> row && !w.rows[id].decodes)
            && (r.Ok? || r == Err(NotFound) || r == Err(Internal))
            && (builtin ==> r.Ok? && r.value.source == FromBuiltin && r.value.fields == w.builtin[id].fields)
            && (builtin && (id !in w.overrides || w.overrides[id].agentType == None) ==>
                  r.value.agentType == w.builtin[id].agentType)
            && (builtin && id in w.overrides && w.overrides[id].agentType.Some? ==>
                  Some(r.value.agentType) == w.overrides[id].agentType)
            && (row && r.Ok? ==> r.value.source == FromUser && r.value.fields == w.rows[id].fields
                                 && r.value.agentType == w.rows[id].agentType)
            && ((builtin || row) && r.Ok? && id in w.overrides ==>
                  var o := w.overrides[id];
                  (r.value.enabled, r.value.sortOrder, r.value.lastUsed) == (o.enabled, o.sortOrder, o.lastUsed))
            && ((builtin || row) && r.Ok? && id !in w.overrides ==>
                  r.value.enabled && r.value.sortOrder == 0 && r.value.lastUsed == None)
            && (id !in w.builtin && id in w.extension ==>
                  r == Ok(Response(id, FromExtension, "gemini", true, 0, None, w.extension[id])))
            && (r.Ok? ==> r.value.id == id)
  {
  }

  // ---- Writing ----

  /** The upsert: a time is never cleared, and the agent type is written only if one is given. */
  function Upsert(was: Option<Override>, enabled: bool, sortOrder: int, lastUsed: Option<int>,
                  agentType: Option<string>)
    : Override
  {
    Override(
      enabled, sortOrder,
      if lastUsed.Some? || was.None? then lastUsed else was.value.lastUsed,
      if agentType.Some? || was.None? then agentType else was.value.agentType)
  }

  datatype StateRequest = StateRequest(enabled: Option<bool>, sortOrder: Option<int>, lastUsed: Option<int>)

  function EnabledOf(o: Option<Override>): bool { o.None? || o.value.enabled }

  function SortOrderOf(o: Option<Override>): int { if o.Some? then o.value.sortOrder else 0 }

  function LastUsedOf(o: Option<Override>): Option<int> { if o.Some? then o.value.lastUsed else None }

  /** What a set_state that read `was` makes of the override that is there as it writes. */
  function StateWritten(now: Option<Override>, was: Option<Override>, req: StateRequest): Override {
    Upsert(now, Or(req.enabled, EnabledOf(was)), Or(req.sortOrder, SortOrderOf(was)),
           if req.lastUsed.Some? then req.lastUsed else LastUsedOf(was), None)
  }

  /** What an update of a built-in that read `was` makes of it. */
  function AgentWritten(now: Option<Override>, was: Option<Override>, agentType: string): Override {
    Upsert(now, EnabledOf(was), SortOrderOf(was), LastUsedOf(was), Some(agentType))
  }

  function SetState(w: World, id: Id, req: StateRequest): (World, Result<Response, Error>) {
    if id !in w.builtin && id in w.extension then (w, Err(BadRequest))
    else if id !in w.builtin && id !in w.rows then (w, Err(NotFound))
    else
      var was := Lookup(w.overrides, id);
      var w := w.(overrides := w.overrides[id := StateWritten(was, was, req)]);
      (w, Get(w, id))
  }

  /** An update of a built-in assistant; `others` tells whether it asks for more than the agent type. */
  function UpdateBuiltin(w: World, id: Id, agentType: Option<string>, others: bool): (World, Result<Response, Error>)
    requires id in w.builtin
  {
    if others then (w, Err(Forbidden))
    else if agentType.None? then (w, Err(BadRequest))
    else
      var was := Lookup(w.overrides, id);
      var w := w.(overrides := w.overrides[id := AgentWritten(was, was, agentType.value)]);
      (w, Get(w, id))
  }

  /**
   Setting the state changes in what is shown of an assistant the fields that were given and no
   other, whether it had an override or not, and nothing of any other assistant.
   */
  lemma SetStateShows(w: World, id: Id, req: StateRequest, other: Id)
    requires other != id
    ensures var (t, r) := SetState(w, id, req);
            var before := Get(w, id);
            && r == (if before.Ok? && before.value.source == FromExtension then Err(BadRequest)
                     else if before.Err? then before
                     else Ok(before.value.(enabled := Or(req.enabled, before.value.enabled),
                                           sortOrder := Or(req.sortOrder, before.value.sortOrder),
                                           lastUsed := if req.lastUsed.Some? then req.lastUsed
                                               else before.value.lastUsed)))
            && (r.Ok? ==> r == Get(t, id)) && Get(t, other) == Get(w, other)
            && (r == Err(BadRequest) || r == Err(NotFound) ==> t == w)
  {
  }

  /** Switching the agent of a built-in assistant changes what is shown of its agent, and nothing else. */
  lemma UpdateBuiltinShows(w: World, id: Id, agentType: string, other: Id)
    requires id in w.builtin && other != id
    ensures var (t, r) := UpdateBuiltin(w, id, Some(agentType), false);
            && r == Get(t, id) == Ok(Get(w, id).value.(agentType := agentType))
            && Get(t, other) == Get(w, other)
  {
  }

  /** A built-in's own content cannot be changed, and an update must ask for something. */
  lemma UpdatesAreRefused(w: World, id: Id, agentType: Option<string>)
    requires id in w.builtin
    ensures UpdateBuiltin(w, id, agentType, true) == (w, Err(Forbidden))
    ensures UpdateBuiltin(w, id, None, false) == (w, Err(BadRequest))
  {
  }

  datatype Write = SetStateOf(req: StateRequest) | SwitchAgent(agentType: string)

  /** The state after some writes of one built-in assistant. */
  function AfterWrites(w: World, id: Id, writes: seq<Write>): (t: World)
    requires id in w.builtin
    ensures t.builtin == w.builtin
  {
    if writes == [] then w
    else
      var n := |writes| - 1;
      var t := AfterWrites(w, id, writes[..n]);
      match writes[n]
      case SetStateOf(req) => SetState(t, id, req).0
      case SwitchAgent(agentType) => UpdateBuiltin(t, id, Some(agentType), false).0
  }

  /** The value that was given last. */
  function LastGiven<T>(writes: seq<Write>, given: Write -> Option<T>): Option<T> {
    if writes == [] then None
    else if given(writes[|writes| - 1]).Some? then given(writes[|writes| - 1])
    else LastGiven(writes[..|writes| - 1], given)
  }

  function GivenEnabled(e: Write): Option<bool> { if e.SetStateOf? then e.req.enabled else None }

  function GivenOrder(e: Write): Option<int> { if e.SetStateOf? then e.req.sortOrder else None }

  function GivenUse(e: Write): Option<int> { if e.SetStateOf? then e.req.lastUsed else None }

  function GivenAgent(e: Write): Option<string> { if e.SwitchAgent? then Some(e.agentType) else None }

  /**
   After any number of writes of a built-in assistant that had no override, each field is shown as
   it was given last, and as the default where it was never given.
   */
  lemma {:induction false} WritesShow(w: World, id: Id, writes: seq<Write>)
    requires id in w.builtin && id !in w.overrides
    ensures Get(AfterWrites(w, id, writes), id)
            == Ok(Response(
                    id, FromBuiltin,
                    Or(LastGiven(writes, GivenAgent), w.builtin[id].agentType),
                    Or(LastGiven(writes, GivenEnabled), true),
                    Or(LastGiven(writes, GivenOrder), 0),
                    LastGiven(writes, GivenUse),
                    w.builtin[id].fields))
  {
    if writes != [] {
      var n := |writes| - 1;
      var t := AfterWrites(w, id, writes[..n]);
      WritesShow(w, id, writes[..n]);
      var other := Id(id.text + "x");
      assert |other.text| > |id.text|;
      match writes[n]
      case SetStateOf(req) => SetStateShows(t, id, req, other);
      case SwitchAgent(agentType) => UpdateBuiltinShows(t, id, agentType, other);
    }
  }

  /** The two writes share one row and do not overwrite each other: their order does not matter. */
  lemma WritesCommute(w: World, id: Id, req: StateRequest, agentType: string)
    requires id in w.builtin
    ensures UpdateBuiltin(SetState(w, id, req).0, id, Some(agentType), false).0
            == SetState(UpdateBuiltin(w, id, Some(agentType), false).0, id, req).0
  {
  }

  // ---- Listing ----

  predicate Newer(a: Option<int>, b: Option<int>) { a.Some? && (b.None? || a.value > b.value) }

  /** In the list's order: by sort order, then the most recently used first. */
  predicate Before(a: Response, b: Response) {
    a.sortOrder < b.sortOrder || (a.sortOrder == b.sortOrder && Newer(a.lastUsed, b.lastUsed))
  }

  predicate IsSorted(rs: seq<Response>) { forall i, j | 0 <= i < j < |rs| :: !Before(rs[j], rs[i]) }

  /** Inserts behind everything that does not have to come after. */
  function Insert(rs: seq<Response>, r: Response): seq<Response> {
    if rs == [] || !Before(r, rs[|rs| - 1]) then rs + [r]
    else Insert(rs[..|rs| - 1], r) + [rs[|rs| - 1]]
  }

  /** The stable sort. */
  function Sort(rs: seq<Response>): seq<Response> {
    if rs == [] then [] else Insert(Sort(rs[..|rs| - 1]), rs[|rs| - 1])
  }

  lemma {:induction false} InsertHolds(rs: seq<Response>, r: Response)
    ensures multiset(Insert(rs, r)) == multiset(rs) + multiset{r}
  {
    if rs != [] {
      assert rs == rs[..|rs| - 1] + [rs[|rs| - 1]];
      InsertHolds(rs[..|rs| - 1], r);
    }
  }

  lemma LastIsLast(rs: seq<Response>, x: Response)
    requires IsSorted(rs) && rs != [] && x in rs[..|rs| - 1]
    ensures !Before(rs[|rs| - 1], x)
  {
  }

  lemma {:induction false} InsertSorts(rs: seq<Response>, r: Response)
    requires IsSorted(rs)
    ensures IsSorted(Insert(rs, r))
  {
    if rs != [] && Before(r, rs[|rs| - 1]) {
      var n := |rs| - 1;
      InsertSorts(rs[..n], r);
      forall x | x in Insert(rs[..n], r) ensures !Before(rs[n], x) {
        assert x in multiset(Insert(rs[..n], r));
        InsertHolds(rs[..n], r);
        if x != r { LastIsLast(rs, x); }
      }
    } else if rs != [] {
      forall x | x in rs ensures !Before(r, x) {
        if x != rs[|rs| - 1] { LastIsLast(rs, x); }
      }
    }
  }

  lemma {:induction false} SortSorts(rs: seq<Response>)
    ensures IsSorted(Sort(rs)) && multiset(Sort(rs)) == multiset(rs)
  {
    if rs != [] {
      var n := |rs| - 1;
      SortSorts(rs[..n]);
      InsertSorts(Sort(rs[..n]), rs[n]);
      InsertHolds(Sort(rs[..n]), rs[n]);
      assert rs == rs[..n] + [rs[n]];
    }
  }

  /** By sort order, and by the time of the last use, the latest first and those without one last. */
  lemma SortedIff(rs: seq<Response>)
    ensures IsSorted(rs)
            <==> forall i, j | 0 <= i < j < |rs| ::
                   && rs[i].sortOrder <= rs[j].sortOrder
                   && (rs[i].sortOrder == rs[j].sortOrder && rs[j].lastUsed.Some? ==>
                         rs[i].lastUsed.Some? && rs[i].lastUsed.value >= rs[j].lastUsed.value)
  {
  }

  predicate HasKey(r: Response, sortOrder: int, lastUsed: Option<int>) {
    r.sortOrder == sortOrder && r.lastUsed == lastUsed
  }

  /** The responses of one place in the order, as they come. */
  function WithKey(rs: seq<Response>, sortOrder: int, lastUsed: Option<int>): seq<Response> {
    if rs == [] then []
    else
      WithKey(rs[..|rs| - 1], sortOrder, lastUsed)
      + if HasKey(rs[|rs| - 1], sortOrder, lastUsed) then [rs[|rs| - 1]] else []
  }

  lemma WithKeyOfMore(rs: seq<Response>, r: Response, sortOrder: int, lastUsed: Option<int>)
    ensures WithKey(rs + [r], sortOrder, lastUsed)
            == WithKey(rs, sortOrder, lastUsed) + if HasKey(r, sortOrder, lastUsed) then [r] else []
  {
    assert (rs + [r])[..|rs|] == rs;
  }

  lemma {:induction false} InsertIsStable(rs: seq<Response>, r: Response, sortOrder: int, lastUsed: Option<int>)
    ensures WithKey(Insert(rs, r), sortOrder, lastUsed)
            == WithKey(rs, sortOrder, lastUsed) + if HasKey(r, sortOrder, lastUsed) then [r] else []
  {
    hide WithKey;
    if rs == [] || !Before(r, rs[|rs| - 1]) {
      WithKeyOfMore(rs, r, sortOrder, lastUsed);
    } else {
      var n := |rs| - 1;
      InsertIsStable(rs[..n], r, sortOrder, lastUsed);
      WithKeyOfMore(Insert(rs[..n], r), rs[n], sortOrder, lastUsed);
      WithKeyOfMore(rs[..n], rs[n], sortOrder, lastUsed);
      assert rs == rs[..n] + [rs[n]];
    }
  }

  /** Those that the order does not tell apart stay in the order of the sources. */
  lemma {:induction false} SortIsStable(rs: seq<Response>, sortOrder: int, lastUsed: Option<int>)
    ensures WithKey(Sort(rs), sortOrder, lastUsed) == WithKey(rs, sortOrder, lastUsed)
  {
    if rs != [] {
      var n := |rs| - 1;
      SortIsStable(rs[..n], sortOrder, lastUsed);
      InsertIsStable(Sort(rs[..n]), rs[n], sortOrder, lastUsed);
    }
  }

  /** The orders in which the sources give their assistants, each of them once. */
  datatype Orders = Orders(builtin: seq<Id>, rows: seq<Id>, extension: seq<Id>)

  predicate Lists<V>(ids: seq<Id>, m: map<Id, V>) {
    (forall id <- ids :: id in m) && (forall id <- m :: id in ids)
  }

  predicate ListsAll(w: World, orders: Orders) {
    Lists(orders.builtin, w.builtin) && Lists(orders.rows, w.rows) && Lists(orders.extension, w.extension)
  }

  function BuiltinResponses(w: World, ids: seq<Id>): seq<Response>
    requires forall id <- ids :: id in w.builtin
  {
    seq(|ids|, i requires 0 <= i < |ids| => BuiltinResponse(ids[i], w.builtin[ids[i]], Lookup(w.overrides, ids[i])))
  }

  function ExtensionResponses(w: World, ids: seq<Id>): seq<Response>
    requires forall id <- ids :: id in w.extension
  {
    seq(|ids|, i requires 0 <= i < |ids| => ExtensionResponse(ids[i], w.extension[ids[i]]))
  }

  /** One row that cannot be read back fails them all. */
  function UserResponses(w: World, ids: seq<Id>): Result<seq<Response>, Error>
    requires forall id <- ids :: id in w.rows
  {
    if ids == [] then Ok([])
    else
      var n := |ids| - 1;
      match UserResponses(w, ids[..n])
      case Err(e) => Err(e)
      case Ok(front) =>
        match UserResponse(ids[n], w.rows[ids[n]], Lookup(w.overrides, ids[n]))
        case Err(e) => Err(e)
        case Ok(r) => Ok(front + [r])
  }

  function WithoutOrphans(w: World, shown: seq<Response>): World {
    w.(overrides := map id | id in w.overrides && (exists r <- shown :: r.id == id) :: w.overrides[id])
  }

  /** The merged list; overrides of assistants that are not on it are dropped. */
  function List(w: World, orders: Orders): (World, Result<seq<Response>, Error>)
    requires ListsAll(w, orders)
  {
    match UserResponses(w, orders.rows)
    case Err(e) => (w, Err(e))
    case Ok(users) =>
      var shown := Sort(BuiltinResponses(w, orders.builtin) + users + ExtensionResponses(w, orders.extension));
      (WithoutOrphans(w, shown), Ok(shown))
  }

  function RowResponse(w: World, id: Id): Result<Response, Error>
    requires id in w.rows
  {
    UserResponse(id, w.rows[id], Lookup(w.overrides, id))
  }

  lemma {:induction false} UserResponsesHold(w: World, ids: seq<Id>)
    requires forall id <- ids :: id in w.rows
    ensures var r := UserResponses(w, ids);
            && (r.Ok? <==> forall id <- ids :: w.rows[id].decodes)
            && (r.Ok? ==> forall id <- ids :: RowResponse(w, id).Ok? && RowResponse(w, id).value in r.value)
            && (r.Ok? ==> forall x <- r.value :: x.id in ids && RowResponse(w, x.id) == Ok(x))
  {
    if ids != [] {
      UserResponsesHold(w, ids[..|ids| - 1]);
      assert ids == ids[..|ids| - 1] + [ids[|ids| - 1]];
    }
  }

  lemma {:induction false} UserResponsesInOrder(w: World, ids: seq<Id>)
    requires forall id <- ids :: id in w.rows
    ensures var r := UserResponses(w, ids);
            r.Ok? ==> |r.value| == |ids| && forall i | 0 <= i < |ids| :: r.value[i].id == ids[i]
  {
    if ids != [] { UserResponsesInOrder(w, ids[..|ids| - 1]); }
  }

  lemma SortedShows(rs: seq<Response>, r: Response)
    requires r in rs
    ensures r in Sort(rs)
  {
    SortSorts(rs);
    assert r in multiset(rs);
  }

  lemma ShownSomewhere(w: World, orders: Orders, id: Id)
    requires ListsAll(w, orders) && UserResponses(w, orders.rows).Ok? && Get(w, id).Ok?
    ensures Get(w, id).value
            in BuiltinResponses(w, orders.builtin) + UserResponses(w, orders.rows).value
                + ExtensionResponses(w, orders.extension)
  {
    UserResponsesHold(w, orders.rows);
    if id in w.builtin {
      var i :| 0 <= i < |orders.builtin| && orders.builtin[i] == id;
      assert BuiltinResponses(w, orders.builtin)[i] == Get(w, id).value;
    } else if id in w.extension {
      var i :| 0 <= i < |orders.extension| && orders.extension[i] == id;
      assert ExtensionResponses(w, orders.extension)[i] == Get(w, id).value;
    }
  }

  /** Every assistant that can be got is on the list, as it is got; the list fails only for an unreadable row. */
  lemma ListShowsAll(w: World, orders: Orders, id: Id)
    requires ListsAll(w, orders)
    ensures var (t, r) := List(w, orders);
            && (r.Ok? <==> forall x <- w.rows :: w.rows[x].decodes)
            && (r.Err? ==> t == w)
            && (r.Ok? ==> IsSorted(r.value) && (Get(w, id).Ok? ==> Get(w, id).value in r.value))
            && (r.Ok? ==> |r.value| == |orders.builtin| + |orders.rows| + |orders.extension|)
  {
    UserResponsesHold(w, orders.rows);
    var u := UserResponses(w, orders.rows);
    if u.Ok? {
      var b, e := BuiltinResponses(w, orders.builtin), ExtensionResponses(w, orders.extension);
      var all := b + u.value + e;
      SortSorts(all);
      UserResponsesInOrder(w, orders.rows);
      assert |multiset(all)| == |all| && |multiset(Sort(all))| == |Sort(all)|;
      if Get(w, id).Ok? {
        ShownSomewhere(w, orders, id);
        SortedShows(all, Get(w, id).value);
      }
    }
  }

  /** The ids of the responses, one for each. */
  predicate AreOf(all: seq<Response>, ids: seq<Id>) {
    |all| == |ids| && forall i | 0 <= i < |ids| :: all[i].id == ids[i]
  }

  /**
   Of responses that the list's order does not tell apart, the built-ins come first and then the
   user's, each in the order of their source, and the extensions' last.
   */
  lemma ListIsStable(w: World, orders: Orders) returns (all: seq<Response>)
    requires ListsAll(w, orders) && List(w, orders).1.Ok?
    ensures AreOf(all, orders.builtin + orders.rows + orders.extension)
    ensures forall sortOrder, lastUsed ::
              WithKey(List(w, orders).1.value, sortOrder, lastUsed) == WithKey(all, sortOrder, lastUsed)
  {
    var users := UserResponses(w, orders.rows).value;
    UserResponsesInOrder(w, orders.rows);
    all := BuiltinResponses(w, orders.builtin) + users + ExtensionResponses(w, orders.extension);
    forall sortOrder, lastUsed
      ensures WithKey(List(w, orders).1.value, sortOrder, lastUsed) == WithKey(all, sortOrder, lastUsed)
    {
      SortIsStable(all, sortOrder, lastUsed);
    }
  }

  /** Dropping the overrides of assistants that are not listed changes nothing that can be got. */
  lemma CleanupIsUnseen(w: World, orders: Orders, id: Id)
    requires ListsAll(w, orders)
    ensures Get(List(w, orders).0, id) == Get(w, id)
  {
    var (t, r) := List(w, orders);
    ListShowsAll(w, orders, id);
    if r.Ok? && Get(w, id).Ok? {
      assert Get(w, id).value in r.value && Get(w, id).value.id == id;
      assert Lookup(t.overrides, id) == Lookup(w.overrides, id);
    }
  }

  predicate InOneSource(w: World, id: Id) {
    && !(id in w.builtin && id in w.extension) && !(id in w.builtin && id in w.rows)
    && !(id in w.extension && id in w.rows)
  }

  lemma FromSorted(rs: seq<Response>, r: Response)
    requires r in Sort(rs)
    ensures r in rs
  {
    SortSorts(rs);
    assert r in multiset(rs);
  }

  lemma ListedBuiltin(w: World, ids: seq<Id>, r: Response)
    requires (forall id <- ids :: id in w.builtin) && r in BuiltinResponses(w, ids)
    ensures r.id in w.builtin && r == BuiltinResponse(r.id, w.builtin[r.id], Lookup(w.overrides, r.id))
  {
  }

  lemma ListedExtension(w: World, ids: seq<Id>, r: Response)
    requires (forall id <- ids :: id in w.extension) && r in ExtensionResponses(w, ids)
    ensures r.id in w.extension && r == ExtensionResponse(r.id, w.extension[r.id])
  {
  }

  lemma ListedRow(w: World, ids: seq<Id>, r: Response)
    requires (forall id <- ids :: id in w.rows) && UserResponses(w, ids).Ok? && r in UserResponses(w, ids).value
    ensures r.id in w.rows && RowResponse(w, r.id) == Ok(r)
  {
  }

  /** What is listed of an id that only one source has is what is got of it. */
  lemma ListedIsGot(w: World, orders: Orders, r: Response)
    requires ListsAll(w, orders) && InOneSource(w, r.id)
    requires List(w, orders).1.Ok? && r in List(w, orders).1.value
    ensures Get(w, r.id) == Ok(r)
  {
    var b, e := BuiltinResponses(w, orders.builtin), ExtensionResponses(w, orders.extension);
    FromSorted(b + UserResponses(w, orders.rows).value + e, r);
    if r in b {
      ListedBuiltin(w, orders.builtin, r);
    } else if r in e {
      ListedExtension(w, orders.extension, r);
    } else {
      ListedRow(w, orders.rows, r);
    }
  }

  lemma ListedHasSource(w: World, orders: Orders, r: Response)
    requires ListsAll(w, orders) && List(w, orders).1.Ok? && r in List(w, orders).1.value
    ensures r.id in w.builtin || r.id in w.rows || r.id in w.extension
  {
    var b, e := BuiltinResponses(w, orders.builtin), ExtensionResponses(w, orders.extension);
    FromSorted(b + UserResponses(w, orders.rows).value + e, r);
    if r in b {
      ListedBuiltin(w, orders.builtin, r);
    } else if r in e {
      ListedExtension(w, orders.extension, r);
    } else {
      ListedRow(w, orders.rows, r);
    }
  }

  /** The list's cleanup drops exactly the overrides of ids that no source has any more. */
  lemma OrphansGo(w: World, orders: Orders, id: Id)
    requires ListsAll(w, orders) && List(w, orders).1.Ok?
    ensures var t := List(w, orders).0;
            && t == w.(overrides := t.overrides)
            && (id in t.overrides
                <==> id in w.overrides && (id in w.builtin || id in w.rows || id in w.extension))
            && (id in t.overrides ==> t.overrides[id] == w.overrides[id])
  {
    var shown := List(w, orders).1.value;
    if exists r <- shown :: r.id == id {
      var r :| r in shown && r.id == id;
      ListedHasSource(w, orders, r);
    }
    if id in w.builtin || id in w.rows || id in w.extension {
      ListShowsAll(w, orders, id);
      assert Get(w, id).value in shown && Get(w, id).value.id == id;
    }
  }
}
