/** The catalog's operations when nothing comes between their steps, and runs of them. */
module CatalogRuns {
  import opened AgentCatalog
  import AgentProbe
  import opened CatalogCache
  import opened Wrappers

  /** How a received message fared: its columns were not stored, or not read back, or all went well. */
  datatype Fate = NotStored | NotReadBack | Applied

  /** One turn of the consumer, one reload: what they are when nothing comes in between. */
  datatype Whole = Sent(message: Message) | Turned(fate: Fate) | Reload | Refreshed | Moved(path: AgentProbe.Path)

  function Fetched(s: State, fate: Fate): State { Apply(Apply(s, Receive), Fetch(!fate.NotStored?)) }

  function Do(s: State, op: Whole): State {
    match op
    case Sent(m) => Apply(s, Submit(m))
    case Turned(fate) =>
      Apply(Apply(Apply(Apply(Fetched(s, fate), Store(true)), ReadBack(fate.Applied?)), ProbeFound), PutInCache)
    case Reload => Apply(Apply(Apply(s, LoadRead(0)), LoadProbe(0)), LoadInstall(0))
    case Refreshed => Apply(s, Refresh)
    case Moved(path) => Apply(s, ChangePath(path))
  }

  function DoAll(s: State, ops: seq<Whole>): State {
    if ops == [] then s else Do(DoAll(s, ops[..|ops| - 1]), ops[|ops| - 1])
  }

  predicate Settled(s: State) { s.turn.Idle? && s.loads == map[] }

  // ---- What they do ----

  function Merged(r: Row, m: Message): Row { r.(columns := Merge(r.columns, m.partial)) }

  /** The message is consumed. */
  function Taken(s: State): State
    requires s.queue != []
  {
    s.(queue := s.queue[1..], consumed := s.consumed + [s.queue[0]])
  }

  /** And its columns are stored. */
  function Kept(s: State): State
    requires s.queue != [] && s.queue[0].id in s.rows
  {
    var m := s.queue[0];
    var row := Merged(s.rows[m.id], m);
    Taken(s).(rows := s.rows[m.id := row], stores := s.stores + [m],
              behind := Noted(s.behind, m.id, Stored(row.columns, m.partial)))
  }

  /** And the row is cached. */
  function Cached(s: State, p: Persisted): State
    requires s.queue != [] && s.queue[0].id in s.rows
  {
    var m := s.queue[0];
    DoCache(Kept(s), m.id, Merged(s.rows[m.id], m), [], Probed(p, s.path))
  }

  function TurnOf(s: State, fate: Fate): State {
    if s.queue == [] then s
    else if fate.NotStored? || s.queue[0].id !in s.rows then Taken(s)
    else
      var p := Decode(Merged(s.rows[s.queue[0].id], s.queue[0]));
      if fate.Applied? && p.Some? then Cached(s, p.value) else Kept(s)
  }

  lemma TurnStores(s: State)
    requires Settled(s) && s.queue != [] && s.queue[0].id in s.rows
    ensures var m := s.queue[0];
            var t := Apply(Apply(Apply(s, Receive), Fetch(true)), Store(true));
            t == Kept(s).(turn := Written(m), consumed := s.consumed)
  {
    var m := s.queue[0];
    var received := Apply(s, Receive);
    assert received == s.(queue := s.queue[1..], turn := InHand(m));
    var fetched := Apply(received, Fetch(true));
    assert fetched == received.(turn := AgentCatalog.Fetched(m, s.rows[m.id].columns));
    assert NoteLoads(map[], m.id, Stored(Merge(s.rows[m.id].columns, m.partial), m.partial)) == map[];
  }

  lemma TurnCaches(s: State, t: State, fate: Fate)
    requires Settled(s) && s.queue != [] && s.queue[0].id in s.rows && !fate.NotStored?
    requires t == Kept(s).(turn := Written(s.queue[0]), consumed := s.consumed)
    ensures Apply(Apply(Apply(t, ReadBack(fate.Applied?)), ProbeFound), PutInCache) == TurnOf(s, fate)
  {
    var m := s.queue[0];
    var row := Merged(s.rows[m.id], m);
    if fate.Applied? {
      var found := Apply(t, ReadBack(true));
      assert found == t.(turn := Found(m, row, []));
      if Decode(row).Some? {
        assert Apply(found, ProbeFound) == t.(turn := Ready(m, row, [], Probed(Decode(row).value, s.path)));
      } else {
        assert Apply(found, ProbeFound) == Finish(found);
      }
    } else {
      assert Apply(t, ReadBack(false)) == Finish(t) == Kept(s);
    }
  }

  lemma TurnIs(s: State, fate: Fate)
    requires Settled(s)
    ensures Do(s, Turned(fate)) == TurnOf(s, fate)
  {
    if s.queue == [] {
    } else if fate.NotStored? || s.queue[0].id !in s.rows {
      var received := Apply(s, Receive);
      assert received == s.(queue := s.queue[1..], turn := InHand(s.queue[0]));
      assert Fetched(s, fate) == Finish(received) == Taken(s);
    } else {
      TurnStores(s);
      TurnCaches(s, Apply(Fetched(s, fate), Store(true)), fate);
    }
  }

  /** A turn, as far as the registry shows it. */
  lemma TurnShows(s: State, fate: Fate)
    requires Settled(s) && s.queue != []
    ensures var t, m := Do(s, Turned(fate)), s.queue[0];
            var kept := !fate.NotStored? && m.id in s.rows;
            && Settled(t) && t.queue == s.queue[1..] && t.path == s.path
            && t.rows == (if kept then s.rows[m.id := Merged(s.rows[m.id], m)] else s.rows)
            && t.cache == if kept && fate.Applied? && s.rows[m.id].known
                          then s.cache[m.id := Probed(Decode(Merged(s.rows[m.id], m)).value, s.path)] else s.cache
  {
    TurnIs(s, fate);
  }

  /** What a column holds; nothing if it cannot be read. */
  predicate Reads(value: Option<Json>, column: Option<Column>) {
    match value
    case Some(x) => column == Some(Encoded(x))
    case None => column.None? || column.value.Malformed?
  }

  /** The entry that a row gives on a path. */
  predicate Gives(r: Row, m: Metadata, path: AgentProbe.Path) {
    && m.persisted.spec == r.spec && IsShown(m, path)
    && Reads(m.persisted.handshake.capabilities, r.columns.capabilities)
    && Reads(m.persisted.handshake.authMethods, r.columns.authMethods)
    && Reads(m.persisted.handshake.configOptions, r.columns.configOptions)
    && Reads(m.persisted.handshake.modes, r.columns.modes)
    && Reads(m.persisted.handshake.models, r.columns.models)
    && Reads(m.persisted.handshake.commands, r.columns.commands)
  }

  lemma DecodedGives(r: Row, path: AgentProbe.Path)
    ensures Decode(r).Some? <==> r.known
    ensures r.known ==> Gives(r, Probed(Decode(r).value, path), path)
  {
    if r.known { ProbedIsShown(Decode(r).value, path); }
  }


  lemma ReloadIs(s: State)
    requires Settled(s)
    ensures Do(s, Reload) == s.(cache := Install(s.rows, s.path), seen := s.rows, behind := map[])
  {
    var read := Apply(s, LoadRead(0));
    assert read == s.(loads := map[0 := Load(s.rows, None, map[])]);
    var probed := Apply(read, LoadProbe(0));
    assert probed == s.(loads := map[0 := Load(s.rows, Some(Install(s.rows, s.path)), map[])]);
    assert probed.loads - {0} == map[];
  }

  lemma InstallGives(rows: map<Id, Row>, path: AgentProbe.Path)
    ensures var cache := Install(rows, path);
            && (forall id :: id in cache <==> id in rows && rows[id].known)
            && (forall id <- cache :: Gives(rows[id], cache[id], path))
  {
    hide Decode, Probed, Gives;
    forall id <- rows
      ensures Decode(rows[id]).Some? <==> rows[id].known
      ensures rows[id].known ==> Gives(rows[id], Probed(Decode(rows[id]).value, path), path)
    {
      DecodedGives(rows[id], path);
    }
  }

  /** An uninterrupted reload caches an entry for every known row, as the row and the path give it. */
  lemma ReloadGives(s: State)
    requires Settled(s)
    ensures var t := Do(s, Reload);
            && t.rows == s.rows && t.path == s.path
            && (forall id :: id in t.cache <==> id in s.rows && s.rows[id].known)
            && (forall id <- t.cache :: Gives(s.rows[id], t.cache[id], s.path))
  {
    ReloadIs(s);
    InstallGives(s.rows, s.path);
  }

  /** A turn that stores and reads back caches the row as it then is, and no other entry changes. */
  lemma TurnGives(s: State, other: Id)
    requires Settled(s) && s.queue != []
    ensures var t, id := Do(s, Turned(Applied)), s.queue[0].id;
            && (id in s.rows && s.rows[id].known ==>
                  id in t.rows && id in t.cache && Gives(t.rows[id], t.cache[id], s.path))
            && (other != id ==> (other in t.cache <==> other in s.cache)
                                && (other in s.cache ==> t.cache[other] == s.cache[other]))
  {
    hide Probed, Gives;
    TurnShows(s, Applied);
    var id := s.queue[0].id;
    if id in s.rows { DecodedGives(Merged(s.rows[id], s.queue[0]), s.path); }
  }

  // ---- Agreement ----

  /** The updates stored in a row since its entry was last read, none of which was read back. */
  function Unread(s: State, ops: seq<Whole>, id: Id): seq<Message> {
    if ops == [] then []
    else
      var before, op := DoAll(s, ops[..|ops| - 1]), ops[|ops| - 1];
      var unread := Unread(s, ops[..|ops| - 1], id);
      if op.Reload? then []
      else if !op.Turned? || op.fate.NotStored? || before.queue == [] || before.queue[0].id != id || id !in before.rows
          then unread
      else if op.fate.Applied? && before.rows[id].known then []
      else unread + [before.queue[0]]
  }

  /** A field of a row, by what was read of it and the updates stored since. */
  predicate Holds(was: Row, now: Row, ms: seq<Message>, id: Id, f: Field) {
    && now.spec == was.spec && now.known == was.known
    && now.columns.At(f) == Keep(was.columns.At(f), LastGiven(ms, id, f))
  }

  /** The entry is the decoded row that was seen, and the row now holds that and the unread updates. */
  ghost predicate Follows(s: State, id: Id, unread: seq<Message>) {
    && Settled(s) && CachedAt(s.cache, id) == DecodedAt(s.seen, id) && (id in s.rows <==> id in s.seen)
    && (id in s.rows ==> forall f: Field :: Holds(s.seen[id], s.rows[id], unread, id, f))
  }

  lemma MergedHolds(was: Row, now: Row, ms: seq<Message>, m: Message, id: Id)
    requires m.id == id && forall f: Field :: Holds(was, now, ms, id, f)
    ensures forall f: Field :: Holds(was, Merged(now, m), ms + [m], id, f)
  {
    forall f: Field ensures Holds(was, Merged(now, m), ms + [m], id, f) {
      assert Holds(was, now, ms, id, f);
      MergeWrites(now.columns, m.partial, f);
      LastGivenSnoc(ms, m, id, f);
    }
  }

  lemma TurnFollows(s: State, fate: Fate, id: Id, unread: seq<Message>)
    requires Follows(s, id, unread) && s.queue != [] && s.queue[0].id == id && id in s.rows && !fate.NotStored?
    ensures Follows(TurnOf(s, fate), id, if fate.Applied? && s.rows[id].known then [] else unread + [s.queue[0]])
  {
    var t := TurnOf(s, fate);
    MergedHolds(s.seen[id], s.rows[id], unread, s.queue[0], id);
    if fate.Applied? && s.rows[id].known {
      assert t.seen[id] == t.rows[id] == Merged(s.rows[id], s.queue[0]);
    }
  }

  lemma OtherStays(s: State, fate: Fate, id: Id)
    requires Settled(s) && (s.queue == [] || fate.NotStored? || s.queue[0].id != id || id !in s.rows)
    ensures var t := TurnOf(s, fate);
            && Settled(t) && RowAt(t.rows, id) == RowAt(s.rows, id) && RowAt(t.seen, id) == RowAt(s.seen, id)
            && CachedAt(t.cache, id) == CachedAt(s.cache, id)
  {
  }

  lemma TurnElsewhere(s: State, fate: Fate, id: Id, unread: seq<Message>)
    requires Follows(s, id, unread) && (s.queue == [] || fate.NotStored? || s.queue[0].id != id || id !in s.rows)
    ensures Follows(TurnOf(s, fate), id, unread)
  {
    OtherStays(s, fate, id);
  }

  lemma ReloadFollows(s: State, id: Id)
    requires Settled(s)
    ensures Follows(Do(s, Reload), id, [])
  {
    ReloadIs(s);
  }

  lemma AnyTurnFollows(s: State, fate: Fate, id: Id, unread: seq<Message>)
    requires Follows(s, id, unread)
    ensures Follows(Do(s, Turned(fate)), id,
                    if fate.NotStored? || s.queue == [] || s.queue[0].id != id || id !in s.rows then unread
                    else if fate.Applied? && s.rows[id].known then []
                    else unread + [s.queue[0]])
  {
    TurnIs(s, fate);
    if fate.NotStored? || s.queue == [] || s.queue[0].id != id || id !in s.rows {
      TurnElsewhere(s, fate, id, unread);
    } else {
      TurnFollows(s, fate, id, unread);
    }
  }

  lemma {:induction false} RunFollows(s: State, ops: seq<Whole>, id: Id)
    requires Follows(s, id, [])
    ensures Follows(DoAll(s, ops), id, Unread(s, ops, id))
  {
    if ops != [] {
      var n := |ops| - 1;
      var before := DoAll(s, ops[..n]);
      RunFollows(s, ops[..n], id);
      match ops[n]
      case Turned(fate) => AnyTurnFollows(before, fate, id, Unread(s, ops[..n], id));
      case Reload => ReloadFollows(before, id);
      case Sent(_) | Refreshed | Moved(_) =>
    }
  }

  lemma FollowsAgreesIff(s: State, id: Id, unread: seq<Message>)
    requires Follows(s, id, unread)
    ensures Agrees(s, id) <==> (id !in s.cache || forall f: Field ::
                                  LastGiven(unread, id, f).None?
                                  || LastGiven(unread, id, f) == s.cache[id].persisted.handshake.At(f))
  {
    if id in s.cache {
      var was, now := s.seen[id], s.rows[id];
      ParsedAlike(now.columns, was.columns);
      assert Holds(was, now, unread, id, Capabilities);
      forall f: Field
        ensures Parse(now.columns.At(f)) == Parse(was.columns.At(f))
                <==> LastGiven(unread, id, f).None? || LastGiven(unread, id, f) == s.cache[id].persisted.handshake.At(f)
      {
        assert Holds(was, now, unread, id, f);
        ParseEach(was.columns, f);
      }
    } else if id in s.rows {
      assert Holds(s.seen[id], s.rows[id], unread, id, Capabilities);
    }
  }

  /**
   Runs of whole operations after a first reload: an entry agrees with its row exactly when the
   updates that were stored and not read back since it was read gave each field nothing, or last
   what the entry shows.
   */
  lemma WholeRunAgreesIff(rows: map<Id, Row>, path: AgentProbe.Path, ops: seq<Whole>, id: Id)
    ensures var first := Do(Initial(rows, path), Reload);
            var s := DoAll(first, ops);
            var unread := Unread(first, ops, id);
            Agrees(s, id) <==> (id !in s.cache || forall f: Field ::
                                  LastGiven(unread, id, f).None?
                                  || LastGiven(unread, id, f) == s.cache[id].persisted.handshake.At(f))
  {
    ReloadFollows(Initial(rows, path), id);
    var first := Do(Initial(rows, path), Reload);
    RunFollows(first, ops, id);
    FollowsAgreesIff(DoAll(first, ops), id, Unread(first, ops, id));
  }

  /** Told from the messages: no update of the row goes unread in the run. */
  predicate AllReadBack(s: State, ops: seq<Whole>, id: Id) {
    ops == [] ||
    (var before := DoAll(s, ops[..|ops| - 1]);
     && AllReadBack(s, ops[..|ops| - 1], id)
     && (ops[|ops| - 1].Turned? && ops[|ops| - 1].fate.NotReadBack? ==> before.queue == [] || before.queue[0].id != id))
  }

  lemma OwnTurnAgrees(s: State, id: Id)
    requires Settled(s) && Agrees(s, id) && s.queue != [] && s.queue[0].id == id && id in s.rows
    ensures Settled(TurnOf(s, Applied)) && Agrees(TurnOf(s, Applied), id)
  {
    var row := Merged(s.rows[id], s.queue[0]);
    assert RowAt(TurnOf(s, Applied).rows, id) == Some(row) && row.known == s.rows[id].known;
  }

  lemma TurnAgrees(s: State, fate: Fate, id: Id)
    requires Settled(s) && Agrees(s, id) && (fate.NotReadBack? ==> s.queue == [] || s.queue[0].id != id)
    ensures Settled(TurnOf(s, fate)) && Agrees(TurnOf(s, fate), id)
  {
    if s.queue != [] && s.queue[0].id == id && id in s.rows && fate.Applied? {
      OwnTurnAgrees(s, id);
    } else {
      OtherStays(s, fate, id);
    }
  }

  /**
   With every turn of the consumer and every reload in one piece, in every run that begins in
   agreement an entry agrees with its row throughout, unless an update of it was not read back.
   */
  lemma {:induction false} WholeRunsAgree(s: State, ops: seq<Whole>, id: Id)
    requires Settled(s) && Agrees(s, id) && AllReadBack(s, ops, id)
    ensures Settled(DoAll(s, ops)) && Agrees(DoAll(s, ops), id)
  {
    if ops != [] {
      var before := DoAll(s, ops[..|ops| - 1]);
      WholeRunsAgree(s, ops[..|ops| - 1], id);
      match ops[|ops| - 1]
      case Turned(fate) =>
        TurnIs(before, fate);
        TurnAgrees(before, fate, id);
      case Reload => ReloadIs(before);
      case Sent(_) | Refreshed | Moved(_) =>
    }
  }

  lemma UnreadDisagrees(s: State, id: Id, m: Message)
    requires Settled(s) && s.queue == [m] && m.id == id && id in s.rows && id in s.cache
    requires m.partial.capabilities == Some(1) && s.cache[id].persisted.handshake.capabilities == None
    ensures !Agrees(TurnOf(s, NotReadBack), id)
  {
    var t := TurnOf(s, NotReadBack);
    assert t.rows[id].columns.capabilities == Some(Encoded(1)) && t.cache == s.cache;
  }

  /** A write that is not read back breaks the agreement. */
  lemma NotReadBackBreaks(id: Id, row: Row, m: Message, path: AgentProbe.Path)
    requires row.known && m.id == id && m.partial.capabilities == Some(1) && row.columns.capabilities == None
    ensures var sent := Do(Do(Initial(map[id := row], path), Reload), Sent(m));
            Agrees(sent, id) && !Agrees(Do(sent, Turned(NotReadBack)), id) && Agrees(Do(sent, Turned(Applied)), id)
  {
    var sent := Do(Do(Initial(map[id := row], path), Reload), Sent(m));
    ReloadIs(Initial(map[id := row], path));
    assert Settled(sent) && sent.queue == [m] && sent.rows == map[id := row] && id in sent.cache;
    TurnIs(sent, NotReadBack);
    TurnIs(sent, Applied);
    UnreadDisagrees(sent, id, m);
    TurnAgrees(sent, Applied, id);
  }
}
