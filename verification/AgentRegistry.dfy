/** The registry as an object: sender, consumer and reloads over the table and the cache. */
module AgentRegistry {
  import opened Wrappers
  import AgentProbe
  import opened AgentCatalog
  import CatalogCache
  import opened CatalogRuns

  class Registry {
    var rows: map<Id, Row>
    var byId: map<Id, Metadata>
    var channel: seq<Message>
    var path: AgentProbe.Path
    ghost var history: State

    /** The state of the machine between two calls: no message and no reload is under way. */
    ghost predicate Valid()
      reads this
    {
      && history.rows == rows && history.cache == byId && history.queue == channel && history.path == path
      && Settled(history)
    }

    constructor (rows: map<Id, Row>, path: AgentProbe.Path)
      ensures Valid() && history == Initial(rows, path)
    {
      this.rows, this.byId, this.channel, this.path := rows, map[], [], path;
      history := Initial(rows, path);
    }

    /** Does not wait: with the channel full the message is dropped. */
    method SendPartial(id: Id, handshake: Fields<Json>)
      requires Valid()
      modifies this
      ensures Valid() && history == Do(old(history), Sent(Message(id, handshake)))
    {
      var m := Message(id, handshake);
      history := Do(history, Sent(m));
      if |channel| < CAPACITY {
        channel := channel + [m];
      }
    }

    /** The repository's fetch, update of the six columns and re-read, uninterrupted; answers the row read back. */
    method StoreHandshake(id: Id, handshake: Fields<Json>, fate: Fate) returns (row: Option<Row>)
      modifies this`rows
      ensures fate.NotStored? || id !in old(rows) ==> rows == old(rows) && row == None
      ensures !fate.NotStored? && id in old(rows) ==>
                rows == old(rows)[id := old(rows)[id].(columns := Merge(old(rows)[id].columns, handshake))]
                && row == if fate.Applied? then Some(rows[id]) else None
    {
      row := None;
      if !fate.NotStored? && id in rows {
        var columns := rows[id].columns;
        columns := columns.(capabilities := Keep(columns.capabilities, handshake.capabilities));
        columns := columns.(authMethods := Keep(columns.authMethods, handshake.authMethods));
        columns := columns.(configOptions := Keep(columns.configOptions, handshake.configOptions));
        columns := columns.(modes := Keep(columns.modes, handshake.modes));
        columns := columns.(models := Keep(columns.models, handshake.models));
        columns := columns.(commands := Keep(columns.commands, handshake.commands));
        rows := rows[id := rows[id].(columns := columns)];
        if fate.Applied? { row := Some(rows[id]); }
      }
    }

    /** One turn of the consumer. */
    method ConsumeOne(fate: Fate)
      requires Valid() && channel != []
      modifies this
      ensures Valid() && history == Do(old(history), Turned(fate))
    {
      var m := channel[0];
      channel := channel[1..];
      TurnShows(history, fate);
      history := Do(history, Turned(fate));
      var row := StoreHandshake(m.id, m.partial, fate);
      if row.Some? && Decode(row.value).Some? {
        byId := byId[m.id := Probed(Decode(row.value).value, path)];
      }
    }

    /** Reads every row, decodes and probes them one after the other, and replaces the cache. */
    method Hydrate(works: bool) returns (ok: bool)
      requires Valid()
      modifies this
      ensures Valid() && ok == works
      ensures history == if works then Do(old(history), Reload) else old(history)
      ensures works ==> rows == old(rows) && path == old(path)
                        && (forall id :: id in byId <==> id in rows && rows[id].known)
                        && (forall id <- byId :: Gives(rows[id], byId[id], path))
    {
      if !works { return false; }
      var loaded, decoded := rows, map[];
      var left := loaded.Keys;
      while left != {}
        invariant left <= loaded.Keys
        invariant decoded == map id | id in loaded && id !in left && Decode(loaded[id]).Some?
                              :: Probed(Decode(loaded[id]).value, path)
      {
        var id :| id in left;
        left := left - {id};
        var entry := Decode(loaded[id]);
        if entry.None? {
          continue;
        }
        decoded := decoded[id := Probed(entry.value, path)];
      }
      byId := decoded;
      ReloadIs(history);
      InstallGives(loaded, path);
      history := Do(history, Reload);
      return true;
    }

    /** Probes every entry again, in place. */
    method RefreshAvailability()
      requires Valid()
      modifies this
      ensures Valid() && history == Do(old(history), Refreshed)
      ensures path == old(path) && byId.Keys == old(byId).Keys
      ensures forall id <- byId :: byId[id].persisted == old(byId)[id].persisted && CatalogCache.IsShown(byId[id], path)
    {
      var left := byId.Keys;
      while left != {}
        invariant left <= byId.Keys && byId.Keys == old(byId).Keys
        invariant forall id <- byId :: byId[id] == if id in left then old(byId)[id]
                  else Probed(old(byId)[id].persisted, path)
        invariant rows == old(rows) && channel == old(channel) && path == old(path) && history == old(history)
      {
        var id :| id in left;
        left := left - {id};
        var p := byId[id].persisted;
        var found := AgentProbe.Probe(p.spec, path);
        var resolved := if found.Ok? then Some(found.value) else None;
        byId := byId[id := Metadata(p, resolved,
                                    resolved.Some? || (p.spec.enabled && p.spec.command.None? && p.spec.internal))];
      }
      assert byId == Reprobe(old(byId), path);
      CatalogCache.RefreshCurrent(history);
      history := Do(history, Refreshed);
    }
  }
}
