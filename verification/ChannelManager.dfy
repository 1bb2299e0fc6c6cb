/** The channel manager as an object: the live map, the repository's table, and the history as ghosts. */
module ChannelManager {
  import opened Wrappers
  import opened ChannelPlugins

  class Manager {
    var plugins: map<Id, nat>
    var rows: map<Id, Row>
    var next: nat
    ghost var started: map<nat, Start>
    ghost var stopped: set<nat>
    ghost var abandoned: set<nat>

    ghost function Now(): State
      reads this
    {
      State(plugins, rows, next, started, stopped, abandoned)
    }

    constructor (table: map<Id, Row>)
      ensures Now() == Initial(table)
    {
      plugins, rows, next := map[], table, 0;
      started, stopped, abandoned := map[], {}, {};
    }

    /** Removes the instance from the map and asks it to stop; an error of its own is only logged. */
    method StopPlugin(id: Id)
      modifies this
      ensures Now() == Stop(old(Now()), id)
    {
      if id in plugins {
        stopped := stopped + {plugins[id]};
        plugins := plugins - {id};
      }
    }

    /** The repository's update: a missing row is an error. */
    method UpdateStatus(id: Id, status: Status, enabled: Option<bool>, works: bool) returns (ok: bool)
      modifies this`rows
      ensures ok == CanWrite(old(Now()), id, works)
      ensures !ok ==> rows == old(rows)
      ensures ok ==> rows == old(rows)[id := old(rows)[id].(status := status,
                       enabled := if enabled.Some? then enabled.value else old(rows)[id].enabled)]
    {
      ok := works && id in rows;
      if ok {
        var row := rows[id].(status := status);
        if enabled.Some? { row := row.(enabled := enabled.value); }
        rows := rows[id := row];
      }
    }

    /** Makes, initializes and starts an instance, records it as running and puts it in the map. */
    method LaunchPlugin(id: Id, config: string, luck: Luck) returns (e: Option<Error>)
      modifies this
      ensures (Now(), e) == Launch(old(Now()), id, config, luck)
    {
      if !luck.made { return Some(InvalidPluginType); }
      var plugin := next;
      next := next + 1;
      if !luck.initializes { return Some(PluginFailed); }
      if !luck.starts { return Some(PluginFailed); }
      started := started[plugin := Start(id, config)];
      var ok := UpdateStatus(id, Running, None, luck.recorded);
      if !ok {
        abandoned := abandoned + {plugin};
        return Some(Database);
      }
      plugins := plugins[id := plugin];
      return None;
    }

    method EnablePlugin(id: Id, config: Option<string>, encrypts: bool, stored: bool, luck: Luck)
      returns (e: Option<Error>)
      modifies this
      ensures (Now(), e) == Enable(old(Now()), id, config, encrypts, stored, luck)
    {
      if id.name !in BUILT_IN { return Some(InvalidPluginType); }
      if config.None? { return Some(InvalidConfig); }
      if id in plugins { StopPlugin(id); }
      if !encrypts { return Some(EncryptionFailed); }
      if !stored { return Some(Database); }
      rows := rows[id := Row(id.name, true, config.value, Created)];
      e := LaunchPlugin(id, config.value, luck);
      if e == Some(PluginFailed) {
        var _ := UpdateStatus(id, Failed, None, luck.errorRecorded);
      }
    }

    method EnableExtensionPlugin(id: Id, config: string, encrypts: bool, stored: bool) returns (e: Option<Error>)
      modifies this
      ensures (Now(), e) == EnableExtension(old(Now()), id, config, encrypts, stored)
    {
      if id in plugins { StopPlugin(id); }
      if !encrypts { return Some(EncryptionFailed); }
      if !stored { return Some(Database); }
      rows := rows[id := Row(id.name, true, config, Stopped)];
      return None;
    }

    method DisablePlugin(id: Id, works: bool) returns (e: Option<Error>)
      modifies this
      ensures (Now(), e) == Disable(old(Now()), id, works)
    {
      StopPlugin(id);
      var ok := UpdateStatus(id, Stopped, Some(false), works);
      return if ok then None else Some(Database);
    }

    method RestoreSinglePlugin(id: Id, config: string, luck: Luck) returns (e: Option<Error>)
      modifies this
      ensures (Now(), e) == if luck.decrypts then Launch(old(Now()), id, config, luck)
                            else (old(Now()), Some(DecryptionFailed))
    {
      if !luck.decrypts { return Some(DecryptionFailed); }
      e := LaunchPlugin(id, config, luck);
    }

    method RestorePlugins(order: seq<Id>, read: bool, luck: Id -> Luck) returns (e: Option<Error>)
      modifies this
      ensures (Now(), e) == Restore(old(Now()), order, read, luck)
    {
      if !read { return Some(Database); }
      var table, ids := rows, EnabledIds(rows, order);
      EnabledInTable(table, order);
      var k := 0;
      while k < |ids|
        invariant 0 <= k <= |ids|
        invariant Now() == RestoreRows(old(Now()), table, ids[..k], luck)
      {
        assert ids[..k + 1][..k] == ids[..k];
        var id, row := ids[k], table[ids[k]];
        if row.kind in BUILT_IN {
          var failure := RestoreSinglePlugin(id, row.config, luck(id));
          if failure.Some? {
            var _ := UpdateStatus(id, Failed, None, luck(id).errorRecorded);
          }
        }
        k := k + 1;
      }
      assert ids[..k] == ids;
      return None;
    }

    /** The keys are copied before the first stop. */
    method ShutdownAll()
      modifies this
      ensures Now() == Shutdown(old(Now()))
    {
      var keys := plugins.Keys;
      while keys != {}
        invariant plugins.Keys == keys && forall id <- keys :: id in old(plugins) && plugins[id] == old(plugins)[id]
        invariant stopped == old(stopped) + set id | id in old(plugins) && id !in keys :: old(plugins)[id]
        invariant rows == old(rows) && next == old(next) && started == old(started) && abandoned == old(abandoned)
      {
        var key :| key in keys;
        StopPlugin(key);
        keys := keys - {key};
      }
      assert plugins == map[];
    }
  }
}
