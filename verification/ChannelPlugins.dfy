/** The channel plugins: the live instances and the table of plugins, as values. */
module ChannelPlugins {
  import opened Wrappers

  datatype Id = Id(name: string)

  datatype Status = Created | Running | Stopped | Failed

  /** A stored plugin. The configuration stands for its ciphertext. */
  datatype Row = Row(kind: string, enabled: bool, config: string, status: Status)

  /** What an instance was started for. */
  datatype Start = Start(id: Id, config: string)

  /**
   The manager's live map, the table, and the history: every instance whose start succeeded,
   those asked to stop since, and those dropped because their status could not be written.
   */
  datatype State = State(
    plugins: map<Id, nat>,
    rows: map<Id, Row>,
    next: nat,
    started: map<nat, Start>,
    stopped: set<nat>,
    abandoned: set<nat>
  )

  /** What goes right while one plugin is brought up. */
  datatype Luck = Luck(
    decrypts: bool,
    made: bool,
    initializes: bool,
    starts: bool,
    recorded: bool,
    errorRecorded: bool
  )

  datatype Error = InvalidPluginType | InvalidConfig | EncryptionFailed | DecryptionFailed | Database | PluginFailed

  const BUILT_IN: set<string> := {"telegram", "lark", "dingtalk", "weixin", "slack", "discord"}

  // ---- The operations ----

  function Stop(s: State, id: Id): State {
    if id in s.plugins then s.(plugins := s.plugins - {id}, stopped := s.stopped + {s.plugins[id]}) else s
  }

  /** An update of a row that is missing fails. */
  predicate CanWrite(s: State, id: Id, works: bool) { works && id in s.rows }

  function WriteStatus(s: State, id: Id, status: Status, works: bool): State {
    if CanWrite(s, id, works) then s.(rows := s.rows[id := s.rows[id].(status := status)]) else s
  }

  /** Making, initializing and starting an instance, then the status, then the live map. */
  function Launch(s: State, id: Id, config: string, luck: Luck): (State, Option<Error>) {
    if !luck.made then (s, Some(InvalidPluginType))
    else
      var i := s.next;
      var s := s.(next := i + 1);
      if !luck.initializes || !luck.starts then (s, Some(PluginFailed))
      else
        var s := s.(started := s.started[i := Start(id, config)]);
        if !CanWrite(s, id, luck.recorded) then (s.(abandoned := s.abandoned + {i}), Some(Database))
        else (WriteStatus(s, id, Running, true).(plugins := s.plugins[id := i]), None)
  }

  function Enable(s: State, id: Id, config: Option<string>, encrypts: bool, stored: bool, luck: Luck)
    : (State, Option<Error>)
  {
    if id.name !in BUILT_IN then (s, Some(InvalidPluginType))
    else if config.None? then (s, Some(InvalidConfig))
    else
      var s := Stop(s, id);
      if !encrypts then (s, Some(EncryptionFailed))
      else if !stored then (s, Some(Database))
      else
        var s := s.(rows := s.rows[id := Row(id.name, true, config.value, Created)]);
        var (s, e) := Launch(s, id, config.value, luck);
        if e == Some(PluginFailed) then (WriteStatus(s, id, Failed, luck.errorRecorded), e) else (s, e)
  }

  function EnableExtension(s: State, id: Id, config: string, encrypts: bool, stored: bool): (State, Option<Error>) {
    var s := Stop(s, id);
    if !encrypts then (s, Some(EncryptionFailed))
    else if !stored then (s, Some(Database))
    else (s.(rows := s.rows[id := Row(id.name, true, config, Stopped)]), None)
  }

  function Disable(s: State, id: Id, works: bool): (State, Option<Error>) {
    var s := Stop(s, id);
    if !CanWrite(s, id, works) then (s, Some(Database))
    else (s.(rows := s.rows[id := s.rows[id].(status := Stopped, enabled := false)]), None)
  }

  function RestoreOne(s: State, id: Id, config: string, luck: Luck): State {
    var (s, e) := if luck.decrypts then Launch(s, id, config, luck) else (s, Some(DecryptionFailed));
    if e.Some? then WriteStatus(s, id, Failed, luck.errorRecorded) else s
  }

  /** The rows that a restore acts on, in the table's order. */
  function EnabledIds(table: map<Id, Row>, order: seq<Id>): seq<Id> {
    if order == [] then []
    else if order[0] in table && table[order[0]].enabled then [order[0]] + EnabledIds(table, order[1..])
    else EnabledIds(table, order[1..])
  }

  function RestoreRow(s: State, id: Id, row: Row, luck: Luck): State {
    if row.kind in BUILT_IN then RestoreOne(s, id, row.config, luck) else s
  }

  function RestoreRows(s: State, table: map<Id, Row>, ids: seq<Id>, luck: Id -> Luck): State
    requires forall id <- ids :: id in table
  {
    if ids == [] then s
    else
      var last := ids[|ids| - 1];
      RestoreRow(RestoreRows(s, table, ids[..|ids| - 1], luck), last, table[last], luck(last))
  }

  lemma {:induction false} EnabledInTable(table: map<Id, Row>, order: seq<Id>)
    ensures forall id <- EnabledIds(table, order) :: id in table && table[id].enabled && id in order
    ensures forall id <- order :: id in table && table[id].enabled ==> id in EnabledIds(table, order)
  {
    if order != [] { EnabledInTable(table, order[1..]); }
  }

  /** Reads the table once, then brings up its enabled rows one after the other. */
  function Restore(s: State, order: seq<Id>, read: bool, luck: Id -> Luck): (State, Option<Error>) {
    if !read then (s, Some(Database))
    else
      EnabledInTable(s.rows, order);
      (RestoreRows(s, s.rows, EnabledIds(s.rows, order), luck), None)
  }

  function Shutdown(s: State): State {
    s.(plugins := map[], stopped := s.stopped + s.plugins.Values)
  }

  // ---- What every operation keeps ----

  /** A live instance belongs to an enabled built-in row with status running, started from its configuration. */
  predicate LiveOk(s: State, id: Id)
    requires id in s.plugins
  {
    var i := s.plugins[id];
    && id in s.rows && s.rows[id].enabled && s.rows[id].status == Running && s.rows[id].kind in BUILT_IN
    && i in s.started && s.started[i] == Start(id, s.rows[id].config)
    && i !in s.stopped && i !in s.abandoned
  }

  /** A started instance is live, was stopped, or was abandoned: exactly one of them. */
  predicate StartedOk(s: State, i: nat)
    requires i in s.started
  {
    && i < s.next
    && !(i in s.stopped && i in s.abandoned)
    && (i in s.stopped || i in s.abandoned || (s.started[i].id in s.plugins && s.plugins[s.started[i].id] == i))
  }

  predicate Inv(s: State) {
    && (forall id <- s.plugins :: LiveOk(s, id))
    && (forall i <- s.started :: StartedOk(s, i))
    && (forall i <- s.stopped :: i in s.started)
    && (forall i <- s.abandoned :: i in s.started)
  }

  lemma StopKeeps(s: State, id: Id)
    requires Inv(s)
    ensures Inv(Stop(s, id)) && id !in Stop(s, id).plugins && Stop(s, id).rows == s.rows
  {
  }

  /** The row of a plugin that is not live may become anything. */
  lemma RowKeeps(s: State, id: Id, row: Row)
    requires Inv(s) && id !in s.plugins
    ensures Inv(s.(rows := s.rows[id := row]))
  {
  }

  lemma WriteStatusKeeps(s: State, id: Id, status: Status, works: bool)
    requires Inv(s) && id !in s.plugins
    ensures Inv(WriteStatus(s, id, status, works))
  {
  }

  lemma LaunchKeeps(s: State, id: Id, config: string, luck: Luck)
    requires Inv(s) && id !in s.plugins
    requires id in s.rows && s.rows[id].enabled && s.rows[id].kind in BUILT_IN && s.rows[id].config == config
    ensures Inv(Launch(s, id, config, luck).0)
  {
  }

  // ---- Restoring ----

  /** Everything that a plugin's own restore needs goes right. */
  predicate Succeeds(row: Row, luck: Luck) {
    row.kind in BUILT_IN && luck.decrypts && luck.made && luck.initializes && luck.starts && luck.recorded
  }

  function RestoredRow(row: Row, luck: Luck): Row {
    if row.kind !in BUILT_IN then row
    else if Succeeds(row, luck) then row.(status := Running)
    else if luck.errorRecorded then row.(status := Failed)
    else row
  }

  /** A restore of one row is about that row only. */
  lemma RestoreRowEffect(s: State, id: Id, luck: Luck)
    requires id in s.rows
    ensures var t := RestoreRow(s, id, s.rows[id], luck);
            && t.rows == s.rows[id := RestoredRow(s.rows[id], luck)]
            && t.plugins.Keys == (if Succeeds(s.rows[id], luck) then s.plugins.Keys + {id} else s.plugins.Keys)
  {
  }

  lemma RestoreRowKeeps(s: State, id: Id, luck: Luck)
    requires Inv(s) && id !in s.plugins && id in s.rows && s.rows[id].enabled
    ensures Inv(RestoreRow(s, id, s.rows[id], luck))
  {
  }

  predicate Distinct(ids: seq<Id>) { forall i, j | 0 <= i < j < |ids| :: ids[i] != ids[j] }

  lemma SplitLast(ids: seq<Id>)
    requires Distinct(ids) && ids != []
    ensures ids[|ids| - 1] !in ids[..|ids| - 1] && Distinct(ids[..|ids| - 1])
    ensures forall x :: x in ids <==> x in ids[..|ids| - 1] || x == ids[|ids| - 1]
  {
  }

  /** What a restore leaves of one row and of its place in the live map. */
  predicate Restored(s: State, t: State, x: Id, among: bool, luck: Luck) {
    && (x in t.rows <==> x in s.rows)
    && (x in s.rows ==> t.rows[x] == if among then RestoredRow(s.rows[x], luck) else s.rows[x])
    && (x in t.plugins <==> x in s.plugins || (among && x in s.rows && Succeeds(s.rows[x], luck)))
  }

  lemma {:induction false} RestoreRowsEffect(s: State, ids: seq<Id>, luck: Id -> Luck)
    requires Distinct(ids) && forall id <- ids :: id in s.rows
    ensures forall x :: Restored(s, RestoreRows(s, s.rows, ids, luck), x, x in ids, luck(x))
  {
    if ids != [] {
      var n, last := |ids| - 1, ids[|ids| - 1];
      SplitLast(ids);
      RestoreRowsEffect(s, ids[..n], luck);
      var m := RestoreRows(s, s.rows, ids[..n], luck);
      assert Restored(s, m, last, false, luck(last));
      RestoreRowEffect(m, last, luck(last));
      var t := RestoreRows(s, s.rows, ids, luck);
      forall x ensures Restored(s, t, x, x in ids, luck(x)) {
        assert Restored(s, m, x, x in ids[..n], luck(x));
      }
    }
  }

  lemma {:induction false} RestoreRowsKeeps(s: State, ids: seq<Id>, luck: Id -> Luck)
    requires Inv(s) && Distinct(ids)
    requires forall id <- ids :: id in s.rows && s.rows[id].enabled && id !in s.plugins
    ensures Inv(RestoreRows(s, s.rows, ids, luck))
  {
    if ids != [] {
      var n, last := |ids| - 1, ids[|ids| - 1];
      SplitLast(ids);
      RestoreRowsKeeps(s, ids[..n], luck);
      RestoreRowsEffect(s, ids[..n], luck);
      var m := RestoreRows(s, s.rows, ids[..n], luck);
      assert Restored(s, m, last, false, luck(last));
      RestoreRowKeeps(m, last, luck(last));
    }
  }

  lemma {:induction false} EnabledDistinct(table: map<Id, Row>, order: seq<Id>)
    requires Distinct(order)
    ensures Distinct(EnabledIds(table, order))
  {
    if order != [] {
      EnabledDistinct(table, order[1..]);
      EnabledInTable(table, order[1..]);
      assert order[0] !in order[1..];
    }
  }

  /** An order in which the table gives its rows, each once. */
  predicate Lists(order: seq<Id>, table: map<Id, Row>) {
    Distinct(order) && (forall id <- order :: id in table) && (forall id <- table :: id in order)
  }

  predicate IsEnabled(table: map<Id, Row>, id: Id) { id in table && table[id].enabled }

  /** In any state, and in whatever order: what becomes of a plugin depends on its own row and luck. */
  lemma RestoreEffect(s: State, order: seq<Id>, luck: Id -> Luck)
    requires Lists(order, s.rows)
    ensures forall x :: Restored(s, Restore(s, order, true, luck).0, x, IsEnabled(s.rows, x), luck(x))
  {
    EnabledInTable(s.rows, order);
    EnabledDistinct(s.rows, order);
    var ids := EnabledIds(s.rows, order);
    RestoreRowsEffect(s, ids, luck);
    var t := Restore(s, order, true, luck).0;
    forall x ensures Restored(s, t, x, IsEnabled(s.rows, x), luck(x)) {
      assert Restored(s, t, x, x in ids, luck(x));
      assert x in ids <==> IsEnabled(s.rows, x);
    }
  }

  lemma RestoreKeeps(s: State, order: seq<Id>, read: bool, luck: Id -> Luck)
    requires Inv(s) && s.plugins == map[] && Lists(order, s.rows)
    ensures Inv(Restore(s, order, read, luck).0)
  {
    EnabledInTable(s.rows, order);
    EnabledDistinct(s.rows, order);
    RestoreRowsKeeps(s, EnabledIds(s.rows, order), luck);
  }

  /**
   A restore keeps the instances and the table in agreement, whatever fails, exactly when no
   plugin is live as it starts: it overwrites a live instance, or marks its row as failed.
   */
  lemma RestoreKeepsIff(s: State, order: seq<Id>)
    requires Inv(s) && Lists(order, s.rows)
    ensures (forall luck: Id -> Luck :: Inv(Restore(s, order, true, luck).0)) <==> s.plugins == map[]
  {
    if s.plugins == map[] {
      forall luck: Id -> Luck ensures Inv(Restore(s, order, true, luck).0) {
        RestoreKeeps(s, order, true, luck);
      }
    } else {
      var id :| id in s.plugins;
      var unlucky: Id -> Luck := x => Luck(false, false, false, false, false, true);
      RestoreEffect(s, order, unlucky);
      var t := Restore(s, order, true, unlucky).0;
      assert LiveOk(s, id);
      assert Restored(s, t, id, true, unlucky(id));
      assert !LiveOk(t, id);
    }
  }

  // ---- Shutting down ----

  lemma ShutdownKeeps(s: State)
    requires Inv(s)
    ensures Inv(Shutdown(s))
    ensures forall i <- s.started :: i in Shutdown(s).stopped || i in s.abandoned
  {
  }

  /**
   A shutdown stops every instance; a restore after it brings back exactly the enabled built-in
   plugins whose own decryption, factory, initialization, start and status write succeed,
   whatever happens to the others, each started from its stored configuration.
   */
  lemma ShutdownThenRestore(s: State, order: seq<Id>, luck: Id -> Luck)
    requires Inv(s) && Lists(order, s.rows)
    ensures var t := Restore(Shutdown(s), order, true, luck).0;
            && Restore(Shutdown(s), order, true, luck).1 == None
            && Inv(t) && t.rows.Keys == s.rows.Keys
            && (forall id :: id in t.plugins <==> IsEnabled(s.rows, id) && Succeeds(s.rows[id], luck(id)))
            && (forall id <- t.plugins ::
                 t.plugins[id] in t.started && t.started[t.plugins[id]] == Start(id, s.rows[id].config))
            && (forall id <- s.rows :: t.rows[id] == if s.rows[id].enabled then RestoredRow(s.rows[id], luck(id))
                 else s.rows[id])
  {
    ShutdownKeeps(s);
    var d := Shutdown(s);
    RestoreKeeps(d, order, true, luck);
    RestoreEffect(d, order, luck);
    var t := Restore(d, order, true, luck).0;
    forall id
      ensures id in t.rows <==> id in s.rows
      ensures id in t.plugins <==> IsEnabled(s.rows, id) && Succeeds(s.rows[id], luck(id))
      ensures id in s.rows
              ==> t.rows[id] == if s.rows[id].enabled then RestoredRow(s.rows[id], luck(id)) else s.rows[id]
    {
      assert Restored(d, t, id, IsEnabled(s.rows, id), luck(id));
    }
    forall id | id in t.plugins
      ensures t.plugins[id] in t.started && t.started[t.plugins[id]] == Start(id, s.rows[id].config)
    {
      assert LiveOk(t, id);
    }
  }

  // ---- Any sequence of operations ----

  datatype Op =
    | EnableOp(id: Id, config: Option<string>, encrypts: bool, stored: bool, luck: Luck)
    | ExtensionOp(id: Id, text: string, encrypts: bool, stored: bool)
    | DisableOp(id: Id, works: bool)
    | RestoreOp(order: seq<Id>, read: bool, lucks: Id -> Luck)
    | ShutdownOp
    | NewProcessOp

  /** A new manager over the same table. */
  function Initial(rows: map<Id, Row>): State { State(map[], rows, 0, map[], {}, {}) }

  /** A restore happens at startup only: with a plugin live it is not a step. */
  function Apply(s: State, op: Op): State {
    match op
    case EnableOp(id, config, encrypts, stored, luck) => Enable(s, id, config, encrypts, stored, luck).0
    case ExtensionOp(id, config, encrypts, stored) => EnableExtension(s, id, config, encrypts, stored).0
    case DisableOp(id, works) => Disable(s, id, works).0
    case RestoreOp(order, read, lucks) =>
      if s.plugins == map[] && Lists(order, s.rows) then Restore(s, order, read, lucks).0 else s
    case ShutdownOp => Shutdown(s)
    case NewProcessOp => Initial(s.rows)
  }

  function Run(s: State, ops: seq<Op>): State {
    if ops == [] then s else Apply(Run(s, ops[..|ops| - 1]), ops[|ops| - 1])
  }

  /** Enables and disables in a run are the operations themselves. */
  lemma OneOp(s: State, id: Id, text: string, config: Option<string>, encrypts: bool, works: bool, luck: Luck)
    ensures Run(s, [EnableOp(id, config, encrypts, works, luck)]) == Enable(s, id, config, encrypts, works, luck).0
    ensures Run(s, [ExtensionOp(id, text, encrypts, works)]) == EnableExtension(s, id, text, encrypts, works).0
    ensures Run(s, [DisableOp(id, works)]) == Disable(s, id, works).0
  {
    forall op: Op ensures Run(s, [op]) == Apply(s, op) {
      assert [op][..0] == [] && Run(s, [op]) == Apply(Run(s, []), op);
    }
  }

  lemma TwoOps(s: State, a: Op, b: Op)
    ensures Run(s, [a, b]) == Apply(Apply(s, a), b)
  {
    assert [a, b][..1] == [a] && [a][..0] == [];
    assert Run(s, [a]) == Apply(Run(s, []), a);
  }

  /** A shutdown and then a restore are such a run; one that cannot read the table changes nothing and says so. */
  lemma RestoreRuns(s: State, order: seq<Id>, read: bool, luck: Id -> Luck)
    requires Lists(order, s.rows)
    ensures Run(s, [ShutdownOp, RestoreOp(order, read, luck)]) == Restore(Shutdown(s), order, read, luck).0
    ensures !read ==> Restore(s, order, read, luck) == (s, Some(Database))
    ensures read ==> Restore(s, order, read, luck).1 == None
  {
    TwoOps(s, ShutdownOp, RestoreOp(order, read, luck));
  }

  lemma EnableKeeps(s: State, id: Id, config: Option<string>, encrypts: bool, stored: bool, luck: Luck)
    requires Inv(s)
    ensures Inv(Enable(s, id, config, encrypts, stored, luck).0)
  {
    if id.name in BUILT_IN && config.Some? {
      StopKeeps(s, id);
      if encrypts && stored {
        var row := Row(id.name, true, config.value, Created);
        var t := Stop(s, id);
        RowKeeps(t, id, row);
        var t' := t.(rows := t.rows[id := row]);
        LaunchKeeps(t', id, config.value, luck);
        var (u, e) := Launch(t', id, config.value, luck);
        if e == Some(PluginFailed) { WriteStatusKeeps(u, id, Failed, luck.errorRecorded); }
      }
    }
  }

  lemma ApplyKeeps(s: State, op: Op)
    requires Inv(s)
    ensures Inv(Apply(s, op))
  {
    match op
    case EnableOp(id, config, encrypts, stored, luck) => EnableKeeps(s, id, config, encrypts, stored, luck);
    case ExtensionOp(id, config, encrypts, stored) =>
      StopKeeps(s, id);
      RowKeeps(Stop(s, id), id, Row(id.name, true, config, Stopped));
    case DisableOp(id, works) =>
      StopKeeps(s, id);
      if CanWrite(s, id, works) { RowKeeps(Stop(s, id), id, s.rows[id].(status := Stopped, enabled := false)); }
    case RestoreOp(order, read, lucks) =>
      if s.plugins == map[] && Lists(order, s.rows) { RestoreKeeps(s, order, read, lucks); }
    case ShutdownOp => ShutdownKeeps(s);
    case NewProcessOp =>
  }

  /**
   Whatever is called in whatever order, and whatever fails: the live map and the table agree,
   no two ids share an instance, and every started instance is live, stopped or abandoned.
   */
  lemma {:induction false} RunKeepsInv(rows: map<Id, Row>, ops: seq<Op>)
    ensures var s := Run(Initial(rows), ops);
            Inv(s) && forall x, y | x in s.plugins && y in s.plugins && s.plugins[x] == s.plugins[y] :: x == y
  {
    if ops != [] {
      RunKeepsInv(rows, ops[..|ops| - 1]);
      ApplyKeeps(Run(Initial(rows), ops[..|ops| - 1]), ops[|ops| - 1]);
    }
    var s := Run(Initial(rows), ops);
    forall x, y | x in s.plugins && y in s.plugins && s.plugins[x] == s.plugins[y] ensures x == y {
      assert LiveOk(s, x) && LiveOk(s, y);
    }
  }

  // ---- What one call answers ----

  /** Nothing of a plugin changes. */
  predicate Untouched(s: State, t: State, id: Id) {
    && (id in t.plugins <==> id in s.plugins) && (id in s.plugins ==> t.plugins[id] == s.plugins[id])
    && (id in t.rows <==> id in s.rows) && (id in s.rows ==> t.rows[id] == s.rows[id])
  }

  /**
   Enabling succeeds exactly when every step does; past validation, the old instance is stopped and
   a failure leaves no instance, with the row as far as it got. Nothing of another plugin changes.
   */
  lemma EnableAnswers(s: State, id: Id, config: Option<string>, encrypts: bool, stored: bool, luck: Luck, other: Id)
    requires Inv(s) && other != id
    ensures var (t, e) := Enable(s, id, config, encrypts, stored, luck);
            && (e.None? <==> id.name in BUILT_IN && config.Some? && encrypts && stored
                             && luck.made && luck.initializes && luck.starts && luck.recorded)
            && (e.None? ==>
                  && id in t.plugins && t.plugins[id] == s.next
                  && t.rows[id] == Row(id.name, true, config.value, Running))
            && (e == Some(InvalidConfig) || id.name !in BUILT_IN ==> t == s)
            && (id.name in BUILT_IN && config.Some? && e.Some? ==> id !in t.plugins)
            && (id.name in BUILT_IN && config.Some? && e.Some? && encrypts && stored ==>
                  var status := if e == Some(PluginFailed) && luck.errorRecorded then Failed else Created;
                  id in t.rows && t.rows[id] == Row(id.name, true, config.value, status))
            && (id in s.plugins && t != s ==> s.plugins[id] in t.stopped)
            && Untouched(s, t, other)
  {
  }

  /** An extension's plugin is stored, enabled and stopped, and no restore ever starts it. */
  lemma ExtensionAnswers(s: State, id: Id, config: string, encrypts: bool, stored: bool, order: seq<Id>,
                         luck: Id -> Luck, other: Id)
    requires Inv(s) && other != id
    ensures var (t, e) := EnableExtension(s, id, config, encrypts, stored);
            && (e.None? <==> encrypts && stored)
            && id !in t.plugins && (id in s.plugins ==> s.plugins[id] in t.stopped)
            && (e.None? ==> id in t.rows && t.rows[id] == Row(id.name, true, config, Stopped))
            && (e.Some? ==> t.rows == s.rows)
            && Untouched(s, t, other)
            && (e.None? && id.name !in BUILT_IN && Lists(order, t.rows) ==>
                  var u := Restore(t, order, true, luck).0;
                  id !in u.plugins && id in u.rows && u.rows[id] == t.rows[id])
  {
    var (t, e) := EnableExtension(s, id, config, encrypts, stored);
    if e.None? && Lists(order, t.rows) {
      RestoreEffect(t, order, luck);
      assert Restored(t, Restore(t, order, true, luck).0, id, IsEnabled(t.rows, id), luck(id));
    }
  }

  /** After a disable the plugin is not live, whether or not the table could be written. */
  lemma DisableAnswers(s: State, id: Id, works: bool)
    requires Inv(s)
    ensures var (t, e) := Disable(s, id, works);
            && id !in t.plugins && (e.None? <==> works && id in s.rows)
            && (e.None? ==> !t.rows[id].enabled && t.rows[id].status == Stopped)
            && (id in s.plugins ==> s.plugins[id] in t.stopped)
            && Disable(t, id, works).0 == t
  {
  }
}
