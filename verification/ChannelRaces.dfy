/**
 Calls of the channel manager in flight together: enables, restores, disables and shutdowns of one
 plugin, a step for each stretch between two awaits. The restore at startup runs beside the server,
 so it is one of them.
 */
module ChannelRaces {
  import Plugins = ChannelPlugins

  type Id = Plugins.Id
  type Row = Plugins.Row

  datatype CallId = CallId(number: nat)

  /** How far a call is. A restore has read its row as it begins; the others have taken the instance they found. */
  datatype Phase =
    | Storing(config: string)
    | Starting(config: string, restores: bool)
    | Started(instance: nat, restores: bool)
    | Recorded(instance: nat)
    | Failing
    | Disabling
    | Extending(config: string)

  datatype Call = Call(id: Id, phase: Phase)

  /**
   The live map, the table, the calls in flight and the history: every instance whose start
   succeeded, those asked to stop, those dropped because their status could not be written, and
   those that the insertion of another replaced in the map.
   */
  datatype State = State(
    plugins: map<Id, nat>,
    rows: map<Id, Row>,
    calls: map<CallId, Call>,
    next: nat,
    started: map<nat, Plugins.Start>,
    stopped: set<nat>,
    abandoned: set<nat>,
    overwritten: set<nat>
  )

  /** How the awaited operation ends; a factory can also have no implementation. */
  datatype Outcome = Works | Fails | Unmade

  datatype Step =
    | BeginEnable(call: CallId, id: Id, config: string)
    | BeginExtension(call: CallId, id: Id, config: string)
    | BeginDisable(call: CallId, id: Id)
    | BeginRestore(call: CallId, id: Id)
    | ShutDown(id: Id)
    | Advance(call: CallId, outcome: Outcome)

  function Initial(rows: map<Id, Row>): State { State(map[], rows, map[], 0, map[], {}, {}, {}) }

  // ---- The steps ----

  /** Removes the instance from the map and asks it to stop. */
  function Take(s: State, id: Id): State {
    if id in s.plugins then s.(plugins := s.plugins - {id}, stopped := s.stopped + {s.plugins[id]}) else s
  }

  function Begin(s: State, c: CallId, id: Id, phase: Phase): State { s.(calls := s.calls[c := Call(id, phase)]) }

  function Goes(s: State, c: CallId, phase: Phase): State
    requires c in s.calls
  {
    s.(calls := s.calls[c := s.calls[c].(phase := phase)])
  }

  function Ends(s: State, c: CallId): State { s.(calls := s.calls - {c}) }

  function Put(s: State, id: Id, row: Row): State { s.(rows := s.rows[id := row]) }

  /** An update of a row that is missing fails. */
  predicate CanUpdate(s: State, id: Id, outcome: Outcome) { outcome.Works? && id in s.rows }

  function Status(s: State, id: Id, status: Plugins.Status): State
    requires id in s.rows
  {
    Put(s, id, s.rows[id].(status := status))
  }

  function Launch(s: State, c: CallId, outcome: Outcome): State
    requires c in s.calls && s.calls[c].phase.Starting?
  {
    var Call(id, phase) := s.calls[c];
    match outcome
    case Works =>
      Goes(s.(next := s.next + 1, started := s.started[s.next := Plugins.Start(id, phase.config)]), c,
           Started(s.next, phase.restores))
    case Fails => Goes(s.(next := s.next + 1), c, Failing)
    case Unmade => if phase.restores then Goes(s, c, Failing) else Ends(s, c)
  }

  function Record(s: State, c: CallId, outcome: Outcome): State
    requires c in s.calls && s.calls[c].phase.Started?
  {
    var Call(id, phase) := s.calls[c];
    if CanUpdate(s, id, outcome) then Goes(Status(s, id, Plugins.Running), c, Recorded(phase.instance))
    else
      var s := s.(abandoned := s.abandoned + {phase.instance});
      if phase.restores then Goes(s, c, Failing) else Ends(s, c)
  }

  /** The map's insertion: an instance that is there is dropped without a stop. */
  function Insert(s: State, id: Id, instance: nat): State {
    s.(plugins := s.plugins[id := instance],
       overwritten := s.overwritten + if id in s.plugins then {s.plugins[id]} else {})
  }

  function Proceed(s: State, c: CallId, outcome: Outcome): State
    requires c in s.calls
  {
    var Call(id, phase) := s.calls[c];
    match phase
    case Storing(config) =>
      if outcome.Works?
      then Goes(Put(s, id, Plugins.Row(id.name, true, config, Plugins.Created)), c, Starting(config, false))
      else Ends(s, c)
    case Starting(_, _) => Launch(s, c, outcome)
    case Started(_, _) => Record(s, c, outcome)
    case Recorded(instance) => Ends(Insert(s, id, instance), c)
    case Failing => Ends(if CanUpdate(s, id, outcome) then Status(s, id, Plugins.Failed) else s, c)
    case Disabling =>
      Ends(if CanUpdate(s, id, outcome)
           then Put(s, id, s.rows[id].(status := Plugins.Stopped, enabled := false)) else s, c)
    case Extending(config) =>
      Ends(if outcome.Works? then Put(s, id, Plugins.Row(id.name, true, config, Plugins.Stopped)) else s, c)
  }

  /** The rows that a restore brings up. */
  predicate IsRestored(s: State, id: Id) { id in s.rows && s.rows[id].enabled && s.rows[id].kind in Plugins.BUILT_IN }

  predicate CanStep(s: State, step: Step) {
    match step
    case BeginEnable(c, id, _) => c !in s.calls && id.name in Plugins.BUILT_IN
    case BeginExtension(c, _, _) => c !in s.calls
    case BeginDisable(c, _) => c !in s.calls
    case BeginRestore(c, id) => c !in s.calls && IsRestored(s, id)
    case ShutDown(_) => true
    case Advance(c, _) => c in s.calls
  }

  function Next(s: State, step: Step): State {
    if !CanStep(s, step) then s
    else
      match step
      case BeginEnable(c, id, config) => Begin(Take(s, id), c, id, Storing(config))
      case BeginExtension(c, id, config) => Begin(Take(s, id), c, id, Extending(config))
      case BeginDisable(c, id) => Begin(Take(s, id), c, id, Disabling)
      case BeginRestore(c, id) => Begin(s, c, id, Starting(s.rows[id].config, true))
      case ShutDown(id) => Take(s, id)
      case Advance(c, outcome) => Proceed(s, c, outcome)
  }

  function Run(s: State, steps: seq<Step>): State {
    if steps == [] then s else Next(Run(s, steps[..|steps| - 1]), steps[|steps| - 1])
  }

  // ---- Where every instance is ----

  predicate Holds(call: Call, i: nat) {
    (call.phase.Started? || call.phase.Recorded?) && call.phase.instance == i
  }

  ghost predicate IsHeld(s: State, i: nat) { exists c <- s.calls :: Holds(s.calls[c], i) }

  ghost predicate IsLive(s: State, i: nat) { exists id <- s.plugins :: s.plugins[id] == i }

  predicate IsGone(s: State, i: nat) { i in s.stopped || i in s.abandoned || i in s.overwritten }

  /** A call past its own storing has a row; what it holds is started for its plugin, and is nowhere else. */
  ghost predicate CallOk(s: State, c: CallId)
    requires c in s.calls
  {
    var call := s.calls[c];
    && (call.phase.Starting? || call.phase.Started? || call.phase.Recorded? || call.phase.Failing? ==>
          call.id in s.rows)
    && (call.phase.Started? || call.phase.Recorded? ==>
          var i := call.phase.instance;
          && i in s.started && s.started[i].id == call.id && !IsGone(s, i)
          && (call.id in s.plugins ==> s.plugins[call.id] != i)
          && forall d <- s.calls :: d != c ==> !Holds(s.calls[d], i))
  }

  ghost predicate LiveOk(s: State, id: Id)
    requires id in s.plugins
  {
    var i := s.plugins[id]; i in s.started && s.started[i].id == id && !IsGone(s, i)
  }

  /** A started instance is below the next number, and in some place. */
  ghost predicate StartedOk(s: State, i: nat)
    requires i in s.started
  {
    i < s.next && (IsGone(s, i) || IsHeld(s, i) || (s.started[i].id in s.plugins && s.plugins[s.started[i].id] == i))
  }

  ghost predicate Inv(s: State) {
    && (forall c <- s.calls :: CallOk(s, c))
    && (forall id <- s.plugins :: LiveOk(s, id))
    && (forall i <- s.started :: StartedOk(s, i))
    && (forall i | IsGone(s, i) :: i in s.started)
    && s.stopped !! s.abandoned && s.stopped !! s.overwritten && s.abandoned !! s.overwritten
  }

  lemma HeldStays(s: State, t: State, i: nat)
    requires IsHeld(s, i) && forall c <- s.calls :: Holds(s.calls[c], i) ==> c in t.calls && Holds(t.calls[c], i)
    ensures IsHeld(t, i)
  {
    var c :| c in s.calls && Holds(s.calls[c], i);
    assert c in t.calls && Holds(t.calls[c], i);
  }

  lemma TakeKeeps(s: State, id: Id)
    requires Inv(s)
    ensures Inv(Take(s, id))
  {
    var t := Take(s, id);
    assert t.calls == s.calls && t.started == s.started && t.next == s.next;
    if id in s.plugins { assert LiveOk(s, id); }
    forall x <- t.plugins ensures LiveOk(t, x) { assert LiveOk(s, x); }
    forall c <- t.calls ensures CallOk(t, c) { assert CallOk(s, c); }
    forall i <- t.started ensures StartedOk(t, i) {
      assert StartedOk(s, i);
      if IsHeld(s, i) { HeldStays(s, t, i); }
    }
  }

  /** A call begins, or goes on, that holds nothing and held nothing. */
  lemma BeginKeeps(s: State, c: CallId, id: Id, phase: Phase)
    requires Inv(s) && !phase.Started? && !phase.Recorded?
    requires phase.Starting? || phase.Failing? ==> id in s.rows
    requires c in s.calls ==> !s.calls[c].phase.Started? && !s.calls[c].phase.Recorded?
    ensures Inv(Begin(s, c, id, phase))
  {
    var t := Begin(s, c, id, phase);
    forall d <- t.calls ensures CallOk(t, d) {
      if d != c { assert CallOk(s, d); }
    }
    forall x <- t.plugins ensures LiveOk(t, x) { assert LiveOk(s, x); }
    forall i <- t.started ensures StartedOk(t, i) {
      assert StartedOk(s, i);
      if IsHeld(s, i) { HeldStays(s, t, i); }
    }
  }

  lemma EndsKeeps(s: State, c: CallId)
    requires Inv(s) && c in s.calls && !s.calls[c].phase.Started? && !s.calls[c].phase.Recorded?
    ensures Inv(Ends(s, c))
  {
    var t := Ends(s, c);
    forall d <- t.calls ensures CallOk(t, d) { assert CallOk(s, d); }
    forall x <- t.plugins ensures LiveOk(t, x) { assert LiveOk(s, x); }
    forall i <- t.started ensures StartedOk(t, i) {
      assert StartedOk(s, i);
      if IsHeld(s, i) { HeldStays(s, t, i); }
    }
  }

  lemma PutKeeps(s: State, id: Id, row: Row)
    requires Inv(s)
    ensures Inv(Put(s, id, row))
  {
    var t := Put(s, id, row);
    forall d <- t.calls ensures CallOk(t, d) { assert CallOk(s, d); }
    forall x <- t.plugins ensures LiveOk(t, x) { assert LiveOk(s, x); }
    forall i <- t.started ensures StartedOk(t, i) {
      assert StartedOk(s, i);
      if IsHeld(s, i) { HeldStays(s, t, i); }
    }
  }

  lemma NumberKeeps(s: State)
    requires Inv(s)
    ensures Inv(s.(next := s.next + 1))
  {
    var t := s.(next := s.next + 1);
    forall d <- t.calls ensures CallOk(t, d) { assert CallOk(s, d); }
    forall x <- t.plugins ensures LiveOk(t, x) { assert LiveOk(s, x); }
    forall i <- t.started ensures StartedOk(t, i) {
      assert StartedOk(s, i);
      if IsHeld(s, i) { HeldStays(s, t, i); }
    }
  }

  lemma LaunchKeeps(s: State, c: CallId, outcome: Outcome)
    requires Inv(s) && c in s.calls && s.calls[c].phase.Starting?
    ensures Inv(Launch(s, c, outcome))
  {
    var Call(id, phase) := s.calls[c];
    assert CallOk(s, c);
    if outcome.Works? {
      var t := Launch(s, c, outcome);
      forall i <- s.started ensures i < s.next { assert StartedOk(s, i); }
      assert s.next !in s.started && !IsGone(s, s.next);
      forall d <- t.calls ensures CallOk(t, d) { assert d != c ==> CallOk(s, d); }
      forall x <- t.plugins ensures LiveOk(t, x) { assert LiveOk(s, x); }
      forall i <- t.started ensures StartedOk(t, i) {
        if i == s.next {
          assert Holds(t.calls[c], i);
        } else {
          assert StartedOk(s, i);
          if IsHeld(s, i) { HeldStays(s, t, i); }
        }
      }
    } else {
      var u := if outcome.Fails? then s.(next := s.next + 1) else s;
      NumberKeeps(s);
      if outcome.Fails? || phase.restores { BeginKeeps(u, c, id, Failing); } else { EndsKeeps(s, c); }
    }
  }

  lemma NotYetGone(s: State, c: CallId)
    requires Inv(s) && c in s.calls && (s.calls[c].phase.Started? || s.calls[c].phase.Recorded?)
    ensures var i := s.calls[c].phase.instance;
            && i in s.started && s.started[i].id == s.calls[c].id && !IsGone(s, i) && s.calls[c].id in s.rows
            && (forall x <- s.plugins :: s.plugins[x] != i) && forall d <- s.calls :: d != c ==> !Holds(s.calls[d], i)
  {
    assert CallOk(s, c);
    var i := s.calls[c].phase.instance;
    forall x <- s.plugins ensures s.plugins[x] != i { assert LiveOk(s, x); }
  }

  lemma AbandonKeeps(s: State, c: CallId, i: nat)
    requires Inv(s) && c in s.calls && s.calls[c].phase.Started? && s.calls[c].phase.instance == i
    ensures Inv(Ends(s.(abandoned := s.abandoned + {i}), c))
  {
    NotYetGone(s, c);
    var t := Ends(s.(abandoned := s.abandoned + {i}), c);
    forall d <- t.calls ensures CallOk(t, d) { assert CallOk(s, d); }
    forall x <- t.plugins ensures LiveOk(t, x) { assert LiveOk(s, x); }
    forall j <- t.started ensures StartedOk(t, j) {
      assert StartedOk(s, j);
      if j != i && IsHeld(s, j) { HeldStays(s, t, j); }
    }
  }

  lemma RecordedKeeps(s: State, c: CallId)
    requires Inv(s) && c in s.calls && s.calls[c].phase.Started?
    ensures Inv(Goes(s, c, Recorded(s.calls[c].phase.instance)))
  {
    NotYetGone(s, c);
    var t := Goes(s, c, Recorded(s.calls[c].phase.instance));
    forall d <- t.calls ensures CallOk(t, d) { assert CallOk(s, d); }
    forall x <- t.plugins ensures LiveOk(t, x) { assert LiveOk(s, x); }
    forall j <- t.started ensures StartedOk(t, j) {
      assert StartedOk(s, j);
      if IsHeld(s, j) { HeldStays(s, t, j); }
    }
  }

  lemma RecordKeeps(s: State, c: CallId, outcome: Outcome)
    requires Inv(s) && c in s.calls && s.calls[c].phase.Started?
    ensures Inv(Record(s, c, outcome))
  {
    var Call(id, phase) := s.calls[c];
    assert CallOk(s, c);
    if CanUpdate(s, id, outcome) {
      var t := Status(s, id, Plugins.Running);
      PutKeeps(s, id, s.rows[id].(status := Plugins.Running));
      RecordedKeeps(t, c);
    } else {
      AbandonKeeps(s, c, phase.instance);
      var t := s.(abandoned := s.abandoned + {phase.instance});
      if phase.restores {
        BeginKeeps(Ends(t, c), c, id, Failing);
        assert Begin(Ends(t, c), c, id, Failing) == Goes(t, c, Failing);
      }
    }
  }

  lemma InsertKeeps(s: State, c: CallId, i: nat)
    requires Inv(s) && c in s.calls && s.calls[c].phase == Recorded(i)
    ensures Inv(Ends(Insert(s, s.calls[c].id, i), c))
  {
    NotYetGone(s, c);
    var id := s.calls[c].id;
    if id in s.plugins { assert LiveOk(s, id); }
    var t := Ends(Insert(s, id, i), c);
    forall d <- t.calls ensures CallOk(t, d) { assert CallOk(s, d); }
    forall x <- t.plugins ensures LiveOk(t, x) { assert x != id ==> LiveOk(s, x); }
    forall j <- t.started ensures StartedOk(t, j) {
      assert StartedOk(s, j);
      if j != i && IsHeld(s, j) { HeldStays(s, t, j); }
    }
  }

  lemma RowThenEnds(s: State, c: CallId, row: Row)
    requires Inv(s) && c in s.calls && !s.calls[c].phase.Started? && !s.calls[c].phase.Recorded?
    ensures Inv(Ends(Put(s, s.calls[c].id, row), c)) && Inv(Ends(s, c))
  {
    PutKeeps(s, s.calls[c].id, row);
    EndsKeeps(Put(s, s.calls[c].id, row), c);
    EndsKeeps(s, c);
  }

  lemma ProceedKeeps(s: State, c: CallId, outcome: Outcome)
    requires Inv(s) && c in s.calls
    ensures Inv(Proceed(s, c, outcome))
  {
    var Call(id, phase) := s.calls[c];
    assert CallOk(s, c);
    match phase
    case Storing(config) =>
      var row := Plugins.Row(id.name, true, config, Plugins.Created);
      PutKeeps(s, id, row);
      BeginKeeps(Put(s, id, row), c, id, Starting(config, false));
      EndsKeeps(s, c);
    case Starting(_, _) => LaunchKeeps(s, c, outcome);
    case Started(_, _) => RecordKeeps(s, c, outcome);
    case Recorded(i) => InsertKeeps(s, c, i);
    case Failing => RowThenEnds(s, c, s.rows[id].(status := Plugins.Failed));
    case Disabling =>
      EndsKeeps(s, c);
      if id in s.rows { RowThenEnds(s, c, s.rows[id].(status := Plugins.Stopped, enabled := false)); }
    case Extending(config) => RowThenEnds(s, c, Plugins.Row(id.name, true, config, Plugins.Stopped));
  }

  lemma NextKeeps(s: State, step: Step)
    requires Inv(s)
    ensures Inv(Next(s, step))
  {
    if CanStep(s, step) {
      match step
      case BeginEnable(c, id, config) => TakeKeeps(s, id); BeginKeeps(Take(s, id), c, id, Storing(config));
      case BeginExtension(c, id, config) => TakeKeeps(s, id); BeginKeeps(Take(s, id), c, id, Extending(config));
      case BeginDisable(c, id) => TakeKeeps(s, id); BeginKeeps(Take(s, id), c, id, Disabling);
      case BeginRestore(c, id) => BeginKeeps(s, c, id, Starting(s.rows[id].config, true));
      case ShutDown(id) => TakeKeeps(s, id);
      case Advance(c, outcome) => ProceedKeeps(s, c, outcome);
    }
  }

  lemma {:induction false} RunKeeps(s: State, steps: seq<Step>)
    requires Inv(s)
    ensures Inv(Run(s, steps))
  {
    if steps != [] {
      RunKeeps(s, steps[..|steps| - 1]);
      NextKeeps(Run(s, steps[..|steps| - 1]), steps[|steps| - 1]);
    }
  }

  lemma ReachableInv(rows: map<Id, Row>, steps: seq<Step>)
    ensures Inv(Run(Initial(rows), steps))
  {
    RunKeeps(Initial(rows), steps);
  }

  function One(b: bool): nat { if b then 1 else 0 }

  /**
   In every interleaving, each started instance is in exactly one place: held by a call in flight,
   live, asked to stop, abandoned, or overwritten.
   */
  lemma Conservation(rows: map<Id, Row>, steps: seq<Step>, i: nat)
    ensures var s := Run(Initial(rows), steps);
            One(IsHeld(s, i)) + One(IsLive(s, i))
            + One(i in s.stopped) + One(i in s.abandoned) + One(i in s.overwritten)
            == One(i in s.started)
  {
    ReachableInv(rows, steps);
    var s := Run(Initial(rows), steps);
    if i in s.started { assert StartedOk(s, i); }
    if IsHeld(s, i) {
      var c :| c in s.calls && Holds(s.calls[c], i);
      NotYetGone(s, c);
    }
    if IsLive(s, i) {
      var id :| id in s.plugins && s.plugins[id] == i;
      assert LiveOk(s, id);
    }
  }

  // ---- When an instance is overwritten ----

  /** The step puts an instance of the plugin in the map. */
  predicate Inserts(s: State, step: Step, id: Id) {
    step.Advance? && step.call in s.calls && s.calls[step.call].id == id && s.calls[step.call].phase.Recorded?
  }

  /** The step removes the plugin's instance, if there is one. */
  predicate Takes(s: State, step: Step, id: Id) {
    CanStep(s, step) && !step.Advance? && !step.BeginRestore? && step.id == id
  }

  /** The state before a step of a run. */
  function Before(s: State, steps: seq<Step>, k: nat): State
    requires k <= |steps|
  {
    Run(s, steps[..k])
  }

  ghost predicate NotTaken(s: State, steps: seq<Step>, id: Id, from: nat) {
    forall m | from <= m < |steps| :: !Takes(Before(s, steps, m), steps[m], id)
  }

  /** The step puts an instance in the map, and none after it takes it out. */
  ghost predicate InsertedAt(s: State, steps: seq<Step>, id: Id, k: nat) {
    k < |steps| && Inserts(Before(s, steps, k), steps[k], id) && NotTaken(s, steps, id, k + 1)
  }

  lemma ProceedPlugins(s: State, c: CallId, outcome: Outcome)
    requires c in s.calls
    ensures var Call(id, phase) := s.calls[c]; var t := Proceed(s, c, outcome);
            && t.plugins == (if phase.Recorded? then s.plugins[id := phase.instance] else s.plugins)
            && t.overwritten == s.overwritten + (if phase.Recorded? && id in s.plugins then {s.plugins[id]} else {})
            && t.stopped == s.stopped
  {
    match s.calls[c].phase
    case Storing(_) =>
    case Starting(_, _) =>
    case Started(_, _) =>
    case Recorded(_) =>
    case Failing =>
    case Disabling =>
    case Extending(_) =>
  }

  lemma NextLive(s: State, step: Step, id: Id)
    ensures id in Next(s, step).plugins <==> Inserts(s, step, id) || (id in s.plugins && !Takes(s, step, id))
  {
    if step.Advance? && step.call in s.calls { ProceedPlugins(s, step.call, step.outcome); }
  }

  lemma NotTakenInit(s: State, steps: seq<Step>, id: Id, from: nat)
    requires steps != [] && from < |steps|
    ensures NotTaken(s, steps, id, from)
            <==> NotTaken(s, steps[..|steps| - 1], id, from)
                 && !Takes(Before(s, steps, |steps| - 1), steps[|steps| - 1], id)
  {
    var prev := steps[..|steps| - 1];
    forall k | 0 <= k < |prev| ensures prev[..k] == steps[..k] && prev[k] == steps[k] {}
  }

  ghost predicate WasInserted(s: State, steps: seq<Step>, id: Id) { exists k: nat :: InsertedAt(s, steps, id, k) }

  lemma InsertedInit(s: State, steps: seq<Step>, id: Id, k: nat)
    requires steps != [] && k < |steps| - 1
    ensures InsertedAt(s, steps, id, k) <==> InsertedAt(s, steps[..|steps| - 1], id, k)
                                             && !Takes(Before(s, steps, |steps| - 1), steps[|steps| - 1], id)
  {
    NotTakenInit(s, steps, id, k + 1);
    assert steps[..|steps| - 1][..k] == steps[..k];
  }

  lemma WasInsertedInit(s: State, steps: seq<Step>, id: Id)
    requires steps != []
    ensures var b, last := Before(s, steps, |steps| - 1), steps[|steps| - 1];
            WasInserted(s, steps, id)
            <==> Inserts(b, last, id) || (WasInserted(s, steps[..|steps| - 1], id) && !Takes(b, last, id))
  {
    var n := |steps| - 1;
    if WasInserted(s, steps, id) {
      var k: nat :| InsertedAt(s, steps, id, k);
      if k < n { InsertedInit(s, steps, id, k); }
    }
    if Inserts(Before(s, steps, n), steps[n], id) {
      assert InsertedAt(s, steps, id, n);
    } else if WasInserted(s, steps[..n], id) {
      var k: nat :| InsertedAt(s, steps[..n], id, k);
      InsertedInit(s, steps, id, k);
    }
  }

  /** A plugin is live exactly when an insertion, or the start, was not followed by a removal. */
  lemma {:induction false} LiveIff(s: State, steps: seq<Step>, id: Id)
    ensures id in Run(s, steps).plugins
            <==> WasInserted(s, steps, id) || (id in s.plugins && NotTaken(s, steps, id, 0))
  {
    if steps != [] {
      var n := |steps| - 1;
      LiveIff(s, steps[..n], id);
      NextLive(Run(s, steps[..n]), steps[n], id);
      WasInsertedInit(s, steps, id);
      NotTakenInit(s, steps, id, 0);
    }
  }

  /** A call that will put an instance in the map begins. */
  predicate BeginsInserter(s: State, step: Step) { CanStep(s, step) && (step.BeginEnable? || step.BeginRestore?) }

  lemma InsertOverwrites(t: State, c: CallId, outcome: Outcome)
    requires Inv(t) && c in t.calls && t.calls[c].phase.Recorded?
    ensures var u, id := Next(t, Advance(c, outcome)), t.calls[c].id;
            && (u.overwritten != t.overwritten <==> id in t.plugins)
            && (id in t.plugins ==> u.overwritten == t.overwritten + {t.plugins[id]} && t.plugins[id] !in u.stopped)
  {
    ProceedPlugins(t, c, outcome);
    if t.calls[c].id in t.plugins { assert LiveOk(t, t.calls[c].id); }
  }

  /**
   Putting its instance in the map, an enable or a restore overwrites one that is never stopped
   exactly when another call put one there since it began, and it was not taken out since; a
   restore also when one was live as it began.
   */
  lemma OverwritesIff(rows: map<Id, Row>, earlier: seq<Step>, begin: Step, between: seq<Step>, outcome: Outcome)
    requires BeginsInserter(Run(Initial(rows), earlier), begin)
    requires var t := Run(Next(Run(Initial(rows), earlier), begin), between);
             begin.call in t.calls && t.calls[begin.call].id == begin.id && t.calls[begin.call].phase.Recorded?
    ensures var b := Run(Initial(rows), earlier);
            var s := Next(b, begin);
            var t := Run(s, between);
            var u := Next(t, Advance(begin.call, outcome));
            && (u.overwritten != t.overwritten
                <==> WasInserted(s, between, begin.id)
                     || (begin.BeginRestore? && begin.id in b.plugins && NotTaken(s, between, begin.id, 0)))
            && (u.overwritten != t.overwritten ==>
                  begin.id in t.plugins && u.overwritten == t.overwritten + {t.plugins[begin.id]}
                  && t.plugins[begin.id] !in u.stopped)
  {
    var b := Run(Initial(rows), earlier);
    var s := Next(b, begin);
    var t := Run(s, between);
    ReachableInv(rows, earlier);
    NextKeeps(b, begin);
    RunKeeps(s, between);
    LiveIff(s, between, begin.id);
    InsertOverwrites(t, begin.call, outcome);
  }

  lemma NextOverwritten(s: State, step: Step)
    ensures s.overwritten <= Next(s, step).overwritten
  {
  }

  lemma {:induction false} OverwrittenStays(s: State, steps: seq<Step>, i: nat)
    requires i in s.overwritten
    ensures i in Run(s, steps).overwritten
  {
    if steps != [] {
      OverwrittenStays(s, steps[..|steps| - 1], i);
      NextOverwritten(Run(s, steps[..|steps| - 1]), steps[|steps| - 1]);
    }
  }

  /** What was overwritten is not live again and is never asked to stop. */
  lemma {:induction false} OverwrittenForever(rows: map<Id, Row>, steps: seq<Step>, more: seq<Step>, i: nat)
    requires i in Run(Initial(rows), steps).overwritten
    ensures var t := Run(Run(Initial(rows), steps), more); i in t.overwritten && i !in t.stopped && !IsLive(t, i)
  {
    var s := Run(Initial(rows), steps);
    ReachableInv(rows, steps);
    RunKeeps(s, more);
    OverwrittenStays(s, more, i);
    var t := Run(s, more);
    forall id <- t.plugins ensures t.plugins[id] != i { assert LiveOk(t, id); }
  }

  // ---- When a live plugin's row is disabled ----

  predicate IsDisabled(s: State, id: Id) { id in s.rows && !s.rows[id].enabled }

  /** The step is a disable's write. */
  predicate Disables(s: State, step: Step, id: Id) {
    && step.Advance? && step.outcome.Works? && step.call in s.calls
    && s.calls[step.call].id == id && s.calls[step.call].phase.Disabling? && id in s.rows
  }

  /** The step stores the row, enabled. */
  predicate Stores(s: State, step: Step, id: Id) {
    && step.Advance? && step.outcome.Works? && step.call in s.calls && s.calls[step.call].id == id
    && (s.calls[step.call].phase.Storing? || s.calls[step.call].phase.Extending?)
  }

  ghost predicate NotStored(s: State, steps: seq<Step>, id: Id, from: nat) {
    forall m | from <= m < |steps| :: !Stores(Before(s, steps, m), steps[m], id)
  }

  /** The step writes the row disabled, and none after it stores it again. */
  ghost predicate DisabledAt(s: State, steps: seq<Step>, id: Id, k: nat) {
    k < |steps| && Disables(Before(s, steps, k), steps[k], id) && NotStored(s, steps, id, k + 1)
  }

  lemma NextDisabled(s: State, step: Step, id: Id)
    ensures IsDisabled(Next(s, step), id) <==> Disables(s, step, id) || (IsDisabled(s, id) && !Stores(s, step, id))
  {
  }

  lemma NotStoredInit(s: State, steps: seq<Step>, id: Id, from: nat)
    requires steps != [] && from < |steps|
    ensures NotStored(s, steps, id, from)
            <==> NotStored(s, steps[..|steps| - 1], id, from)
                 && !Stores(Before(s, steps, |steps| - 1), steps[|steps| - 1], id)
  {
    var prev := steps[..|steps| - 1];
    forall k | 0 <= k < |prev| ensures prev[..k] == steps[..k] && prev[k] == steps[k] {}
  }

  ghost predicate WasDisabled(s: State, steps: seq<Step>, id: Id) { exists k: nat :: DisabledAt(s, steps, id, k) }

  lemma DisabledInit(s: State, steps: seq<Step>, id: Id, k: nat)
    requires steps != [] && k < |steps| - 1
    ensures DisabledAt(s, steps, id, k) <==> DisabledAt(s, steps[..|steps| - 1], id, k)
                                             && !Stores(Before(s, steps, |steps| - 1), steps[|steps| - 1], id)
  {
    NotStoredInit(s, steps, id, k + 1);
    assert steps[..|steps| - 1][..k] == steps[..k];
  }

  lemma WasDisabledInit(s: State, steps: seq<Step>, id: Id)
    requires steps != []
    ensures var b, last := Before(s, steps, |steps| - 1), steps[|steps| - 1];
            WasDisabled(s, steps, id)
            <==> Disables(b, last, id) || (WasDisabled(s, steps[..|steps| - 1], id) && !Stores(b, last, id))
  {
    var n := |steps| - 1;
    if WasDisabled(s, steps, id) {
      var k: nat :| DisabledAt(s, steps, id, k);
      if k < n { DisabledInit(s, steps, id, k); }
    }
    if Disables(Before(s, steps, n), steps[n], id) {
      assert DisabledAt(s, steps, id, n);
    } else if WasDisabled(s, steps[..n], id) {
      var k: nat :| DisabledAt(s, steps[..n], id, k);
      DisabledInit(s, steps, id, k);
    }
  }

  lemma {:induction false} DisabledIff(s: State, steps: seq<Step>, id: Id)
    ensures IsDisabled(Run(s, steps), id)
            <==> WasDisabled(s, steps, id) || (IsDisabled(s, id) && NotStored(s, steps, id, 0))
  {
    if steps != [] {
      var n := |steps| - 1;
      DisabledIff(s, steps[..n], id);
      NextDisabled(Run(s, steps[..n]), steps[n], id);
      WasDisabledInit(s, steps, id);
      NotStoredInit(s, steps, id, 0);
    }
  }

  lemma BeforeInit(s: State, steps: seq<Step>, k: nat)
    requires steps != [] && k < |steps|
    ensures Before(s, steps[..|steps| - 1], k) == Before(s, steps, k)
  {
    assert steps[..|steps| - 1][..k] == steps[..k];
  }

  lemma BeforeNext(s: State, steps: seq<Step>, m: nat)
    requires 0 < m <= |steps|
    ensures Before(s, steps, m) == Next(Before(s, steps, m - 1), steps[m - 1])
  {
    assert steps[..m][..m - 1] == steps[..m - 1];
  }

  /** The call is past the storing or reading of its row, and will put an instance in the map if all goes well. */
  predicate IsUp(s: State, c: CallId, id: Id) {
    c in s.calls && s.calls[c].id == id && var p := s.calls[c].phase; p.Starting? || p.Started? || p.Recorded?
  }

  predicate IsDisabling(s: State, c: CallId, id: Id) { c in s.calls && s.calls[c] == Call(id, Disabling) }

  lemma WasUp(s: State, step: Step, c: CallId, id: Id)
    requires IsUp(Next(s, step), c, id) && !Stores(s, step, id) && !(step.BeginRestore? && IsRestored(s, id))
    ensures IsUp(s, c, id)
  {
  }

  lemma WasDisabling(s: State, step: Step, c: CallId, id: Id)
    requires IsDisabling(Next(s, step), c, id) && !Takes(s, step, id)
    ensures IsDisabling(s, c, id)
  {
  }

  lemma {:induction false} DisabledLasts(s: State, steps: seq<Step>, id: Id, from: nat, m: nat)
    requires from <= m <= |steps| && IsDisabled(Before(s, steps, from), id) && NotStored(s, steps, id, from)
    ensures IsDisabled(Before(s, steps, m), id)
    decreases m
  {
    if from < m {
      DisabledLasts(s, steps, id, from, m - 1);
      BeforeNext(s, steps, m);
      NextDisabled(Before(s, steps, m - 1), steps[m - 1], id);
    }
  }

  /** While a row stays disabled, no call comes to bring its plugin up. */
  lemma {:induction false} UpLasts(s: State, steps: seq<Step>, id: Id, c: CallId, from: nat, m: nat)
    requires from <= m <= |steps| && IsDisabled(Before(s, steps, from), id) && NotStored(s, steps, id, from)
    requires IsUp(Before(s, steps, m), c, id)
    ensures IsUp(Before(s, steps, from), c, id)
    decreases m
  {
    if from < m {
      DisabledLasts(s, steps, id, from, m - 1);
      BeforeNext(s, steps, m);
      WasUp(Before(s, steps, m - 1), steps[m - 1], c, id);
      UpLasts(s, steps, id, c, from, m - 1);
    }
  }

  lemma {:induction false} DisablingLasts(s: State, steps: seq<Step>, id: Id, d: CallId, from: nat, m: nat)
    requires from <= m <= |steps| && NotTaken(s, steps, id, from) && IsDisabling(Before(s, steps, m), d, id)
    ensures IsDisabling(Before(s, steps, from), d, id)
    decreases m
  {
    if from < m {
      BeforeNext(s, steps, m);
      WasDisabling(Before(s, steps, m - 1), steps[m - 1], d, id);
      DisablingLasts(s, steps, id, d, from, m - 1);
    }
  }

  /** Where nothing stored a row that was disabled from the start, nothing put its plugin in the map. */
  lemma NeverStored(rows: map<Id, Row>, steps: seq<Step>, id: Id)
    requires IsDisabled(Initial(rows), id) && NotStored(Initial(rows), steps, id, 0)
    ensures !WasInserted(Initial(rows), steps, id)
  {
    if WasInserted(Initial(rows), steps, id) {
      var k: nat :| InsertedAt(Initial(rows), steps, id, k);
      UpLasts(Initial(rows), steps, id, steps[k].call, 0, k);
      assert false;
    }
  }

  /** Both calls are in flight, one that brings the plugin up and one that disables it. */
  predicate Overlap(s: State, c: CallId, d: CallId, id: Id) { IsUp(s, c, id) && IsDisabling(s, d, id) }

  lemma CallsOverlap(s: State, steps: seq<Step>, id: Id, j: nat, k: nat)
    requires InsertedAt(s, steps, id, j) && DisabledAt(s, steps, id, k)
    ensures Overlap(Before(s, steps, if j < k then j else k), steps[j].call, steps[k].call, id)
  {
    if j < k {
      assert NotTaken(s, steps, id, j);
      DisablingLasts(s, steps, id, steps[k].call, j, k);
    } else {
      assert j != k;
      BeforeNext(s, steps, k + 1);
      NextDisabled(Before(s, steps, k), steps[k], id);
      UpLasts(s, steps, id, steps[j].call, k + 1, j);
      WasUp(Before(s, steps, k), steps[k], steps[j].call, id);
    }
  }

  /**
   A live plugin's row is disabled exactly when an insertion was not followed by a removal, nor a
   disable's write by a storing of the row. The two calls were then in flight together.
   */
  lemma LiveYetDisabledIff(rows: map<Id, Row>, steps: seq<Step>, id: Id)
    ensures var s := Initial(rows);
            var t := Run(s, steps);
            && (id in t.plugins && IsDisabled(t, id) <==> WasInserted(s, steps, id) && WasDisabled(s, steps, id))
            && (forall j: nat, k: nat | InsertedAt(s, steps, id, j) && DisabledAt(s, steps, id, k) ::
                  Overlap(Before(s, steps, if j < k then j else k), steps[j].call, steps[k].call, id))
  {
    var s := Initial(rows);
    LiveIff(s, steps, id);
    DisabledIff(s, steps, id);
    if IsDisabled(s, id) && NotStored(s, steps, id, 0) { NeverStored(rows, steps, id); }
    forall j: nat, k: nat | InsertedAt(s, steps, id, j) && DisabledAt(s, steps, id, k)
      ensures Overlap(Before(s, steps, if j < k then j else k), steps[j].call, steps[k].call, id)
    {
      CallsOverlap(s, steps, id, j, k);
    }
  }
}
