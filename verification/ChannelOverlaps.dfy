/** Calls of the channel manager that do not overlap, or that nothing interrupts, and two runs that do. */
module ChannelOverlaps {
  import opened ChannelRaces
  import opened Wrappers
  import Plugins = ChannelPlugins

  // ---- Calls of one plugin that do not overlap ----

  ghost predicate IsIdle(s: State, id: Id) { forall c <- s.calls :: s.calls[c].id != id }

  /** A call begins when no other of its plugin is in flight, and a restore when the plugin is not live. */
  ghost predicate IsAlone(s: State, step: Step) {
    step.Advance? || step.ShutDown? || (IsIdle(s, step.id) && (step.BeginRestore? ==> step.id !in s.plugins))
  }

  ghost predicate AllAlone(s: State, steps: seq<Step>) {
    forall m | 0 <= m < |steps| :: IsAlone(Before(s, steps, m), steps[m])
  }

  /** The instance was started from the row, which is enabled. */
  predicate FromRow(s: State, id: Id, i: nat) {
    IsRestored(s, id) && i in s.started && s.started[i] == Plugins.Start(id, s.rows[id].config)
  }

  predicate Agrees(s: State, id: Id)
    requires id in s.plugins
  {
    FromRow(s, id, s.plugins[id]) && s.rows[id].status == Plugins.Running
  }

  /** Only the call knows of its plugin, and the row is the one that it stored or read. */
  ghost predicate AloneOk(s: State, c: CallId)
    requires c in s.calls
  {
    var Call(id, phase) := s.calls[c];
    && id !in s.plugins && (forall d <- s.calls :: d != c ==> s.calls[d].id != id)
    && (phase.Storing? ==> id.name in Plugins.BUILT_IN)
    && (phase.Starting? ==> IsRestored(s, id) && s.rows[id].config == phase.config)
    && (phase.Started? || phase.Recorded? ==> FromRow(s, id, phase.instance))
    && (phase.Recorded? ==> s.rows[id].status == Plugins.Running)
  }

  ghost predicate AloneInv(s: State) {
    && Inv(s) && s.overwritten == {}
    && (forall id <- s.plugins :: Agrees(s, id)) && (forall c <- s.calls :: AloneOk(s, c))
  }

  /** What a step of the call leaves: the other plugins as they were. */
  lemma ProceedElsewhere(s: State, c: CallId, outcome: Outcome, x: Id)
    requires Inv(s) && c in s.calls && x != s.calls[c].id
    ensures var t := Proceed(s, c, outcome);
            && (x in t.plugins <==> x in s.plugins) && (x in s.plugins ==> t.plugins[x] == s.plugins[x])
            && (x in t.rows <==> x in s.rows) && (x in s.rows ==> t.rows[x] == s.rows[x])
  {
    ProceedPlugins(s, c, outcome);
    match s.calls[c].phase
    case Storing(_) =>
    case Starting(_, _) =>
    case Started(_, _) =>
    case Recorded(_) =>
    case Failing =>
    case Disabling =>
    case Extending(_) =>
  }

  lemma ProceedStarted(s: State, c: CallId, outcome: Outcome, i: nat)
    requires Inv(s) && c in s.calls && i in s.started
    ensures var t := Proceed(s, c, outcome); i in t.started && t.started[i] == s.started[i]
  {
    forall j <- s.started ensures j < s.next { assert StartedOk(s, j); }
  }

  lemma ProceedCalls(s: State, c: CallId, outcome: Outcome)
    requires c in s.calls
    ensures var t := Proceed(s, c, outcome);
            && (forall d | d != c :: (d in t.calls <==> d in s.calls) && (d in s.calls ==> t.calls[d] == s.calls[d]))
            && (c in t.calls ==> t.calls[c].id == s.calls[c].id)
  {
    match s.calls[c].phase
    case Storing(_) =>
    case Starting(_, _) =>
    case Started(_, _) =>
    case Recorded(_) =>
    case Failing =>
    case Disabling =>
    case Extending(_) =>
  }

  lemma ProceedOwn(s: State, c: CallId, outcome: Outcome)
    requires AloneInv(s) && c in s.calls
    ensures var t := Proceed(s, c, outcome);
            var id := s.calls[c].id;
            && (id in t.plugins ==> Agrees(t, id) && c !in t.calls) && t.overwritten == {}
            && (c in t.calls ==>
                  var phase := t.calls[c].phase;
                  && !phase.Storing? && (phase.Starting? ==> IsRestored(t, id) && t.rows[id].config == phase.config)
                  && (phase.Started? || phase.Recorded? ==> FromRow(t, id, phase.instance))
                  && (phase.Recorded? ==> t.rows[id].status == Plugins.Running))
  {
    assert AloneOk(s, c);
    match s.calls[c].phase
    case Storing(_) =>
    case Starting(_, _) =>
    case Started(_, _) =>
    case Recorded(_) =>
    case Failing =>
    case Disabling =>
    case Extending(_) =>
  }

  lemma ElsewhereAlone(s: State, c: CallId, outcome: Outcome, d: CallId)
    requires AloneInv(s) && c in s.calls && d in s.calls && d != c
    ensures d in Proceed(s, c, outcome).calls && AloneOk(Proceed(s, c, outcome), d)
  {
    assert AloneOk(s, d);
    ProceedCalls(s, c, outcome);
    ProceedElsewhere(s, c, outcome, s.calls[d].id);
    var phase := s.calls[d].phase;
    if phase.Started? || phase.Recorded? { ProceedStarted(s, c, outcome, phase.instance); }
  }

  lemma ProceedAlone(s: State, c: CallId, outcome: Outcome)
    requires AloneInv(s) && c in s.calls
    ensures AloneInv(Proceed(s, c, outcome))
  {
    var t := Proceed(s, c, outcome);
    ProceedKeeps(s, c, outcome);
    ProceedCalls(s, c, outcome);
    ProceedOwn(s, c, outcome);
    assert AloneOk(s, c);
    forall x <- t.plugins ensures Agrees(t, x) {
      if x != s.calls[c].id {
        ProceedElsewhere(s, c, outcome, x);
        assert Agrees(s, x);
        ProceedStarted(s, c, outcome, s.plugins[x]);
      }
    }
    forall d <- t.calls ensures AloneOk(t, d) {
      if d != c { ElsewhereAlone(s, c, outcome, d); }
    }
  }

  lemma TakeAlone(s: State, id: Id)
    requires AloneInv(s)
    ensures AloneInv(Take(s, id))
  {
    TakeKeeps(s, id);
    var t := Take(s, id);
    forall x <- t.plugins ensures Agrees(t, x) { assert Agrees(s, x); }
    forall c <- t.calls ensures AloneOk(t, c) { assert AloneOk(s, c); }
  }

  lemma BeginAlone(s: State, c: CallId, id: Id, phase: Phase)
    requires AloneInv(s) && c !in s.calls && IsIdle(s, id) && id !in s.plugins
    requires !phase.Started? && !phase.Recorded? && !phase.Failing?
    requires phase.Storing? ==> id.name in Plugins.BUILT_IN
    requires phase.Starting? ==> IsRestored(s, id) && s.rows[id].config == phase.config
    ensures AloneInv(Begin(s, c, id, phase))
  {
    BeginKeeps(s, c, id, phase);
    var t := Begin(s, c, id, phase);
    forall x <- t.plugins ensures Agrees(t, x) { assert Agrees(s, x); }
    forall d <- t.calls ensures AloneOk(t, d) {
      if d != c { assert AloneOk(s, d); }
    }
  }

  lemma NextAlone(s: State, step: Step)
    requires AloneInv(s) && IsAlone(s, step)
    ensures AloneInv(Next(s, step))
  {
    if CanStep(s, step) {
      match step
      case BeginEnable(c, id, config) => TakeAlone(s, id); BeginAlone(Take(s, id), c, id, Storing(config));
      case BeginExtension(c, id, config) => TakeAlone(s, id); BeginAlone(Take(s, id), c, id, Extending(config));
      case BeginDisable(c, id) => TakeAlone(s, id); BeginAlone(Take(s, id), c, id, Disabling);
      case BeginRestore(c, id) => BeginAlone(s, c, id, Starting(s.rows[id].config, true));
      case ShutDown(id) => TakeAlone(s, id);
      case Advance(c, outcome) => ProceedAlone(s, c, outcome);
    }
  }

  /**
   Where the calls of one plugin do not overlap, whatever the calls of others and shutdowns do,
   nothing is overwritten, and every live instance was started from its row, which is enabled and
   running.
   */
  lemma {:induction false} AloneAgrees(rows: map<Id, Row>, steps: seq<Step>)
    requires AllAlone(Initial(rows), steps)
    ensures var t := Run(Initial(rows), steps); AloneInv(t)
    ensures var t := Run(Initial(rows), steps); t.overwritten == {} && forall id <- t.plugins :: Agrees(t, id)
  {
    if steps != [] {
      var n := |steps| - 1;
      forall m | 0 <= m < n ensures IsAlone(Before(Initial(rows), steps[..n], m), steps[..n][m]) {
        BeforeInit(Initial(rows), steps, m);
        assert IsAlone(Before(Initial(rows), steps, m), steps[m]);
      }
      AloneAgrees(rows, steps[..n]);
      NextAlone(Before(Initial(rows), steps, n), steps[n]);
    }
  }

  // ---- Calls that nothing interrupts ----

  /** A manager between calls. */
  function Idle(p: Plugins.State): State {
    State(p.plugins, p.rows, map[], p.next, p.started, p.stopped, p.abandoned, {})
  }

  function Ending(works: bool): Outcome { if works then Works else Fails }

  function LaunchEnding(luck: Plugins.Luck): Outcome {
    if !luck.made then Unmade else Ending(luck.initializes && luck.starts)
  }

  /** The update of the status, to running or, after a failure, to an error. */
  function UpdateEnding(luck: Plugins.Luck): Outcome {
    Ending(if LaunchEnding(luck).Works? then luck.recorded else luck.errorRecorded)
  }

  lemma FiveSteps(s: State, a: Step, b: Step, c: Step, d: Step, e: Step)
    ensures Run(s, [a, b]) == Next(Next(s, a), b) && Run(s, [a, b, c]) == Next(Next(Next(s, a), b), c)
    ensures Run(s, [a, b, c, d]) == Next(Next(Next(Next(s, a), b), c), d)
    ensures Run(s, [a, b, c, d, e]) == Next(Next(Next(Next(Next(s, a), b), c), d), e)
  {
    assert [a, b, c, d, e][..4] == [a, b, c, d] && [a, b, c, d][..3] == [a, b, c] && [a, b, c][..2] == [a, b];
    assert [a, b][..1] == [a] && [a][..0] == [];
    assert Run(s, [a]) == Next(Run(s, []), a);
    assert Run(s, [a, b]) == Next(Run(s, [a]), b);
    assert Run(s, [a, b, c]) == Next(Run(s, [a, b]), c);
    assert Run(s, [a, b, c, d]) == Next(Run(s, [a, b, c]), d);
  }

  /** One call in flight. */
  function With(p: Plugins.State, c: CallId, id: Id, phase: Phase): State {
    Idle(p).(calls := map[c := Call(id, phase)])
  }

  /** The status that a call writes as it fails, if it does. */
  function AfterLaunch(q: Plugins.State, e: Option<Plugins.Error>, id: Id, restores: bool, luck: Plugins.Luck)
    : Plugins.State
  {
    if e == Some(Plugins.PluginFailed) || (restores && e.Some?)
    then Plugins.WriteStatus(q, id, Plugins.Failed, luck.errorRecorded) else q
  }

  lemma RecordIsARun(p: Plugins.State, c: CallId, id: Id, i: nat, restores: bool, luck: Plugins.Luck)
    requires id in p.rows && id !in p.plugins
    ensures Next(Next(With(p, c, id, Started(i, restores)), Advance(c, Ending(luck.recorded))),
                 Advance(c, Ending(luck.errorRecorded)))
            == Idle(if luck.recorded
                    then Plugins.WriteStatus(p, id, Plugins.Running, true).(plugins := p.plugins[id := i])
                    else AfterLaunch(p.(abandoned := p.abandoned + {i}), Some(Plugins.Database), id, restores, luck))
  {
    var s := With(p, c, id, Started(i, restores));
    var t := Next(s, Advance(c, Ending(luck.recorded)));
    if luck.recorded {
      assert t == With(Plugins.WriteStatus(p, id, Plugins.Running, true), c, id, Recorded(i));
    } else if restores {
      assert t == With(p.(abandoned := p.abandoned + {i}), c, id, Failing);
    } else {
      assert t == Idle(p.(abandoned := p.abandoned + {i}));
    }
  }

  lemma FailIsARun(p: Plugins.State, c: CallId, id: Id, works: bool, last: Outcome)
    ensures Next(Next(With(p, c, id, Failing), Advance(c, Ending(works))), Advance(c, last))
            == Idle(Plugins.WriteStatus(p, id, Plugins.Failed, works))
  {
    assert Next(With(p, c, id, Failing), Advance(c, Ending(works)))
           == Idle(Plugins.WriteStatus(p, id, Plugins.Failed, works));
  }

  lemma LaunchStep(p: Plugins.State, c: CallId, id: Id, config: string, restores: bool, outcome: Outcome)
    ensures var t := Next(With(p, c, id, Starting(config, restores)), Advance(c, outcome));
            && (outcome.Works? ==>
                  t == With(p.(next := p.next + 1, started := p.started[p.next := Plugins.Start(id, config)]), c, id,
                            Started(p.next, restores)))
            && (outcome.Fails? ==> t == With(p.(next := p.next + 1), c, id, Failing))
            && (outcome.Unmade? ==> t == if restores then With(p, c, id, Failing) else Idle(p))
  {
  }

  lemma LaunchIsARun(p: Plugins.State, c: CallId, id: Id, config: string, restores: bool, luck: Plugins.Luck)
    requires id in p.rows && id !in p.plugins
    ensures var s := With(p, c, id, Starting(config, restores));
            var (q, e) := Plugins.Launch(p, id, config, luck);
            Next(Next(Next(s, Advance(c, LaunchEnding(luck))), Advance(c, UpdateEnding(luck))),
                 Advance(c, Ending(luck.errorRecorded)))
            == Idle(AfterLaunch(q, e, id, restores, luck))
  {
    LaunchStep(p, c, id, config, restores, LaunchEnding(luck));
    match LaunchEnding(luck)
    case Works =>
      var q := p.(next := p.next + 1, started := p.started[p.next := Plugins.Start(id, config)]);
      RecordIsARun(q, c, id, p.next, restores, luck);
    case Fails => FailIsARun(p.(next := p.next + 1), c, id, luck.errorRecorded, Ending(luck.errorRecorded));
    case Unmade => if restores { FailIsARun(p, c, id, luck.errorRecorded, Ending(luck.errorRecorded)); }
  }

  function EnableSteps(c: CallId, id: Id, config: string, stored: bool, luck: Plugins.Luck): seq<Step> {
    [BeginEnable(c, id, config), Advance(c, Ending(stored)), Advance(c, LaunchEnding(luck)),
     Advance(c, UpdateEnding(luck)), Advance(c, Ending(luck.errorRecorded))]
  }

  /** Where a call that has ended goes on, nothing happens. */
  lemma EndedStays(p: Plugins.State, c: CallId, a: Outcome, b: Outcome, d: Outcome)
    ensures Next(Next(Next(Idle(p), Advance(c, a)), Advance(c, b)), Advance(c, d)) == Idle(p)
  {
  }

  lemma StoreStep(p: Plugins.State, c: CallId, id: Id, config: string, works: bool)
    ensures Next(Idle(p), BeginEnable(c, id, config))
            == if id.name in Plugins.BUILT_IN then With(Plugins.Stop(p, id), c, id, Storing(config)) else Idle(p)
    ensures Next(With(p, c, id, Storing(config)), Advance(c, Ending(works)))
            == if works then With(p.(rows := p.rows[id := Plugins.Row(id.name, true, config, Plugins.Created)]), c, id,
                                  Starting(config, false))
               else Idle(p)
  {
  }

  /** An enable that nothing interrupts is the whole operation. */
  lemma EnableIsARun(p: Plugins.State, c: CallId, id: Id, config: string, encrypts: bool, stored: bool,
                     luck: Plugins.Luck)
    requires id.name in Plugins.BUILT_IN
    ensures Run(Idle(p), EnableSteps(c, id, config, encrypts && stored, luck))
            == Idle(Plugins.Enable(p, id, Some(config), encrypts, stored, luck).0)
  {
    FiveSteps(Idle(p), BeginEnable(c, id, config), Advance(c, Ending(encrypts && stored)),
              Advance(c, LaunchEnding(luck)), Advance(c, UpdateEnding(luck)),
              Advance(c, Ending(luck.errorRecorded)));
    var q := Plugins.Stop(p, id);
    StoreStep(p, c, id, config, true);
    StoreStep(q, c, id, config, encrypts && stored);
    if encrypts && stored {
      var r := q.(rows := q.rows[id := Plugins.Row(id.name, true, config, Plugins.Created)]);
      LaunchIsARun(r, c, id, config, false, luck);
    } else {
      EndedStays(q, c, LaunchEnding(luck), UpdateEnding(luck), Ending(luck.errorRecorded));
    }
  }

  /** So is a restore of one row, with no instance of its plugin live. */
  lemma RestoreIsARun(p: Plugins.State, c: CallId, id: Id, luck: Plugins.Luck)
    requires IsRestored(Idle(p), id) && id !in p.plugins
    ensures var all := luck.(made := luck.decrypts && luck.made);
            Run(Idle(p),
                [BeginRestore(c, id), Advance(c, LaunchEnding(all)), Advance(c, UpdateEnding(all)),
                 Advance(c, Ending(luck.errorRecorded))])
            == Idle(Plugins.RestoreRow(p, id, p.rows[id], luck))
  {
    var all := luck.(made := luck.decrypts && luck.made);
    FiveSteps(Idle(p), BeginRestore(c, id), Advance(c, LaunchEnding(all)), Advance(c, UpdateEnding(all)),
              Advance(c, Ending(luck.errorRecorded)), ShutDown(id));
    LaunchIsARun(p, c, id, p.rows[id].config, true, all);
    assert Next(Idle(p), BeginRestore(c, id)) == With(p, c, id, Starting(p.rows[id].config, true));
  }

  /** And an extension's enable. */
  lemma ExtensionIsARun(p: Plugins.State, c: CallId, id: Id, config: string, encrypts: bool, works: bool)
    ensures Run(Idle(p), [BeginExtension(c, id, config), Advance(c, Ending(encrypts && works))])
            == Idle(Plugins.EnableExtension(p, id, config, encrypts, works).0)
  {
    var any := ShutDown(id);
    FiveSteps(Idle(p), BeginExtension(c, id, config), Advance(c, Ending(encrypts && works)), any, any, any);
    assert Next(Idle(p), BeginExtension(c, id, config)) == With(Plugins.Stop(p, id), c, id, Extending(config));
  }

  lemma DisableStep(p: Plugins.State, c: CallId, id: Id, works: bool)
    ensures Next(Idle(p), BeginDisable(c, id)) == With(Plugins.Stop(p, id), c, id, Disabling)
    ensures Next(With(p, c, id, Disabling), Advance(c, Ending(works)))
            == Idle(if Plugins.CanWrite(p, id, works)
                    then p.(rows := p.rows[id := p.rows[id].(status := Plugins.Stopped, enabled := false)]) else p)
  {
  }

  /** And a disable. */
  lemma DisableIsARun(p: Plugins.State, c: CallId, id: Id, works: bool)
    ensures Run(Idle(p), [BeginDisable(c, id), Advance(c, Ending(works))]) == Idle(Plugins.Disable(p, id, works).0)
  {
    var any := ShutDown(id);
    FiveSteps(Idle(p), BeginDisable(c, id), Advance(c, Ending(works)), any, any, any);
    DisableStep(p, c, id, works);
    DisableStep(Plugins.Stop(p, id), c, id, works);
  }

  lemma {:induction false} RunJoins(s: State, a: seq<Step>, b: seq<Step>)
    ensures Run(s, a + b) == Run(Run(s, a), b)
  {
    if b == [] {
      assert a + b == a;
    } else {
      var n := |b| - 1;
      assert (a + b)[..|a + b| - 1] == a + b[..n];
      RunJoins(s, a, b[..n]);
    }
  }

  function ShutDowns(ids: seq<Id>): seq<Step> { seq(|ids|, i requires 0 <= i < |ids| => ShutDown(ids[i])) }

  lemma StopThenAll(p: Plugins.State, id: Id)
    ensures Plugins.Shutdown(Plugins.Stop(p, id)) == Plugins.Shutdown(p)
    ensures Run(Idle(p), [ShutDown(id)]) == Idle(Plugins.Stop(p, id))
  {
    if id in p.plugins {
      forall i <- p.plugins.Values ensures i in (p.plugins - {id}).Values + {p.plugins[id]} {
        var x :| x in p.plugins && p.plugins[x] == i;
        if x != id { assert (p.plugins - {id})[x] == i; }
      }
      assert p.plugins.Values == (p.plugins - {id}).Values + {p.plugins[id]};
    }
    assert [ShutDown(id)][..0] == [] && Run(Idle(p), [ShutDown(id)]) == Next(Run(Idle(p), []), ShutDown(id));
  }

  /** And a shutdown, in whatever order it takes the plugins. */
  lemma {:induction false} ShutdownIsARun(p: Plugins.State, ids: seq<Id>)
    requires forall id <- p.plugins :: id in ids
    ensures Run(Idle(p), ShutDowns(ids)) == Idle(Plugins.Shutdown(p))
    decreases |ids|
  {
    if ids == [] {
      assert p.plugins == map[];
    } else {
      StopThenAll(p, ids[0]);
      ShutdownIsARun(Plugins.Stop(p, ids[0]), ids[1..]);
      RunJoins(Idle(p), [ShutDown(ids[0])], ShutDowns(ids[1..]));
      assert ShutDowns(ids) == [ShutDown(ids[0])] + ShutDowns(ids[1..]);
    }
  }

  // ---- Two runs ----

  /** From the instance's start on. */
  lemma ComesUp(s: State, c: CallId, id: Id, config: string)
    requires c in s.calls && s.calls[c] == Call(id, Starting(config, false)) && id in s.rows
    ensures var a := Advance(c, Works);
            var t := Next(Next(Next(s, a), a), a);
            && t.plugins == s.plugins[id := s.next] && t.next == s.next + 1 && t.calls == s.calls - {c}
            && t.rows == s.rows[id := s.rows[id].(status := Plugins.Running)]
            && t.overwritten == s.overwritten + (if id in s.plugins then {s.plugins[id]} else {})
            && t.stopped == s.stopped && t.started == s.started[s.next := Plugins.Start(id, config)]
  {
    var a := Advance(c, Works);
    var t := Next(s, a);
    assert t == Goes(s.(next := s.next + 1, started := s.started[s.next := Plugins.Start(id, config)]), c,
                     Started(s.next, false));
    var u := Next(t, a);
    assert u == Goes(Status(t, id, Plugins.Running), c, Recorded(s.next));
    assert u.calls - {c} == s.calls - {c};
  }

  function BringUp(c: CallId): seq<Step> {
    [Advance(c, Works), Advance(c, Works), Advance(c, Works), Advance(c, Works)]
  }

  lemma BringsUp(s: State, c: CallId, id: Id, config: string)
    requires c in s.calls && s.calls[c] == Call(id, Storing(config))
    ensures var t := Run(s, BringUp(c));
            && t.plugins == s.plugins[id := s.next] && t.next == s.next + 1 && t.calls == s.calls - {c}
            && t.overwritten == s.overwritten + (if id in s.plugins then {s.plugins[id]} else {})
            && t.stopped == s.stopped && t.started == s.started[s.next := Plugins.Start(id, config)]
  {
    var a := Advance(c, Works);
    FiveSteps(s, a, a, a, a, a);
    var t := Goes(Put(s, id, Plugins.Row(id.name, true, config, Plugins.Created)), c, Starting(config, false));
    assert Next(s, a) == t && t.calls - {c} == s.calls - {c};
    ComesUp(t, c, id, config);
  }

  /** Two enables of one plugin: both bring it up, and the first instance is never stopped. */
  lemma OverlappingEnables(id: Id, first: string, second: string)
    requires id.name in Plugins.BUILT_IN
    ensures var a, b := CallId(0), CallId(1);
            var t := Run(Initial(map[]), [BeginEnable(a, id, first), BeginEnable(b, id, second)]
                                       + BringUp(a) + BringUp(b));
            && t.calls == map[] && t.plugins == map[id := 1] && t.overwritten == {0} && t.stopped == {}
            && 0 in t.started && t.started[0] == Plugins.Start(id, first)
  {
    var a, b, s := CallId(0), CallId(1), Initial(map[]);
    var begin := [BeginEnable(a, id, first), BeginEnable(b, id, second)];
    FiveSteps(s, begin[0], begin[1], begin[0], begin[0], begin[0]);
    RunJoins(s, begin + BringUp(a), BringUp(b));
    RunJoins(s, begin, BringUp(a));
    var u := Run(s, begin);
    assert u.calls == map[a := Call(id, Storing(first)), b := Call(id, Storing(second))];
    BringsUp(u, a, id, first);
    BringsUp(Run(u, BringUp(a)), b, id, second);
  }

  function HalfDisabled(id: Id, config: string): seq<Step> {
    var a, b := CallId(0), CallId(1);
    [BeginEnable(a, id, config), Advance(a, Works), BeginDisable(b, id), Advance(b, Works)]
  }

  lemma OneStored(id: Id, config: string)
    requires id.name in Plugins.BUILT_IN
    ensures Next(Next(Initial(map[]), BeginEnable(CallId(0), id, config)), Advance(CallId(0), Works))
            == Initial(map[id := Plugins.Row(id.name, true, config, Plugins.Created)])
               .(calls := map[CallId(0) := Call(id, Starting(config, false))])
  {
  }

  lemma DisableWrites(s: State, c: CallId, id: Id)
    requires c !in s.calls && id !in s.plugins && id in s.rows
    ensures Next(Next(s, BeginDisable(c, id)), Advance(c, Works))
            == Put(s, id, s.rows[id].(status := Plugins.Stopped, enabled := false))
  {
    var t := Begin(s, c, id, Disabling);
    assert Next(s, BeginDisable(c, id)) == t && t.calls - {c} == s.calls;
  }

  lemma HalfDisables(id: Id, config: string)
    requires id.name in Plugins.BUILT_IN
    ensures Run(Initial(map[]), HalfDisabled(id, config))
            == Initial(map[id := Plugins.Row(id.name, false, config, Plugins.Stopped)])
               .(calls := map[CallId(0) := Call(id, Starting(config, false))])
  {
    var a, b, s := CallId(0), CallId(1), Initial(map[]);
    var any := ShutDown(id);
    FiveSteps(s, BeginEnable(a, id, config), Advance(a, Works), BeginDisable(b, id), Advance(b, Works), any);
    OneStored(id, config);
    DisableWrites(Next(Next(s, BeginEnable(a, id, config)), Advance(a, Works)), b, id);
  }

  /** A disable while an enable of the plugin is starting it: it stays live, and its row is disabled. */
  lemma DisableDuringEnable(id: Id, config: string)
    requires id.name in Plugins.BUILT_IN
    ensures var works := Advance(CallId(0), Works);
            var t := Run(Initial(map[]), HalfDisabled(id, config) + [works, works, works]);
            && t.calls == map[] && t.plugins == map[id := 0] && t.stopped == {}
            && t.rows == map[id := Plugins.Row(id.name, false, config, Plugins.Running)]
  {
    var a := CallId(0);
    var works := Advance(a, Works);
    HalfDisables(id, config);
    RunJoins(Initial(map[]), HalfDisabled(id, config), [works, works, works]);
    var u := Run(Initial(map[]), HalfDisabled(id, config));
    FiveSteps(u, works, works, works, works, works);
    ComesUp(u, a, id, config);
  }
}
