/**
 The agent task manager: one single-flight slot per conversation, built by at most one
 factory run at a time, torn down by kill, kill_and_wait and clear.

 The first part is a machine whose steps are the sections of the source that run without
 giving way to another task: obtaining a slot, entering the cell's initialiser, each way the
 factory can end, being dropped while waiting or building, removing a map entry, reading the
 removed cell, killing what was read. A step that is not enabled changes nothing, so every
 sequence of steps is an interleaving and every interleaving is such a sequence.

 The second part is the manager itself, whose methods are uninterrupted runs of that machine.
 */
module TaskManager {
  import opened Wrappers

  type ConversationId = string
  type Slot = nat    // which once-cell a shared handle points to
  type Agent = nat   // which instance a factory run produced
  type CallId = nat  // which pending call takes a step

  /**
   Where the only handles to a slot are: in the map, with a call that took it out of the map
   and has yet to read it or to kill what it read, or gone. A history value: the code never
   looks at it, and the invariant below ties it to what the code does look at.
   */
  datatype Place = Mapped(id: ConversationId) | Unread(c: CallId) | Condemned(c: CallId) | Killed | ReadEmpty

  /** A once-cell: its value, and the call that holds the initialisation permit. */
  datatype Cell = Cell(value: Option<Agent>, permit: Option<CallId>, place: Place)

  datatype Call =
    | Waiting(id: ConversationId, slot: Slot)
    | Building(id: ConversationId, slot: Slot)
    | Returned(id: ConversationId, slot: Slot, agent: Agent)
    | Failed(id: ConversationId, slot: Slot)
    | Abandoned
    // A kill is a removal of one key; a clear is a removal of a snapshot of the keys.
    | Removing(keys: seq<ConversationId>)
    | Removed(slot: Slot, keys: seq<ConversationId>)
    | Condemning(slot: Slot, agent: Agent, keys: seq<ConversationId>)

  datatype State = State(
    tasks: map<ConversationId, Slot>,
    cells: seq<Cell>,
    calls: map<CallId, Call>,
    killed: set<Agent>,
    builtIn: seq<Slot>  // history: agent a came out of a factory run for slot builtIn[a]
  )

  datatype Step =
    | Obtain(c: CallId, id: ConversationId)
    | Hit(c: CallId)
    | Start(c: CallId)
    | BuildOk(c: CallId)
    | BuildErr(c: CallId)
    | Abandon(c: CallId)
    | BeginRemove(c: CallId, keys: seq<ConversationId>)
    | RemoveNext(c: CallId)
    | ReadCell(c: CallId)
    | Kill(c: CallId)

  const EMPTY := State(map[], [], map[], {}, [])

  function DoObtain(s: State, c: CallId, id: ConversationId): State {
    if c in s.calls then s
    else if id in s.tasks then s.(calls := s.calls[c := Waiting(id, s.tasks[id])])
    else s.(tasks := s.tasks[id := |s.cells|],
            cells := s.cells + [Cell(None, None, Mapped(id))],
            calls := s.calls[c := Waiting(id, |s.cells|)])
  }

  /** The call holds a slot handle, so it can take a step of the cell's initialiser. */
  predicate InCell(s: State, c: CallId) {
    c in s.calls && (s.calls[c].Waiting? || s.calls[c].Building?) && s.calls[c].slot < |s.cells|
  }

  function DoHit(s: State, c: CallId): State {
    if InCell(s, c) && s.calls[c].Waiting? && s.cells[s.calls[c].slot].value.Some? then
      s.(calls := s.calls[c := Returned(s.calls[c].id, s.calls[c].slot, s.cells[s.calls[c].slot].value.value)])
    else s
  }

  function DoStart(s: State, c: CallId): State {
    if InCell(s, c) && s.calls[c].Waiting?
       && s.cells[s.calls[c].slot].value.None? && s.cells[s.calls[c].slot].permit.None? then
      var k := s.calls[c].slot;
      s.(cells := s.cells[k := s.cells[k].(permit := Some(c))], calls := s.calls[c := Building(s.calls[c].id, k)])
    else s
  }

  function DoBuildOk(s: State, c: CallId): State {
    if InCell(s, c) && s.calls[c].Building? then
      var k, a := s.calls[c].slot, |s.builtIn|;
      s.(cells := s.cells[k := s.cells[k].(value := Some(a), permit := None)],
         calls := s.calls[c := Returned(s.calls[c].id, k, a)],
         builtIn := s.builtIn + [k])
    else s
  }

  /** The factory ends without an instance: it fails, or the caller is dropped. */
  function DoGiveUp(s: State, c: CallId, dropped: bool): State {
    if InCell(s, c) && s.calls[c].Building? then
      var k := s.calls[c].slot;
      s.(cells := s.cells[k := s.cells[k].(permit := None)],
         calls := s.calls[c := if dropped then Abandoned else Failed(s.calls[c].id, k)])
    else if InCell(s, c) && dropped then s.(calls := s.calls[c := Abandoned])
    else s
  }

  function DoBeginRemove(s: State, c: CallId, keys: seq<ConversationId>): State {
    if c in s.calls then s else s.(calls := s.calls[c := Removing(keys)])
  }

  function DoRemoveNext(s: State, c: CallId): State {
    if c in s.calls && s.calls[c].Removing? && s.calls[c].keys != [] then
      var key, rest := s.calls[c].keys[0], s.calls[c].keys[1..];
      if key in s.tasks && s.tasks[key] < |s.cells| then
        var k := s.tasks[key];
        s.(tasks := s.tasks - {key},
           cells := s.cells[k := s.cells[k].(place := Unread(c))],
           calls := s.calls[c := Removed(k, rest)])
      else s.(calls := s.calls[c := Removing(rest)])
    else s
  }

  function DoReadCell(s: State, c: CallId): State {
    if c in s.calls && s.calls[c].Removed? && s.calls[c].slot < |s.cells| then
      var k, rest := s.calls[c].slot, s.calls[c].keys;
      match s.cells[k].value
      case Some(a) =>
        s.(cells := s.cells[k := s.cells[k].(place := Condemned(c))], calls := s.calls[c := Condemning(k, a, rest)])
      case None =>
        s.(cells := s.cells[k := s.cells[k].(place := ReadEmpty)], calls := s.calls[c := Removing(rest)])
    else s
  }

  function DoKill(s: State, c: CallId): State {
    if c in s.calls && s.calls[c].Condemning? && s.calls[c].slot < |s.cells| then
      var k := s.calls[c].slot;
      s.(cells := s.cells[k := s.cells[k].(place := Killed)],
         calls := s.calls[c := Removing(s.calls[c].keys)],
         killed := s.killed + {s.calls[c].agent})
    else s
  }

  function Apply(s: State, e: Step): State {
    match e
    case Obtain(c, id) => DoObtain(s, c, id)
    case Hit(c) => DoHit(s, c)
    case Start(c) => DoStart(s, c)
    case BuildOk(c) => DoBuildOk(s, c)
    case BuildErr(c) => DoGiveUp(s, c, false)
    case Abandon(c) => DoGiveUp(s, c, true)
    case BeginRemove(c, keys) => DoBeginRemove(s, c, keys)
    case RemoveNext(c) => DoRemoveNext(s, c)
    case ReadCell(c) => DoReadCell(s, c)
    case Kill(c) => DoKill(s, c)
  }

  /** The state after an interleaving of steps. */
  function After(s: State, steps: seq<Step>): State
    decreases |steps|
  {
    if steps == [] then s else Apply(After(s, steps[..|steps| - 1]), steps[|steps| - 1])
  }

  // ---- What every interleaving keeps ----

  ghost predicate CallOk(s: State, c: CallId)
    requires c in s.calls
  {
    match s.calls[c]
    case Waiting(id, k) => k < |s.cells|
    case Building(id, k) => k < |s.cells| && s.cells[k].permit == Some(c)
    case Returned(id, k, a) => k < |s.cells| && s.cells[k].value == Some(a)
    case Removed(k, keys) => k < |s.cells| && s.cells[k].place == Unread(c)
    case Condemning(k, a, keys) => k < |s.cells| && s.cells[k].place == Condemned(c) && s.cells[k].value == Some(a)
    case _ => true
  }

  ghost predicate PermitOk(s: State, k: Slot)
    requires k < |s.cells|
  {
    s.cells[k].permit.Some? ==>
      var c := s.cells[k].permit.value;
      s.cells[k].value.None? && c in s.calls && s.calls[c].Building? && s.calls[c].slot == k
  }

  ghost predicate PlaceOk(s: State, k: Slot)
    requires k < |s.cells|
  {
    match s.cells[k].place
    case Mapped(id) => id in s.tasks && s.tasks[id] == k
    case Unread(c) => c in s.calls && s.calls[c].Removed? && s.calls[c].slot == k
    case Condemned(c) => c in s.calls && s.calls[c].Condemning? && s.calls[c].slot == k
    case Killed => s.cells[k].value.Some? && s.cells[k].value.value in s.killed
    case ReadEmpty => true
  }

  ghost predicate ValueOk(s: State, k: Slot)
    requires k < |s.cells|
  {
    s.cells[k].value.Some? ==> s.cells[k].value.value < |s.builtIn| && s.builtIn[s.cells[k].value.value] == k
  }

  ghost predicate TaskOk(s: State, id: ConversationId)
    requires id in s.tasks
  {
    s.tasks[id] < |s.cells| && s.cells[s.tasks[id]].place == Mapped(id)
  }

  ghost predicate BuiltOk(s: State, a: Agent)
    requires a < |s.builtIn|
  {
    s.builtIn[a] < |s.cells| && s.cells[s.builtIn[a]].value == Some(a)
  }

  ghost predicate KilledOk(s: State, a: Agent) {
    a < |s.builtIn| && s.builtIn[a] < |s.cells| && s.cells[s.builtIn[a]].place == Killed
  }

  ghost predicate Inv(s: State) {
    && (forall c <- s.calls :: CallOk(s, c))
    && (forall k: nat | k < |s.cells| :: PermitOk(s, k))
    && (forall k: nat | k < |s.cells| :: PlaceOk(s, k))
    && (forall k: nat | k < |s.cells| :: ValueOk(s, k))
    && (forall id <- s.tasks :: TaskOk(s, id))
    && (forall a: nat | a < |s.builtIn| :: BuiltOk(s, a))
    && (forall a <- s.killed :: KilledOk(s, a))
  }

  /** The invariant at the call that steps and at the cell it holds. */
  lemma AtStep(s: State, c: CallId)
    requires Inv(s) && c in s.calls
    ensures CallOk(s, c)
    ensures (InCell(s, c) || s.calls[c].Removed? || s.calls[c].Condemning?) ==>
              PermitOk(s, s.calls[c].slot) && PlaceOk(s, s.calls[c].slot) && ValueOk(s, s.calls[c].slot)
  {
  }

  lemma CallsKept(s: State, e: Step)
    requires Inv(s)
    ensures var t := Apply(s, e); forall c <- t.calls :: CallOk(t, c)
  {
    var t := Apply(s, e);
    if e.c in s.calls { AtStep(s, e.c); }
    forall d <- t.calls ensures CallOk(t, d) { if d in s.calls { assert CallOk(s, d); } }
  }

  lemma CellsKept(s: State, e: Step)
    requires Inv(s)
    ensures var t := Apply(s, e); forall k: nat | k < |t.cells| :: PermitOk(t, k) && ValueOk(t, k)
  {
    var t := Apply(s, e);
    if e.c in s.calls { AtStep(s, e.c); }
    forall k: nat | k < |t.cells| ensures PermitOk(t, k) && ValueOk(t, k) {
      if k < |s.cells| { assert PermitOk(s, k) && ValueOk(s, k); }
    }
  }

  lemma PlacesKept(s: State, e: Step)
    requires Inv(s)
    ensures var t := Apply(s, e); forall k: nat | k < |t.cells| :: PlaceOk(t, k)
  {
    var t := Apply(s, e);
    if e.c in s.calls { AtStep(s, e.c); }
    forall k: nat | k < |t.cells| ensures PlaceOk(t, k) { if k < |s.cells| { assert PlaceOk(s, k); } }
  }

  lemma TasksKept(s: State, e: Step)
    requires Inv(s)
    ensures var t := Apply(s, e); forall id <- t.tasks :: TaskOk(t, id)
  {
  }

  lemma AgentsKept(s: State, e: Step)
    requires Inv(s)
    ensures var t := Apply(s, e);
            (forall a: nat | a < |t.builtIn| :: BuiltOk(t, a)) && (forall a <- t.killed :: KilledOk(t, a))
  {
    var t := Apply(s, e);
    if e.c in s.calls { AtStep(s, e.c); }
    forall a: nat | a < |t.builtIn| ensures BuiltOk(t, a) { if a < |s.builtIn| { assert BuiltOk(s, a); } }
    forall a <- t.killed ensures KilledOk(t, a) { if a in s.killed { assert KilledOk(s, a); } }
  }

  lemma StepKeepsInv(s: State, e: Step)
    requires Inv(s)
    ensures Inv(Apply(s, e))
  {
    CallsKept(s, e);
    CellsKept(s, e);
    PlacesKept(s, e);
    TasksKept(s, e);
    AgentsKept(s, e);
  }

  lemma {:induction false} RunKeepsInv(s: State, steps: seq<Step>)
    requires Inv(s)
    ensures Inv(After(s, steps))
    decreases |steps|
  {
    if steps != [] {
      RunKeepsInv(s, steps[..|steps| - 1]);
      StepKeepsInv(After(s, steps[..|steps| - 1]), steps[|steps| - 1]);
    }
  }

  /** Every state of every interleaving that starts with no task. */
  lemma ReachableInv(steps: seq<Step>)
    ensures Inv(After(EMPTY, steps))
  {
    RunKeepsInv(EMPTY, steps);
  }

  // ---- Single flight ----

  ghost predicate Runs(s: State, c: CallId, k: Slot) {
    c in s.calls && s.calls[c].Building? && s.calls[c].slot == k
  }

  ghost predicate GotOk(s: State, c: CallId, k: Slot, a: Agent) {
    c in s.calls && s.calls[c].Returned? && s.calls[c].slot == k && s.calls[c].agent == a
  }

  /**
   In every reachable state a slot has at most one factory run in progress, none once an
   earlier run gave an instance, at most one run that gave an instance, and one instance for
   all the callers that returned it.
   */
  lemma SingleFlight(steps: seq<Step>)
    ensures var s := After(EMPTY, steps);
            && (forall c, d, k | Runs(s, c, k) && Runs(s, d, k) :: c == d)
            && (forall c, k, a: nat | Runs(s, c, k) && a < |s.builtIn| :: s.builtIn[a] != k)
            && (forall a: nat, b: nat | a < |s.builtIn| && b < |s.builtIn| && s.builtIn[a] == s.builtIn[b] :: a == b)
            && (forall c, d, k, a, b | GotOk(s, c, k, a) && GotOk(s, d, k, b) :: a == b)
  {
    ReachableInv(steps);
    var s := After(EMPTY, steps);
    forall c, d, k | Runs(s, c, k) && Runs(s, d, k) ensures c == d {
      assert CallOk(s, c) && CallOk(s, d);
    }
    forall c, k, a: nat | Runs(s, c, k) && a < |s.builtIn| ensures s.builtIn[a] != k {
      assert CallOk(s, c) && PermitOk(s, k) && BuiltOk(s, a);
    }
    forall a: nat, b: nat | a < |s.builtIn| && b < |s.builtIn| && s.builtIn[a] == s.builtIn[b] ensures a == b {
      assert BuiltOk(s, a) && BuiltOk(s, b);
    }
    forall c, d, k, a, b | GotOk(s, c, k, a) && GotOk(s, d, k, b) ensures a == b {
      assert CallOk(s, c) && CallOk(s, d);
    }
  }

  /**
   A factory run that fails, or whose caller is dropped, leaves no instance and fails its caller
   alone: any other caller of the slot can run the factory next, and returns what it builds.
   */
  lemma NextCallerBuilds(before: seq<Step>, b: CallId, c: CallId, dropped: bool)
    requires var s := After(EMPTY, before);
             && b in s.calls && s.calls[b].Building?
             && c in s.calls && s.calls[c].Waiting? && s.calls[c].slot == s.calls[b].slot
    ensures var s := After(EMPTY, before);
            var id, k := s.calls[b].id, s.calls[b].slot;
            var t := Apply(s, if dropped then Abandon(b) else BuildErr(b));
            var u := Apply(Apply(t, Start(c)), BuildOk(c));
            && t.calls == s.calls[b := if dropped then Abandoned else Failed(id, k)]
            && t.tasks == s.tasks && t.builtIn == s.builtIn && t.killed == s.killed
            && (forall j | 0 <= j < |s.cells| :: j < |t.cells| && t.cells[j].value == s.cells[j].value)
            && u.calls == t.calls[c := Returned(s.calls[c].id, k, |s.builtIn|)] && u.builtIn == s.builtIn + [k]
  {
    ReachableInv(before);
    assert CallOk(After(EMPTY, before), b) && PermitOk(After(EMPTY, before), After(EMPTY, before).calls[b].slot);
  }

  /** A caller that is dropped while it waits changes nothing but its own call. */
  lemma DroppedWhileWaiting(before: seq<Step>, c: CallId)
    requires c in After(EMPTY, before).calls && After(EMPTY, before).calls[c].Waiting?
    ensures var s := After(EMPTY, before);
            Apply(s, Abandon(c)) == s.(calls := s.calls[c := Abandoned])
  {
    ReachableInv(before);
    assert CallOk(After(EMPTY, before), c);
  }

  lemma StepKeepsCell(s: State, e: Step, k: Slot)
    requires Inv(s) && k < |s.cells| && s.cells[k].value.Some?
    ensures k < |Apply(s, e).cells| && Apply(s, e).cells[k].value == s.cells[k].value
  {
    assert PermitOk(s, k);
    if e.c in s.calls { AtStep(s, e.c); }
  }

  /** A filled cell keeps its instance through every continuation. */
  lemma {:induction false} FilledCellIsFinal(s: State, steps: seq<Step>, k: Slot)
    requires Inv(s) && k < |s.cells| && s.cells[k].value.Some?
    ensures k < |After(s, steps).cells| && After(s, steps).cells[k].value == s.cells[k].value
    decreases |steps|
  {
    if steps != [] {
      var before := steps[..|steps| - 1];
      FilledCellIsFinal(s, before, k);
      RunKeepsInv(s, before);
      StepKeepsCell(After(s, before), steps[|steps| - 1], k);
    }
  }

  // ---- One instance per conversation while nothing removes it ----

  ghost predicate AsksFor(s: State, c: CallId, id: ConversationId) {
    && c in s.calls
    && (s.calls[c].Waiting? || s.calls[c].Building? || s.calls[c].Returned? || s.calls[c].Failed?)
    && s.calls[c].id == id
  }

  ghost predicate Removes(call: Call, id: ConversationId) {
    (call.Removing? || call.Removed? || call.Condemning?) && id in call.keys
  }

  /** No pending kill or clear has the conversation ahead of it. */
  ghost predicate Undisturbed(s: State, id: ConversationId) {
    forall c <- s.calls :: !Removes(s.calls[c], id)
  }

  ghost predicate LeavesAlone(e: Step, id: ConversationId) {
    e.BeginRemove? ==> id !in e.keys
  }

  /** Calls for the conversation that began after `s0` hold the slot that is mapped now. */
  ghost predicate OneSlot(s0: State, s: State, id: ConversationId) {
    && s0.calls.Keys <= s.calls.Keys
    && Undisturbed(s, id)
    && forall c | AsksFor(s, c, id) && c !in s0.calls :: id in s.tasks && s.calls[c].slot == s.tasks[id]
  }

  lemma StepKeepsOneSlot(s0: State, s: State, e: Step, id: ConversationId)
    requires OneSlot(s0, s, id) && LeavesAlone(e, id)
    ensures OneSlot(s0, Apply(s, e), id)
  {
  }

  lemma {:induction false} RunKeepsOneSlot(s: State, steps: seq<Step>, id: ConversationId)
    requires Undisturbed(s, id) && forall e <- steps :: LeavesAlone(e, id)
    ensures OneSlot(s, After(s, steps), id)
    decreases |steps|
  {
    if steps != [] {
      RunKeepsOneSlot(s, steps[..|steps| - 1], id);
      StepKeepsOneSlot(s, After(s, steps[..|steps| - 1]), steps[|steps| - 1], id);
    }
  }

  /**
   From any reachable state, through any interleaving in which no kill or clear of the
   conversation is pending or begins, all calls for it that begin and return Ok return the
   same instance, whatever failures, abandoned callers and other removals happen in between.
   */
  lemma SameInstance(before: seq<Step>, steps: seq<Step>, id: ConversationId, c: CallId, d: CallId)
    requires Undisturbed(After(EMPTY, before), id) && forall e <- steps :: LeavesAlone(e, id)
    requires c !in After(EMPTY, before).calls && d !in After(EMPTY, before).calls
    requires var t := After(After(EMPTY, before), steps);
             && c in t.calls && t.calls[c].Returned? && t.calls[c].id == id
             && d in t.calls && t.calls[d].Returned? && t.calls[d].id == id
    ensures var t := After(After(EMPTY, before), steps); t.calls[c].agent == t.calls[d].agent
  {
    var s := After(EMPTY, before);
    ReachableInv(before);
    RunKeepsInv(s, steps);
    RunKeepsOneSlot(s, steps, id);
    var t := After(s, steps);
    assert AsksFor(t, c, id) && AsksFor(t, d, id);
    assert CallOk(t, c) && CallOk(t, d);
  }

  // ---- Conservation of agents ----

  ghost predicate InMap(s: State, a: Agent) {
    exists id :: id in s.tasks && s.tasks[id] < |s.cells| && s.cells[s.tasks[id]].value == Some(a)
  }

  ghost predicate TakenUnread(s: State, a: Agent) {
    exists c ::
        c in s.calls && s.calls[c].Removed? && s.calls[c].slot < |s.cells| && s.cells[s.calls[c].slot].value == Some(a)
  }

  ghost predicate AboutToDie(s: State, a: Agent) {
    exists c :: c in s.calls && s.calls[c].Condemning? && s.calls[c].agent == a
  }

  /** Built, and neither in the map nor within reach of a call that would kill it, nor killed. */
  ghost predicate Detached(s: State, a: Agent) {
    a < |s.builtIn| && !InMap(s, a) && !TakenUnread(s, a) && !AboutToDie(s, a) && a !in s.killed
  }

  function One(b: bool): nat { if b then 1 else 0 }

  /** Each place, read off the history value: detached is what a removal left that read the cell empty. */
  lemma PlaceOf(s: State, a: Agent)
    requires Inv(s) && a < |s.builtIn|
    ensures s.builtIn[a] < |s.cells|
    ensures var p := s.cells[s.builtIn[a]].place;
            && (InMap(s, a) <==> p.Mapped?)
            && (TakenUnread(s, a) <==> p.Unread?)
            && (AboutToDie(s, a) <==> p.Condemned?)
            && (a in s.killed <==> p.Killed?)
            && (Detached(s, a) <==> p.ReadEmpty?)
  {
    var k := s.builtIn[a];
    assert BuiltOk(s, a) && PlaceOk(s, k);
    match s.cells[k].place {
      case Mapped(id) => assert id in s.tasks && s.tasks[id] == k;
      case Unread(c) => assert s.calls[c].slot == k;
      case Condemned(c) => assert CallOk(s, c);
      case _ =>
    }
    if InMap(s, a) {
      var id :| id in s.tasks && s.tasks[id] < |s.cells| && s.cells[s.tasks[id]].value == Some(a);
      assert TaskOk(s, id) && ValueOk(s, s.tasks[id]);
    }
    if TakenUnread(s, a) {
      var c :| c in s.calls && s.calls[c].Removed? && s.calls[c].slot < |s.cells|
          && s.cells[s.calls[c].slot].value == Some(a);
      assert CallOk(s, c) && ValueOk(s, s.calls[c].slot);
    }
    if AboutToDie(s, a) {
      var c :| c in s.calls && s.calls[c].Condemning? && s.calls[c].agent == a;
      assert CallOk(s, c) && ValueOk(s, s.calls[c].slot);
    }
    if a in s.killed { assert KilledOk(s, a); }
  }

  /**
   Every instance a factory built is in exactly one place: in a mapped slot, in a slot that was
   taken out and not yet read, read and about to be killed, asked to be killed, or detached.
   */
  lemma Conservation(steps: seq<Step>, a: Agent)
    requires a < |After(EMPTY, steps).builtIn|
    ensures var s := After(EMPTY, steps);
            One(InMap(s, a)) + One(TakenUnread(s, a)) + One(AboutToDie(s, a)) + One(a in s.killed)
            + One(Detached(s, a)) == 1
  {
    ReachableInv(steps);
    PlaceOf(After(EMPTY, steps), a);
  }

  lemma StepKeepsReadEmpty(s: State, e: Step, k: Slot)
    requires Inv(s) && k < |s.cells| && s.cells[k].place.ReadEmpty?
    ensures k < |Apply(s, e).cells| && Apply(s, e).cells[k].place.ReadEmpty?
  {
    if e.c in s.calls { AtStep(s, e.c); }
    if e.RemoveNext? && e.c in s.calls && s.calls[e.c].Removing? && s.calls[e.c].keys != []
        && s.calls[e.c].keys[0] in s.tasks {
      assert TaskOk(s, s.calls[e.c].keys[0]);
    }
  }

  lemma {:induction false} ReadEmptyForever(s: State, steps: seq<Step>, k: Slot)
    requires Inv(s) && k < |s.cells| && s.cells[k].place.ReadEmpty?
    ensures k < |After(s, steps).cells| && After(s, steps).cells[k].place.ReadEmpty?
    decreases |steps|
  {
    if steps != [] {
      var before := steps[..|steps| - 1];
      ReadEmptyForever(s, before, k);
      RunKeepsInv(s, before);
      StepKeepsReadEmpty(After(s, before), steps[|steps| - 1], k);
    }
  }

  lemma {:induction false} BuiltInGrows(s: State, steps: seq<Step>)
    ensures s.builtIn <= After(s, steps).builtIn
    decreases |steps|
  {
    if steps != [] { BuiltInGrows(s, steps[..|steps| - 1]); }
  }

  /** A detached instance stays out of the map and is never asked to be killed. */
  lemma DetachedForever(s: State, steps: seq<Step>, a: Agent)
    requires Inv(s) && Detached(s, a)
    ensures Detached(After(s, steps), a)
  {
    PlaceOf(s, a);
    RunKeepsInv(s, steps);
    ReadEmptyForever(s, steps, s.builtIn[a]);
    BuiltInGrows(s, steps);
    PlaceOf(After(s, steps), a);
  }

  // ---- When a removal that reads an empty cell leaves an instance behind ----

  ghost predicate WaitsOn(s: State, c: CallId, k: Slot) {
    c in s.calls && (s.calls[c].Waiting? || s.calls[c].Building?) && s.calls[c].slot == k
  }

  /** An empty slot that no map entry leads to and no call is in. */
  ghost predicate Deserted(s: State, k: Slot) {
    k < |s.cells| && s.cells[k].place.ReadEmpty? && s.cells[k].value.None? && forall c :: !WaitsOn(s, c, k)
  }

  lemma StepKeepsDeserted(s: State, e: Step, k: Slot)
    requires Inv(s) && Deserted(s, k)
    ensures Deserted(Apply(s, e), k)
  {
    var t := Apply(s, e);
    StepKeepsReadEmpty(s, e, k);
    assert !WaitsOn(s, e.c, k);
    if e.Obtain? && e.id in s.tasks { assert TaskOk(s, e.id); }
    forall c ensures !WaitsOn(t, c, k) { assert !WaitsOn(s, c, k); }
  }

  lemma {:induction false} DesertedForever(s: State, steps: seq<Step>, k: Slot)
    requires Inv(s) && Deserted(s, k)
    ensures Deserted(After(s, steps), k)
    decreases |steps|
  {
    if steps != [] {
      var before := steps[..|steps| - 1];
      DesertedForever(s, before, k);
      RunKeepsInv(s, before);
      StepKeepsDeserted(After(s, before), steps[|steps| - 1], k);
    }
  }

  lemma OneOrTwo(s: State, a: Step, b: Step)
    ensures After(s, [a]) == Apply(s, a) && After(s, [a, b]) == Apply(Apply(s, a), b)
  {
    assert [a][..0] == [] && [a, b][..1] == [a];
  }

  /** Whoever waits on an empty slot, or the build it waits for, can fill it. */
  lemma WaitingFills(s: State, c: CallId, k: Slot) returns (steps: seq<Step>)
    requires Inv(s) && k < |s.cells| && s.cells[k].value.None? && WaitsOn(s, c, k)
    ensures k < |After(s, steps).cells| && After(s, steps).cells[k].value == Some(|s.builtIn|)
  {
    assert CallOk(s, c) && PermitOk(s, k);
    if s.calls[c].Building? {
      steps := [BuildOk(c)];
      OneOrTwo(s, BuildOk(c), BuildOk(c));
    } else if s.cells[k].permit.Some? {
      var d := s.cells[k].permit.value;
      steps := [BuildOk(d)];
      OneOrTwo(s, BuildOk(d), BuildOk(d));
    } else {
      steps := [Start(c), BuildOk(c)];
      OneOrTwo(s, Start(c), BuildOk(c));
    }
  }

  ghost predicate DetachedLater(s: State, steps: seq<Step>, a: Agent, k: Slot) {
    var t := After(s, steps);
    Detached(t, a) && t.builtIn[a] == k
  }

  lemma SomeoneFills(t: State, c: CallId, k: Slot)
    requires Inv(t) && k < |t.cells| && t.cells[k].place.ReadEmpty? && t.cells[k].value.None? && WaitsOn(t, c, k)
    ensures exists steps, a :: DetachedLater(t, steps, a, k)
  {
    var steps := WaitingFills(t, c, k);
    var u, a := After(t, steps), |t.builtIn|;
    RunKeepsInv(t, steps);
    ReadEmptyForever(t, steps, k);
    assert ValueOk(u, k);
    PlaceOf(u, a);
    assert DetachedLater(t, steps, a, k);
  }

  lemma NeverFilled(t: State, steps: seq<Step>, a: Agent, k: Slot)
    requires Inv(t) && Deserted(t, k)
    ensures !DetachedLater(t, steps, a, k)
  {
    var u := After(t, steps);
    DesertedForever(t, steps, k);
    RunKeepsInv(t, steps);
    if a < |u.builtIn| { assert BuiltOk(u, a); }
  }

  /**
   A kill or clear that reads a slot it took out of the map and finds it empty can leave behind
   an instance that nothing will kill exactly when some call is waiting or building on the slot.
   */
  lemma EmptyReadDetachesIff(s: State, c: CallId)
    requires Inv(s) && c in s.calls && s.calls[c].Removed?
    requires s.calls[c].slot < |s.cells| && s.cells[s.calls[c].slot].value.None?
    ensures var k := s.calls[c].slot;
            (exists steps, a :: DetachedLater(Apply(s, ReadCell(c)), steps, a, k)) <==> exists d :: WaitsOn(s, d, k)
  {
    var k := s.calls[c].slot;
    var t := Apply(s, ReadCell(c));
    StepKeepsInv(s, ReadCell(c));
    forall d ensures WaitsOn(s, d, k) <==> WaitsOn(t, d, k) {}
    if d :| WaitsOn(s, d, k) {
      SomeoneFills(t, d, k);
    } else {
      assert Deserted(t, k);
      forall steps, a ensures !DetachedLater(t, steps, a, k) {
        NeverFilled(t, steps, a, k);
      }
    }
  }

  lemma {:induction false} AfterTail(s: State, first: seq<Step>, last: seq<Step>)
    ensures After(s, first + last) == After(After(s, first), last)
    decreases |last|
  {
    if last == [] {
      assert first + last == first;
    } else {
      var n := |last| - 1;
      AfterTail(s, first, last[..n]);
      assert (first + last)[..|first + last| - 1] == first + last[..n];
    }
  }

  lemma KillDuringBuild(s: State, id: ConversationId)
    requires s == State(map[id := 0], [Cell(None, Some(0), Mapped(id))], map[0 := Building(id, 0), 1 := Removing([id])],
                        {}, [])
    ensures After(s, [RemoveNext(1), ReadCell(1), BuildOk(0)]) ==
            State(map[], [Cell(Some(0), None, ReadEmpty)], map[0 := Returned(id, 0, 0), 1 := Removing([])], {}, [0])
  {
    var last := [RemoveNext(1), ReadCell(1), BuildOk(0)];
    var t := State(map[], [Cell(None, Some(0), Unread(1))], map[0 := Building(id, 0), 1 := Removed(0, [])], {}, []);
    assert Apply(s, RemoveNext(1)) == t by { assert s.tasks - {id} == map[] && [id][1..] == []; }
    assert last[..2] == [RemoveNext(1), ReadCell(1)] && last[..2][..1] == [RemoveNext(1)] && last[..2][..1][..0] == [];
    assert After(s, last[..2][..1]) == t;
    assert After(s, last[..2]) == Apply(t, ReadCell(1));
  }

  /** A kill that lands during a build: the build still answers Ok with an instance nobody will kill. */
  lemma KillDuringBuildDetaches(id: ConversationId)
    ensures var s := After(EMPTY,
                           [Obtain(0, id), Start(0), BeginRemove(1, [id]), RemoveNext(1), ReadCell(1), BuildOk(0)]);
            s.calls == map[0 := Returned(id, 0, 0), 1 := Removing([])] && Detached(s, 0) && s.killed == {}
                && s.tasks == map[]
  {
    var s3 := State(map[id := 0], [Cell(None, Some(0), Mapped(id))], map[0 := Building(id, 0), 1 := Removing([id])], {},
                    []);
    var first := [Obtain(0, id), Start(0), BeginRemove(1, [id])];
    assert After(EMPTY, first) == s3 by {
      assert first[..2] == [Obtain(0, id), Start(0)] && first[..2][..1] == [Obtain(0, id)]
             && first[..2][..1][..0] == [];
      assert After(EMPTY, first[..2][..1]) == Apply(EMPTY, Obtain(0, id));
      assert After(EMPTY, first[..2]) == Apply(Apply(EMPTY, Obtain(0, id)), Start(0));
    }
    KillDuringBuild(s3, id);
    AfterTail(EMPTY, first, [RemoveNext(1), ReadCell(1), BuildOk(0)]);
    assert first + [RemoveNext(1), ReadCell(1), BuildOk(0)] ==
           [Obtain(0, id), Start(0), BeginRemove(1, [id]), RemoveNext(1), ReadCell(1), BuildOk(0)];
  }

  // ---- The manager ----

  datatype AgentType = Acp | OtherType
  datatype Status = Pending | Running | Finished
  datatype AgentInfo = AgentInfo(kind: AgentType, status: Option<Status>, lastActivity: int)
  datatype BuildError = BuildError

  predicate IsIdle(info: AgentInfo, now: int, threshold: int) {
    info.kind == Acp && info.status == Some(Finished) && now - info.lastActivity > threshold
  }

  /** The effect and answer of get_or_build_task when nothing interrupts it. */
  function Get(s: State, id: ConversationId, built: bool): (State, Result<Agent, BuildError>) {
    var slot := if id in s.tasks then s.tasks[id] else |s.cells|;
    var t := if id in s.tasks then s
             else s.(tasks := s.tasks[id := slot], cells := s.cells + [Cell(None, None, Mapped(id))]);
    if slot < |t.cells| && t.cells[slot].value.Some? then (t, Ok(t.cells[slot].value.value))
    else if slot < |t.cells| && built then
      (t.(cells := t.cells[slot := t.cells[slot].(value := Some(|s.builtIn|))], builtIn := s.builtIn + [slot]),
       Ok(|s.builtIn|))
    else (t, Err(BuildError))
  }

  /** The effect of kill and kill_and_wait when nothing interrupts them. */
  function KillOne(s: State, id: ConversationId): State {
    if id in s.tasks && s.tasks[id] < |s.cells| then
      var slot := s.tasks[id];
      match s.cells[slot].value
      case Some(a) =>
        s.(tasks := s.tasks - {id}, cells := s.cells[slot := s.cells[slot].(place := Killed)], killed := s.killed + {a})
      case None =>
        s.(tasks := s.tasks - {id}, cells := s.cells[slot := s.cells[slot].(place := ReadEmpty)])
    else s
  }

  lemma ThreeSteps(s: State, a: Step, b: Step, c: Step)
    ensures After(s, [a, b, c]) == Apply(Apply(Apply(s, a), b), c)
  {
    assert [a, b, c][..2] == [a, b];
    OneOrTwo(s, a, b);
  }

  lemma FourSteps(s: State, a: Step, b: Step, c: Step, d: Step)
    ensures After(s, [a, b, c, d]) == Apply(Apply(Apply(Apply(s, a), b), c), d)
  {
    assert [a, b, c, d][..3] == [a, b, c] && [a, b, c][..2] == [a, b] && [a, b][..1] == [a];
    assert After(s, [a]) == Apply(s, a) by { assert [a][..0] == []; }
    assert After(s, [a, b]) == Apply(Apply(s, a), b);
    assert After(s, [a, b, c]) == Apply(Apply(Apply(s, a), b), c);
  }

  function GetSteps(id: ConversationId, built: bool): seq<Step> {
    [Obtain(0, id), Hit(0), Start(0), if built then BuildOk(0) else BuildErr(0)]
  }

  function KillSteps(id: ConversationId): seq<Step> {
    [BeginRemove(0, [id]), RemoveNext(0), ReadCell(0), Kill(0)]
  }

  lemma GetApplies(s: State, id: ConversationId, built: bool)
    requires s.calls == map[] && (id in s.tasks ==> TaskOk(s, id) && PermitOk(s, s.tasks[id]))
    ensures var t := Apply(Apply(Apply(Apply(s, Obtain(0, id)), Hit(0)), Start(0)),
                           if built then BuildOk(0) else BuildErr(0));
            var (u, r) := Get(s, id, built);
            && u == t.(calls := map[])
            && t.calls.Keys == {0}
            && (if r.Ok? then t.calls[0].Returned? && t.calls[0].agent == r.value else t.calls[0].Failed?)
  {
  }

  /** An uninterrupted get is a run of the machine by one call. */
  lemma GetIsARun(s: State, id: ConversationId, built: bool)
    requires Inv(s) && s.calls == map[]
    ensures var t := After(s, GetSteps(id, built));
            var (u, r) := Get(s, id, built);
            && u == t.(calls := map[])
            && t.calls.Keys == {0}
            && (if r.Ok? then t.calls[0].Returned? && t.calls[0].agent == r.value else t.calls[0].Failed?)
  {
    if id in s.tasks { assert TaskOk(s, id) && PermitOk(s, s.tasks[id]); }
    GetApplies(s, id, built);
    FourSteps(s, Obtain(0, id), Hit(0), Start(0), if built then BuildOk(0) else BuildErr(0));
  }

  lemma KillApplies(s: State, id: ConversationId)
    requires s.calls == map[] && (id in s.tasks ==> TaskOk(s, id))
    ensures KillOne(s, id)
            == Apply(Apply(Apply(Apply(s, BeginRemove(0, [id])), RemoveNext(0)), ReadCell(0)), Kill(0)).(calls := map[])
  {
  }

  /** An uninterrupted kill is a run of the machine by one call. */
  lemma KillIsARun(s: State, id: ConversationId)
    requires Inv(s) && s.calls == map[]
    ensures KillOne(s, id) == After(s, KillSteps(id)).(calls := map[])
  {
    if id in s.tasks { assert TaskOk(s, id); }
    KillApplies(s, id);
    FourSteps(s, BeginRemove(0, [id]), RemoveNext(0), ReadCell(0), Kill(0));
  }

  ghost predicate Settled(s: State) {
    forall k: nat | k < |s.cells| ::
        s.cells[k].permit.None? && !s.cells[k].place.Unread? && !s.cells[k].place.Condemned?
  }

  lemma IdleIsSettled(s: State)
    requires Inv(s) && s.calls == map[]
    ensures Settled(s)
  {
    forall k: nat | k < |s.cells|
      ensures s.cells[k].permit.None? && !s.cells[k].place.Unread? && !s.cells[k].place.Condemned?
    {
      assert PermitOk(s, k) && PlaceOk(s, k);
    }
  }

  /** With every permit free and nothing taken out, the invariant does not depend on past calls. */
  lemma DropsCalls(t: State, idle: State)
    requires Inv(t) && idle == t.(calls := map[])
    requires Settled(idle)
    ensures Inv(idle)
  {
    forall k: nat | k < |idle.cells| ensures PermitOk(idle, k) && PlaceOk(idle, k) && ValueOk(idle, k) {
      assert PermitOk(t, k) && PlaceOk(t, k) && ValueOk(t, k);
    }
    forall id <- idle.tasks ensures TaskOk(idle, id) { assert TaskOk(t, id); }
    forall a: nat | a < |idle.builtIn| ensures BuiltOk(idle, a) { assert BuiltOk(t, a); }
    forall a <- idle.killed ensures KilledOk(idle, a) { assert KilledOk(t, a); }
  }

  lemma GetKeepsInv(s: State, id: ConversationId, built: bool)
    requires Inv(s) && s.calls == map[]
    ensures Inv(Get(s, id, built).0)
  {
    GetIsARun(s, id, built);
    IdleIsSettled(s);
    RunKeepsInv(s, GetSteps(id, built));
    DropsCalls(After(s, GetSteps(id, built)), Get(s, id, built).0);
  }

  lemma KillKeepsInv(s: State, id: ConversationId)
    requires Inv(s) && s.calls == map[]
    ensures Inv(KillOne(s, id))
  {
    KillIsARun(s, id);
    IdleIsSettled(s);
    RunKeepsInv(s, KillSteps(id));
    DropsCalls(After(s, KillSteps(id)), KillOne(s, id));
  }

  /** The instances in the cells mapped by some of the conversations. */
  ghost function AgentsOf(s: State, ids: set<ConversationId>): set<Agent> {
    set id | id in ids && id in s.tasks && s.tasks[id] < |s.cells| && s.cells[s.tasks[id]].value.Some? ::
      s.cells[s.tasks[id]].value.value
  }

  function Ids(keys: seq<ConversationId>): set<ConversationId> { set id | id in keys }

  /** A removal of some conversations by one call, with what it asks to be killed. */
  ghost predicate TakesOut(s: State, t: State, c: CallId, ids: set<ConversationId>, rest: seq<ConversationId>) {
    && t.calls == s.calls[c := Removing(rest)] && t.tasks == s.tasks - ids && t.builtIn == s.builtIn
    && t.killed == s.killed + AgentsOf(s, ids)
    && |t.cells| == |s.cells| && forall k :: 0 <= k < |s.cells| ==> t.cells[k].value == s.cells[k].value
  }

  lemma AgentOf(s: State, id: ConversationId)
    ensures AgentsOf(s, {id})
            == if id in s.tasks && s.tasks[id] < |s.cells| && s.cells[s.tasks[id]].value.Some?
               then {s.cells[s.tasks[id]].value.value} else {}
  {
  }

  lemma RemoveApplies(s: State, c: CallId, keys: seq<ConversationId>)
    requires c in s.calls && s.calls[c] == Removing(keys) && keys != []
    requires keys[0] in s.tasks ==> TaskOk(s, keys[0])
    ensures After(s, [RemoveNext(c), ReadCell(c), Kill(c)])
            == KillOne(s, keys[0]).(calls := s.calls[c := Removing(keys[1..])])
  {
    ThreeSteps(s, RemoveNext(c), ReadCell(c), Kill(c));
  }

  lemma RemovesFirst(s: State, c: CallId, keys: seq<ConversationId>)
    requires c in s.calls && s.calls[c] == Removing(keys) && keys != []
    requires keys[0] in s.tasks ==> TaskOk(s, keys[0])
    ensures TakesOut(s, After(s, [RemoveNext(c), ReadCell(c), Kill(c)]), c, {keys[0]}, keys[1..])
  {
    hide AgentsOf, Apply, After;
    RemoveApplies(s, c, keys);
    AgentOf(s, keys[0]);
  }

  lemma TakesOutMore(s: State, t: State, u: State, c: CallId, keys: seq<ConversationId>)
    requires keys != [] && TakesOut(s, t, c, {keys[0]}, keys[1..]) && TakesOut(t, u, c, Ids(keys[1..]), [])
    ensures TakesOut(s, u, c, Ids(keys), [])
  {
    assert Ids(keys) == {keys[0]} + Ids(keys[1..]);
    assert AgentsOf(s, Ids(keys)) == AgentsOf(s, {keys[0]}) + AgentsOf(t, Ids(keys[1..]));
  }

  lemma NothingTaken(s: State, c: CallId)
    requires c in s.calls && s.calls[c] == Removing([])
    ensures TakesOut(s, After(s, []), c, Ids([]), [])
  {
    assert s.calls == s.calls[c := Removing([])] && s.tasks == s.tasks - {};
    assert AgentsOf(s, {}) == {};
  }

  lemma FirstIsThere(s: State, keys: seq<ConversationId>)
    requires Inv(s) && keys != []
    ensures keys[0] in s.tasks ==> TaskOk(s, keys[0])
  {
  }

  lemma StillRemoving(s: State, t: State, c: CallId, keys: seq<ConversationId>)
    requires keys != [] && TakesOut(s, t, c, {keys[0]}, keys[1..])
    ensures c in t.calls && t.calls[c] == Removing(keys[1..])
  {
  }

  /**
   A kill or clear that goes on without interruption, whatever else is in flight, takes exactly its
   conversations out of the map, present or not, and asks their instances to be killed.
   */
  lemma {:induction false} RemovalIsARun(s: State, c: CallId, keys: seq<ConversationId>) returns (steps: seq<Step>)
    requires Inv(s) && c in s.calls && s.calls[c] == Removing(keys)
    ensures TakesOut(s, After(s, steps), c, Ids(keys), [])
    decreases |keys|
  {
    hide TakesOut, Apply, After, Inv;
    if keys == [] {
      steps := [];
      NothingTaken(s, c);
    } else {
      var first := [RemoveNext(c), ReadCell(c), Kill(c)];
      FirstIsThere(s, keys);
      RemovesFirst(s, c, keys);
      RunKeepsInv(s, first);
      StillRemoving(s, After(s, first), c, keys);
      var rest := RemovalIsARun(After(s, first), c, keys[1..]);
      AfterTail(s, first, rest);
      steps := first + rest;
      TakesOutMore(s, After(s, first), After(s, steps), c, keys);
    }
  }

  /** A clear that began in `s` and has `keys` of its snapshot ahead of it. */
  ghost predicate ClearedTo(s: State, t: State, keys: set<ConversationId>) {
    && t.tasks == s.tasks - (s.tasks.Keys - keys) && t.builtIn == s.builtIn && t.calls == s.calls
    && t.killed == s.killed + AgentsOf(s, s.tasks.Keys - keys)
    && |t.cells| == |s.cells| && forall k :: 0 <= k < |s.cells| ==> t.cells[k].value == s.cells[k].value
  }

  lemma ClearedOneMore(s: State, t: State, keys: set<ConversationId>, key: ConversationId)
    requires Inv(t) && ClearedTo(s, t, keys) && key in keys && keys <= s.tasks.Keys
    ensures ClearedTo(s, KillOne(t, key), keys - {key})
  {
  }

  /** The mapped slots, among some conversations, whose cell is filled. */
  ghost function Filled(s: State, ids: set<ConversationId>): set<ConversationId> {
    set id | id in ids && id in s.tasks && s.tasks[id] < |s.cells| && s.cells[s.tasks[id]].value.Some?
  }

  lemma OneMoreFilled(s: State, ids: set<ConversationId>, id: ConversationId)
    requires Inv(s) && id in s.tasks && id !in ids
    ensures var a := s.cells[s.tasks[id]].value;
            && Filled(s, ids + {id}) == (if a.Some? then Filled(s, ids) + {id} else Filled(s, ids))
            && AgentsOf(s, ids + {id}) == (if a.Some? then AgentsOf(s, ids) + {a.value} else AgentsOf(s, ids))
            && (a.Some? ==> a.value !in AgentsOf(s, ids))
  {
    assert TaskOk(s, id);
    var a := s.cells[s.tasks[id]].value;
    forall other | other in ids && other in s.tasks
      ensures s.tasks[other] < |s.cells| && (a.Some? ==> s.cells[s.tasks[other]].value != a)
    {
      assert TaskOk(s, other) && ValueOk(s, s.tasks[id]) && ValueOk(s, s.tasks[other]);
    }
  }

  /** A count over the keys that a loop has left behind, as it leaves one more. */
  lemma OneMoreCounted(s: State, keys: set<ConversationId>, key: ConversationId)
    requires Inv(s) && keys <= s.tasks.Keys && key in keys
    ensures s.tasks[key] < |s.cells|
    ensures |AgentsOf(s, s.tasks.Keys - (keys - {key}))|
            == |AgentsOf(s, s.tasks.Keys - keys)| + if s.cells[s.tasks[key]].value.Some? then 1 else 0
  {
    OneMoreFilled(s, s.tasks.Keys - keys, key);
    assert s.tasks.Keys - (keys - {key}) == (s.tasks.Keys - keys) + {key};
    assert TaskOk(s, key);
  }

  lemma {:induction false} FilledAreCounted(s: State, ids: set<ConversationId>)
    requires Inv(s) && ids <= s.tasks.Keys
    ensures |Filled(s, ids)| == |AgentsOf(s, ids)|
    decreases ids
  {
    if ids != {} {
      var id :| id in ids;
      FilledAreCounted(s, ids - {id});
      OneMoreFilled(s, ids - {id}, id);
      assert ids - {id} + {id} == ids;
    }
  }

  lemma AgentsAreInMap(s: State, a: Agent)
    ensures a in AgentsOf(s, s.tasks.Keys) <==> InMap(s, a)
  {
  }

  /**
   In every reachable state, whatever is in flight, there are as many filled mapped slots as
   instances in the map.
   */
  lemma FilledSlotsAreInstances(steps: seq<Step>)
    ensures var s := After(EMPTY, steps);
            && |Filled(s, s.tasks.Keys)| == |AgentsOf(s, s.tasks.Keys)|
            && forall a :: a in AgentsOf(s, s.tasks.Keys) <==> InMap(s, a)
  {
    var s := After(EMPTY, steps);
    ReachableInv(steps);
    FilledAreCounted(s, s.tasks.Keys);
    forall a ensures a in AgentsOf(s, s.tasks.Keys) <==> InMap(s, a) { AgentsAreInMap(s, a); }
  }

  class WorkerTaskManager {
    var tasks: map<ConversationId, Slot>
    var cells: seq<Cell>
    var killed: set<Agent>
    var builtIn: seq<Slot>
    ghost var pending: map<CallId, Call>  // the calls that other tasks are in the middle of

    ghost function Now(): State
      reads this
    {
      State(tasks, cells, pending, killed, builtIn)
    }

    ghost predicate Valid()
      reads this
    {
      Inv(Now())
    }

    constructor ()
      ensures Valid() && Now() == EMPTY
    {
      tasks, cells, killed, builtIn, pending := map[], [], {}, [], map[];
    }

    method GetTask(id: ConversationId) returns (r: Option<Agent>)
      requires Valid()
      ensures r.Some? ==> InMap(Now(), r.value) && r.value in AgentsOf(Now(), {id})
      ensures r.None? ==> AgentsOf(Now(), {id}) == {}
    {
      r := None;
      if id in tasks {
        assert TaskOk(Now(), id);
        r := cells[tasks[id]].value;
      }
    }

    /** `built` says how the factory's future ends, if this call gets to run it. */
    method GetOrBuildTask(id: ConversationId, built: bool) returns (r: Result<Agent, BuildError>)
      requires Valid() && pending == map[]
      modifies this
      ensures Valid()
      ensures (Now(), r) == Get(old(Now()), id, built)
    {
      GetKeepsInv(Now(), id, built);
      if id in tasks { assert TaskOk(Now(), id); }
      var slot;
      if id in tasks {
        slot := tasks[id];
      } else {
        slot := |cells|;
        tasks, cells := tasks[id := slot], cells + [Cell(None, None, Mapped(id))];
      }
      match cells[slot].value {
        case Some(a) => r := Ok(a);
        case None =>
          if built {
            var a := |builtIn|;
            cells, builtIn := cells[slot := cells[slot].(value := Some(a))], builtIn + [slot];
            r := Ok(a);
          } else {
            r := Err(BuildError);
          }
      }
    }

    method KillTask(id: ConversationId)
      requires Valid() && pending == map[]
      modifies this
      ensures Valid()
      ensures Now() == KillOne(old(Now()), id)
    {
      KillKeepsInv(Now(), id);
      if id in tasks {
        assert TaskOk(Now(), id);
        var slot := tasks[id];
        tasks := tasks - {id};
        match cells[slot].value {
          case Some(a) => killed, cells := killed + {a}, cells[slot := cells[slot].(place := Killed)];
          case None => cells := cells[slot := cells[slot].(place := ReadEmpty)];
        }
      }
    }

    /** Kills every mapped instance, one snapshotted key at a time. */
    method Clear()
      requires Valid() && pending == map[]
      modifies this
      ensures Valid() && pending == map[] && tasks == map[] && builtIn == old(builtIn)
      ensures killed == old(killed) + AgentsOf(old(Now()), old(tasks).Keys)
    {
      ghost var s := Now();
      var keys := tasks.Keys;
      while keys != {}
        invariant Valid() && keys <= s.tasks.Keys
        invariant ClearedTo(s, Now(), keys)
        decreases keys
      {
        var key :| key in keys;
        ClearedOneMore(s, Now(), keys, key);
        KillTask(key);
        keys := keys - {key};
      }
      assert s.tasks.Keys - {} == s.tasks.Keys;
    }

    /** Counts exactly the instances that are in the map, whatever is in flight. */
    method ActiveCount() returns (n: nat)
      requires Valid()
      ensures n == |AgentsOf(Now(), tasks.Keys)|
      ensures forall a :: a in AgentsOf(Now(), tasks.Keys) <==> InMap(Now(), a)
    {
      ghost var s := Now();
      var keys := tasks.Keys;
      n := 0;
      while keys != {}
        invariant keys <= tasks.Keys
        invariant n == |AgentsOf(s, tasks.Keys - keys)|
        decreases keys
      {
        var key :| key in keys;
        OneMoreCounted(s, keys, key);
        if cells[tasks[key]].value.Some? {
          n := n + 1;
        }
        keys := keys - {key};
      }
      assert tasks.Keys - {} == tasks.Keys;
    }

    /** The conversations whose ACP agent finished and has been idle longer than the threshold. */
    method CollectIdle(now: int, threshold: int, info: Agent -> AgentInfo) returns (ids: seq<ConversationId>)
      requires Valid()
      ensures forall id ::
                id in ids
                <==> id in tasks
                     && exists a :: a in AgentsOf(Now(), {id}) && info(a).kind == Acp
                                    && info(a).status == Some(Finished) && now > info(a).lastActivity + threshold
      ensures forall i, j :: 0 <= i < j < |ids| ==> ids[i] != ids[j]
    {
      var keys := tasks.Keys;
      ids := [];
      while keys != {}
        invariant keys <= tasks.Keys
        invariant forall id :: id in ids <==>
          id in tasks && id !in keys && exists a :: a in AgentsOf(Now(), {id}) && IsIdle(info(a), now, threshold)
        invariant forall i, j :: 0 <= i < j < |ids| ==> ids[i] != ids[j]
        decreases keys
      {
        var key :| key in keys;
        assert TaskOk(Now(), key);
        match cells[tasks[key]].value {
          case Some(a) =>
            assert AgentsOf(Now(), {key}) == {a};
            if IsIdle(info(a), now, threshold) {
              ids := ids + [key];
            }
          case None => assert AgentsOf(Now(), {key}) == {};
        }
        keys := keys - {key};
      }
    }
  }
}
