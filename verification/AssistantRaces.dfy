/**
 Assistants' overrides under concurrent calls: set_state, the update of a built-in and the list
 read, then write. Rows come and go in between. Built-ins and extensions do not change.
 */
module AssistantRaces {
  import opened Assistants
  import opened AssistantOverrides
  import opened Wrappers

  type CallId = nat

  /** What a call has read and not yet used. */
  datatype Call =
    | SetChecked(id: Id, req: StateRequest)
    | SetRead(id: Id, req: StateRequest, was: Option<Override>)
    | SwitchRead(id: Id, agentType: string, was: Option<Override>)
    | ListRead(ids: set<Id>)
    | Done

  datatype State = State(w: World, calls: map<CallId, Call>)

  datatype Step =
    | CheckSet(c: CallId, id: Id, req: StateRequest)
    | ReadSet(c: CallId)
    | WriteSet(c: CallId)
    | ReadSwitch(c: CallId, id: Id, agentType: string)
    | WriteSwitch(c: CallId)
    | ReadList(c: CallId)
    | DropOrphans(c: CallId)
    | AddRow(id: Id, row: UserRow)
    | RemoveRow(id: Id)
    | RemoveOverride(id: Id)

  predicate IsUsers(w: World, id: Id) { id !in w.builtin && id !in w.extension }

  function KnownIds(w: World): set<Id> { w.builtin.Keys + w.rows.Keys + w.extension.Keys }

  function OverrideOf(w: World, id: Id): Option<Override> { Lookup(w.overrides, id) }

  function SetOverride(w: World, id: Id, o: Override): World { w.(overrides := w.overrides[id := o]) }

  /** The delete of everything that is not listed. */
  function Restrict(w: World, ids: set<Id>): World {
    w.(overrides := map id | id in w.overrides && id in ids :: w.overrides[id])
  }

  /** A step that cannot be taken changes nothing. */
  function Apply(s: State, e: Step): State {
    match e
    case CheckSet(c, id, req) =>
      if c !in s.calls && (id in s.w.builtin || (id !in s.w.extension && id in s.w.rows))
      then s.(calls := s.calls[c := SetChecked(id, req)]) else s
    case ReadSet(c) =>
      if c in s.calls && s.calls[c].SetChecked?
      then s.(calls := s.calls[c := SetRead(s.calls[c].id, s.calls[c].req, OverrideOf(s.w, s.calls[c].id))]) else s
    case WriteSet(c) =>
      if c in s.calls && s.calls[c].SetRead? then
        var id := s.calls[c].id;
        State(SetOverride(s.w, id, StateWritten(OverrideOf(s.w, id), s.calls[c].was, s.calls[c].req)),
              s.calls[c := Done])
      else s
    case ReadSwitch(c, id, agentType) =>
      if c !in s.calls && id in s.w.builtin
      then s.(calls := s.calls[c := SwitchRead(id, agentType, OverrideOf(s.w, id))]) else s
    case WriteSwitch(c) =>
      if c in s.calls && s.calls[c].SwitchRead? then
        var id := s.calls[c].id;
        State(SetOverride(s.w, id, AgentWritten(OverrideOf(s.w, id), s.calls[c].was, s.calls[c].agentType)),
              s.calls[c := Done])
      else s
    case ReadList(c) =>
      if c !in s.calls && forall id <- s.w.rows :: s.w.rows[id].decodes
      then s.(calls := s.calls[c := ListRead(KnownIds(s.w))]) else s
    case DropOrphans(c) =>
      if c in s.calls && s.calls[c].ListRead? then State(Restrict(s.w, s.calls[c].ids), s.calls[c := Done]) else s
    case AddRow(id, row) =>
      if IsUsers(s.w, id) && id !in s.w.rows then s.(w := s.w.(rows := s.w.rows[id := row])) else s
    case RemoveRow(id) => if IsUsers(s.w, id) then s.(w := s.w.(rows := s.w.rows - {id})) else s
    case RemoveOverride(id) => if IsUsers(s.w, id) then s.(w := s.w.(overrides := s.w.overrides - {id})) else s
  }

  function After(s: State, steps: seq<Step>): State {
    if steps == [] then s else Apply(After(s, steps[..|steps| - 1]), steps[|steps| - 1])
  }

  // ---- What survives every interleaving ----

  /** Every list knows the built-ins. */
  predicate Inv(s: State) {
    forall c <- s.calls :: s.calls[c].ListRead? ==> s.w.builtin.Keys <= s.calls[c].ids
  }

  lemma StepKeepsInv(s: State, e: Step)
    requires Inv(s)
    ensures Inv(Apply(s, e)) && Apply(s, e).w.builtin == s.w.builtin && Apply(s, e).w.extension == s.w.extension
  {
  }

  lemma {:induction false} RunKeepsInv(s: State, steps: seq<Step>)
    requires Inv(s)
    ensures Inv(After(s, steps)) && After(s, steps).w.builtin == s.w.builtin
            && After(s, steps).w.extension == s.w.extension
  {
    if steps != [] {
      RunKeepsInv(s, steps[..|steps| - 1]);
      StepKeepsInv(After(s, steps[..|steps| - 1]), steps[|steps| - 1]);
    }
  }

  /** It holds as a process starts, so in every state that its runs reach. */
  lemma ReachableInv(w: World, steps: seq<Step>)
    ensures Inv(After(State(w, map[]), steps))
  {
    RunKeepsInv(State(w, map[]), steps);
  }

  /** A user's assistant that is deleted, row and override, is not found, and no other is touched. */
  lemma DeletedIsGone(s: State, id: Id, other: Id)
    requires IsUsers(s.w, id) && other != id
    ensures var t := Apply(Apply(s, RemoveRow(id)), RemoveOverride(id));
            && Get(t.w, id) == Err(NotFound) && OverrideOf(t.w, id) == None
            && Get(t.w, other) == Get(s.w, other) && t.calls == s.calls
  {
  }

  /** The agent of the last update of an assistant that was written in a run. */
  function LastSwitch(s: State, steps: seq<Step>, id: Id): Option<string> {
    if steps == [] then None
    else
      var before, e := After(s, steps[..|steps| - 1]), steps[|steps| - 1];
      if e.WriteSwitch? && e.c in before.calls && before.calls[e.c].SwitchRead? && before.calls[e.c].id == id
      then Some(before.calls[e.c].agentType)
      else LastSwitch(s, steps[..|steps| - 1], id)
  }

  /** Whether enabled, the sort order and the last use, with the defaults where there is no override. */
  function Set(o: Option<Override>): (bool, int, Option<int>) {
    match o
    case None => (true, 0, None)
    case Some(v) => (v.enabled, v.sortOrder, v.lastUsed)
  }

  function AgentShown(w: World, id: Id): string
    requires id in w.builtin
  {
    BuiltinResponse(id, w.builtin[id], OverrideOf(w, id)).agentType
  }

  lemma StepKeepsAgent(s: State, e: Step, id: Id)
    requires Inv(s) && id in s.w.builtin
    ensures var t := Apply(s, e);
            && id in t.w.builtin
            && AgentShown(t.w, id)
                 == (if e.WriteSwitch? && e.c in s.calls && s.calls[e.c].SwitchRead? && s.calls[e.c].id == id
                                       then s.calls[e.c].agentType else AgentShown(s.w, id))
            && (Set(OverrideOf(s.w, id)).2.Some? ==> Set(OverrideOf(t.w, id)).2.Some?)
  {
    if e.DropOrphans? && e.c in s.calls && s.calls[e.c].ListRead? { assert id in s.calls[e.c].ids; }
  }

  /**
   Whatever set_states, lists, deletions and other updates come in between, a built-in assistant
   shows the agent of its last update that was written, or the one it showed at first; and it
   never forgets that it was used.
   */
  lemma {:induction false} AgentSwitchesLast(s: State, steps: seq<Step>, id: Id)
    requires Inv(s) && id in s.w.builtin
    ensures var t := After(s, steps);
            && id in t.w.builtin && AgentShown(t.w, id) == Or(LastSwitch(s, steps, id), AgentShown(s.w, id))
            && (Set(OverrideOf(s.w, id)).2.Some? ==> Set(OverrideOf(t.w, id)).2.Some?)
  {
    if steps != [] {
      var n := |steps| - 1;
      AgentSwitchesLast(s, steps[..n], id);
      RunKeepsInv(s, steps[..n]);
      StepKeepsAgent(After(s, steps[..n]), steps[n], id);
    }
  }

  // ---- When a write is lost ----

  predicate Steps(e: Step, c: CallId) {
    match e
    case AddRow(_, _) | RemoveRow(_) | RemoveOverride(_) => false
    case _ => e.c == c
  }

  lemma {:induction false} CallWaits(s: State, steps: seq<Step>, c: CallId)
    requires c in s.calls && forall e <- steps :: !Steps(e, c)
    ensures c in After(s, steps).calls && After(s, steps).calls[c] == s.calls[c]
  {
    if steps != [] {
      assert !Steps(steps[|steps| - 1], c);
      CallWaits(s, steps[..|steps| - 1], c);
    }
  }

  /** The step writes the state of the assistant. */
  predicate Writes(s: State, e: Step, id: Id) {
    || ((e.WriteSet? || e.WriteSwitch?) && e.c in s.calls
        && (s.calls[e.c].SetRead? || s.calls[e.c].SwitchRead?) && s.calls[e.c].id == id)
    || (e.DropOrphans? && e.c in s.calls && s.calls[e.c].ListRead? && id !in s.calls[e.c].ids)
    || e == RemoveOverride(id)
  }

  predicate NoWrite(s: State, steps: seq<Step>, id: Id) {
    steps == []
        || (NoWrite(s, steps[..|steps| - 1], id) && !Writes(After(s, steps[..|steps| - 1]), steps[|steps| - 1], id))
  }

  lemma {:induction false} NoWriteKeeps(s: State, steps: seq<Step>, id: Id)
    requires NoWrite(s, steps, id)
    ensures OverrideOf(After(s, steps).w, id) == OverrideOf(s.w, id)
  {
    if steps != [] { NoWriteKeeps(s, steps[..|steps| - 1], id); }
  }

  /** Going back from one override to the other would be seen; a time that was not there does not come off again. */
  predicate GoesBack(was: Option<Override>, now: Option<Override>) {
    || Set(was).0 != Set(now).0 || Set(was).1 != Set(now).1 || (Set(was).2.Some? && Set(was).2 != Set(now).2)
  }

  /**
   An update of a built-in reads, anything else happens, then it writes. It shows the new agent
   and otherwise what was shown before its write exactly when the state did not change, so far as
   writing back can undo it, since its read.
   */
  lemma SwitchLosesIff(s: State, steps: seq<Step>, c: CallId, id: Id, agentType: string)
    requires Inv(s) && id in s.w.builtin && c !in s.calls && forall e <- steps :: !Steps(e, c)
    ensures var b := After(Apply(s, ReadSwitch(c, id, agentType)), steps);
            var t := Apply(b, WriteSwitch(c));
            && Get(b.w, id).Ok? && Get(t.w, id).Ok?
            && (Get(t.w, id).value != Get(b.w, id).value.(agentType := agentType)
                <==> GoesBack(OverrideOf(s.w, id), OverrideOf(b.w, id)))
  {
    var a := Apply(s, ReadSwitch(c, id, agentType));
    RunKeepsInv(a, steps);
    CallWaits(a, steps, c);
  }

  /** What was asked for aside, the set_state would put back something else. */
  predicate GoesBackBut(was: Option<Override>, now: Option<Override>, req: StateRequest) {
    || (req.enabled.None? && Set(was).0 != Set(now).0)
    || (req.sortOrder.None? && Set(was).1 != Set(now).1)
    || (req.lastUsed.None? && Set(was).2.Some? && Set(was).2 != Set(now).2)
  }

  function WithRequest(r: Response, req: StateRequest): Response {
    r.(enabled := Or(req.enabled, r.enabled), sortOrder := Or(req.sortOrder, r.sortOrder),
       lastUsed := if req.lastUsed.Some? then req.lastUsed else r.lastUsed)
  }

  /** The same for a set_state, in the fields that it was not asked to set. */
  lemma SetLosesIff(s: State, steps: seq<Step>, c: CallId)
    requires Inv(s) && c in s.calls && s.calls[c].SetChecked? && forall e <- steps :: !Steps(e, c)
    ensures var id, req := s.calls[c].id, s.calls[c].req;
            var b := After(Apply(s, ReadSet(c)), steps);
            var t := Apply(b, WriteSet(c));
            Get(b.w, id).Ok? && (id in b.w.builtin || id !in b.w.extension) ==>
              && Get(t.w, id).Ok?
              && (Get(t.w, id).value != WithRequest(Get(b.w, id).value, req)
                  <==> GoesBackBut(OverrideOf(s.w, id), OverrideOf(b.w, id), req))
  {
    var a := Apply(s, ReadSet(c));
    CallWaits(a, steps, c);
  }

  /** So nothing is lost unless a write of the same assistant falls between the read and the write. */
  lemma LostOnlyInBetween(s: State, steps: seq<Step>, id: Id, req: StateRequest)
    requires NoWrite(s, steps, id)
    ensures !GoesBack(OverrideOf(s.w, id), OverrideOf(After(s, steps).w, id))
    ensures !GoesBackBut(OverrideOf(s.w, id), OverrideOf(After(s, steps).w, id), req)
  {
    NoWriteKeeps(s, steps, id);
  }

  lemma {:induction false} AfterSplits(s: State, a: seq<Step>, b: seq<Step>)
    ensures After(s, a + b) == After(After(s, a), b)
  {
    if b == [] {
      assert a + b == a;
    } else {
      AfterSplits(s, a, b[..|b| - 1]);
      assert (a + b)[..|a + b| - 1] == a + b[..|b| - 1];
    }
  }

  /**
   With one write of the assistant in between, it is lost exactly when it changed whether the
   assistant is enabled, its place in the order, or a time of use that was already there.
   */
  lemma OneWriteIsLostIff(s: State, pre: seq<Step>, e: Step, post: seq<Step>, c: CallId, id: Id, agentType: string)
    requires Inv(s) && id in s.w.builtin && c !in s.calls
    requires forall x <- pre + [e] + post :: !Steps(x, c)
    requires var a := Apply(s, ReadSwitch(c, id, agentType));
             NoWrite(a, pre, id) && NoWrite(After(a, pre + [e]), post, id)
    ensures var a := Apply(s, ReadSwitch(c, id, agentType));
            var before := After(a, pre);
            var b := After(a, pre + [e] + post);
            Get(b.w, id).Ok? && Get(Apply(b, WriteSwitch(c)).w, id).Ok?
            && (Get(Apply(b, WriteSwitch(c)).w, id).value != Get(b.w, id).value.(agentType := agentType)
                <==> GoesBack(OverrideOf(before.w, id), OverrideOf(Apply(before, e).w, id)))
  {
    var a := Apply(s, ReadSwitch(c, id, agentType));
    NoWriteKeeps(a, pre, id);
    NoWriteKeeps(After(a, pre + [e]), post, id);
    AfterSplits(a, pre + [e], post);
    assert (pre + [e])[..|pre|] == pre;
    SwitchLosesIff(s, pre + [e] + post, c, id, agentType);
  }

  /** An override that shows as no override would. */
  predicate IsPlain(o: Override) { o.enabled && o.sortOrder == 0 && o.lastUsed == None }

  /**
   A list reads the ids, anything else happens, then it drops the overrides of all others. That
   changes what is got of an assistant exactly when it is a user's that was not there at the read,
   can be read back, and has an override that shows.
   */
  lemma ListChangesIff(s: State, steps: seq<Step>, c: CallId, id: Id)
    requires Inv(s) && c !in s.calls && (forall x <- s.w.rows :: s.w.rows[x].decodes)
             && forall e <- steps :: !Steps(e, c)
    ensures var b := After(Apply(s, ReadList(c)), steps);
            Get(Apply(b, DropOrphans(c)).w, id) != Get(b.w, id)
            <==> IsUsers(b.w, id) && id in b.w.rows && id !in s.w.rows && b.w.rows[id].decodes
                 && id in b.w.overrides && !IsPlain(b.w.overrides[id])
  {
    var a := Apply(s, ReadList(c));
    RunKeepsInv(a, steps);
    CallWaits(a, steps, c);
    var b := After(a, steps);
    var t := Apply(b, DropOrphans(c));
    assert OverrideOf(t.w, id) == if id in KnownIds(s.w) then OverrideOf(b.w, id) else None;
  }

  /** Such an assistant was added in between. */
  lemma {:induction false} AddedInBetween(s: State, steps: seq<Step>, id: Id)
    requires id !in s.w.rows && id in After(s, steps).w.rows
    ensures exists e <- steps :: e.AddRow? && e.id == id
  {
    if steps != [] {
      var e := steps[|steps| - 1];
      assert e in steps;
      if !(e.AddRow? && e.id == id) {
        AddedInBetween(s, steps[..|steps| - 1], id);
        var x :| x in steps[..|steps| - 1] && x.AddRow? && x.id == id;
        assert x in steps;
      }
    }
  }

  // ---- Two runs in which something is lost ----

  /** An update read before a set_state and wrote after it: enabled again, and back in the first place. */
  lemma SetStateIsLost(w: World, id: Id, agentType: string)
    requires id in w.builtin && id !in w.overrides
    ensures var req := StateRequest(Some(false), Some(7), None);
            var a := Apply(State(w, map[]), ReadSwitch(0, id, agentType));
            var b := Apply(Apply(Apply(a, CheckSet(1, id, req)), ReadSet(1)), WriteSet(1));
            var t := Apply(b, WriteSwitch(0));
            && Get(b.w, id).Ok? && !Get(b.w, id).value.enabled && Get(b.w, id).value.sortOrder == 7
            && Get(t.w, id).Ok? && Get(t.w, id).value.enabled && Get(t.w, id).value.sortOrder == 0
  {
  }

  /** A list read before an assistant was added and disabled, and cleaned up after: it is enabled again. */
  lemma OverrideIsLost(w: World, id: Id, row: UserRow)
    requires IsUsers(w, id) && id !in w.rows && id !in w.overrides && row.decodes
    requires forall x <- w.rows :: w.rows[x].decodes
    ensures var req := StateRequest(Some(false), None, None);
            var a := Apply(Apply(State(w, map[]), ReadList(0)), AddRow(id, row));
            var b := Apply(Apply(Apply(a, CheckSet(1, id, req)), ReadSet(1)), WriteSet(1));
            var t := Apply(b, DropOrphans(0));
            && Get(b.w, id).Ok? && !Get(b.w, id).value.enabled
            && Get(t.w, id).Ok? && Get(t.w, id).value.enabled
  {
    var a := Apply(Apply(State(w, map[]), ReadList(0)), AddRow(id, row));
    var b := Apply(Apply(Apply(a, CheckSet(1, id, StateRequest(Some(false), None, None))), ReadSet(1)), WriteSet(1));
    assert a.w == w.(rows := w.rows[id := row]) && a.calls == map[0 := ListRead(KnownIds(w))];
    assert b.calls[0] == ListRead(KnownIds(w)) && b.w.rows == a.w.rows;
    assert b.w.overrides == w.overrides[id := StateWritten(None, None, StateRequest(Some(false), None, None))];
    assert id !in Apply(b, DropOrphans(0)).w.overrides;
  }

  // ---- Calls that nothing interrupts ----

  /** Read and write with nothing in between are the whole operations. */
  lemma UninterruptedCalls(w: World, id: Id, req: StateRequest, agentType: string)
    ensures Apply(Apply(Apply(State(w, map[]), CheckSet(0, id, req)), ReadSet(0)), WriteSet(0)).w
            == SetState(w, id, req).0
    ensures Apply(Apply(State(w, map[]), ReadSwitch(0, id, agentType)), WriteSwitch(0)).w
            == if id in w.builtin then UpdateBuiltin(w, id, Some(agentType), false).0 else w
  {
  }

  lemma CleanupRestricts(w: World, orders: Orders)
    requires ListsAll(w, orders) && List(w, orders).1.Ok?
    ensures List(w, orders).0 == Restrict(w, KnownIds(w))
  {
    hide List, ListsAll;
    var t := List(w, orders).0;
    forall id
      ensures id in t.overrides <==> id in w.overrides && id in KnownIds(w)
      ensures id in t.overrides ==> t.overrides[id] == w.overrides[id]
    {
      OrphansGo(w, orders, id);
    }
    OrphansGo(w, orders, Id(""));
    assert t.overrides == Restrict(w, KnownIds(w)).overrides;
  }

  /** So is a list. */
  lemma UninterruptedList(w: World, orders: Orders)
    requires ListsAll(w, orders)
    ensures Apply(Apply(State(w, map[]), ReadList(0)), DropOrphans(0)).w == List(w, orders).0
  {
    hide List, ListsAll, Restrict;
    ListShowsAll(w, orders, Id(""));
    if List(w, orders).1.Ok? { CleanupRestricts(w, orders); }
  }
}
