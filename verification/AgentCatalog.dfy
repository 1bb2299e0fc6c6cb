/**
 The agent catalog: the table, the cache over it, and the bounded queue of partial updates that
 one consumer applies. What the source awaits comes between two steps: the consumer fetches a row,
 stores its six columns, reads it back, probes it and caches it; a reload reads the rows, probes
 them and installs them; any number of reloads are under way.
 */
module AgentCatalog {
  import opened Wrappers
  import opened AgentProbe

  datatype Id = Id(text: string)

  /** JSON values, which are only stored, read back and compared. */
  type Json = nat

  /** A stored column: text that was encoded from a value, or text that does not parse. */
  datatype Column = Encoded(value: Json) | Malformed

  datatype Field = Capabilities | AuthMethods | ConfigOptions | Modes | Models | Commands

  /** One optional value per field: columns of a row, or values of a handshake. */
  datatype Fields<T> = Fields(
    capabilities: Option<T>,
    authMethods: Option<T>,
    configOptions: Option<T>,
    modes: Option<T>,
    models: Option<T>,
    commands: Option<T>
  ) {
    function At(f: Field): Option<T> {
      match f
      case Capabilities => capabilities
      case AuthMethods => authMethods
      case ConfigOptions => configOptions
      case Modes => modes
      case Models => models
      case Commands => commands
    }
  }

  /** A stored row. `known` tells whether its agent type and source parse. */
  datatype Row = Row(known: bool, spec: Spec, columns: Fields<Column>)

  datatype Persisted = Persisted(spec: Spec, handshake: Fields<Json>)

  datatype Metadata = Metadata(persisted: Persisted, resolved: Option<string>, available: bool)

  datatype Message = Message(id: Id, partial: Fields<Json>)

  // ---- Columns ----

  function Encode(v: Option<Json>): Option<Column> { if v.Some? then Some(Encoded(v.value)) else None }

  function Parse(c: Option<Column>): Option<Json> {
    if c.Some? && c.value.Encoded? then Some(c.value.value) else None
  }

  function Keep(column: Option<Column>, v: Option<Json>): Option<Column> { if v.Some? then Encode(v) else column }

  /** The columns that are given; the others stay. */
  function Merge(c: Fields<Column>, p: Fields<Json>): Fields<Column> {
    Fields(
      Keep(c.capabilities, p.capabilities), Keep(c.authMethods, p.authMethods), Keep(c.configOptions, p.configOptions),
      Keep(c.modes, p.modes), Keep(c.models, p.models), Keep(c.commands, p.commands))
  }

  function ParseAll(c: Fields<Column>): Fields<Json> {
    Fields(
      Parse(c.capabilities), Parse(c.authMethods), Parse(c.configOptions), Parse(c.modes), Parse(c.models),
      Parse(c.commands))
  }

  function Decode(r: Row): Option<Persisted> {
    if r.known then Some(Persisted(r.spec, ParseAll(r.columns))) else None
  }

  /** What a partial update says is read back, and what it does not say stays as it was. */
  lemma MergeThenParse(c: Fields<Column>, p: Fields<Json>, f: Field)
    ensures ParseAll(Merge(c, p)).At(f) == if p.At(f).Some? then p.At(f) else ParseAll(c).At(f)
  {
  }

  lemma MergeWrites(c: Fields<Column>, p: Fields<Json>, f: Field)
    ensures Merge(c, p).At(f) == Keep(c.At(f), p.At(f))
  {
  }

  function Probed(p: Persisted, path: Path): Metadata {
    var found := Probe(p.spec, path);
    Metadata(p, if found.Ok? then Some(found.value) else None, IsAvailable(p.spec, path))
  }

  // ---- Writes to a row ----

  /**
   What is written: the six columns of the row that is there then, or another row or none in its
   place. `given` is history: what the handshake gave.
   */
  datatype Change = Stored(columns: Fields<Column>, given: Fields<Json>) | Put(row: Option<Row>)

  function Changed(r: Option<Row>, c: Change): Option<Row> {
    match c
    case Stored(columns, _) => if r.Some? then Some(r.value.(columns := columns)) else None
    case Put(row) => row
  }

  type Log = map<Id, seq<Change>>

  function Of(log: Log, id: Id): seq<Change> { if id in log then log[id] else [] }

  function Noted(log: Log, id: Id, c: Change): Log { log[id := Of(log, id) + [c]] }

  // ---- The machine ----

  const CAPACITY := 256

  type CallId = nat

  /** Where the consumer is with a message. `since` is history: the writes to the row since it was read back. */
  datatype Turn =
    | Idle
    | InHand(message: Message)
    | Fetched(message: Message, was: Fields<Column>)
    | Written(message: Message)
    | Found(message: Message, row: Row, since: seq<Change>)
    | Ready(message: Message, row: Row, since: seq<Change>, entry: Metadata)

  /** A reload: the rows it read and the entries it made of them. `since` is history. */
  datatype Load = Load(rows: map<Id, Row>, entries: Option<map<Id, Metadata>>, since: Log)

  /**
   The last seven fields are history: what became of the messages; the messages whose columns were
   stored; the row that each cached entry was decoded from, and the writes since it was read.
   */
  datatype State = State(
    rows: map<Id, Row>,
    cache: map<Id, Metadata>,
    path: Path,
    queue: seq<Message>,
    turn: Turn,
    loads: map<CallId, Load>,
    submitted: nat,
    dropped: nat,
    accepted: seq<Message>,
    consumed: seq<Message>,
    stores: seq<Message>,
    seen: map<Id, Row>,
    behind: Log
  )

  /** `ok` tells whether the database call works. */
  datatype Step =
    | Submit(message: Message)
    | Receive
    | Fetch(ok: bool)
    | Store(ok: bool)
    | ReadBack(ok: bool)
    | ProbeFound
    | PutInCache
    | LoadRead(c: CallId)
    | LoadProbe(c: CallId)
    | LoadInstall(c: CallId)
    | Refresh
    | ChangePath(path: Path)
    | ChangeRow(id: Id, row: Option<Row>)

  /** Before the first reload nothing was read: the rows count as put since. */
  function Initial(rows: map<Id, Row>, path: Path): State {
    State(rows, map[], path, [], Idle, map[], 0, 0, [], [], [],
          map[], map id | id in rows :: [Put(Some(rows[id]))])
  }

  function RowAt(rows: map<Id, Row>, id: Id): Option<Row> { if id in rows then Some(rows[id]) else None }

  function SetRow(rows: map<Id, Row>, id: Id, row: Option<Row>): map<Id, Row> {
    if row.Some? then rows[id := row.value] else rows - {id}
  }

  function NoteTurn(t: Turn, id: Id, c: Change): Turn {
    if (t.Found? || t.Ready?) && t.message.id == id then t.(since := t.since + [c]) else t
  }

  function NoteLoads(loads: map<CallId, Load>, id: Id, c: Change): map<CallId, Load> {
    map k | k in loads :: loads[k].(since := Noted(loads[k].since, id, c))
  }

  function WriteRow(s: State, id: Id, c: Change): State {
    s.(rows := SetRow(s.rows, id, Changed(RowAt(s.rows, id), c)),
       turn := NoteTurn(s.turn, id, c), loads := NoteLoads(s.loads, id, c), behind := Noted(s.behind, id, c))
  }

  function Install(rows: map<Id, Row>, path: Path): map<Id, Metadata> {
    map id | id in rows && Decode(rows[id]).Some? :: Probed(Decode(rows[id]).value, path)
  }

  function Reprobe(cache: map<Id, Metadata>, path: Path): map<Id, Metadata> {
    map id | id in cache :: Probed(cache[id].persisted, path)
  }

  /** The consumer is done with its message. */
  function Finish(s: State): State
    requires !s.turn.Idle?
  {
    s.(turn := Idle, consumed := s.consumed + [s.turn.message])
  }

  /** The update of the six columns has no effect, and is no error, when the row is gone. */
  function DoStore(s: State, m: Message, was: Fields<Column>): State {
    var t := s.(turn := Written(m));
    if m.id in s.rows then WriteRow(t, m.id, Stored(Merge(was, m.partial), m.partial)).(stores := s.stores + [m]) else t
  }

  function DoCache(s: State, id: Id, row: Row, since: seq<Change>, entry: Metadata): State {
    s.(cache := s.cache[id := entry], seen := s.seen[id := row], behind := s.behind[id := since])
  }

  /** A step of the consumer. One that cannot be taken changes nothing. */
  function Consume(s: State, step: Step): State
    requires step.Receive? || step.Fetch? || step.Store? || step.ReadBack? || step.ProbeFound? || step.PutInCache?
  {
    var t := s.turn;
    match step
    case Receive => if s.queue == [] || !t.Idle? then s else s.(queue := s.queue[1..], turn := InHand(s.queue[0]))
    case Fetch(ok) =>
      if !t.InHand? then s
      else if ok && t.message.id in s.rows then s.(turn := Fetched(t.message, s.rows[t.message.id].columns))
      else Finish(s)
    case Store(ok) => if !t.Fetched? then s else if ok then DoStore(s, t.message, t.was) else Finish(s)
    case ReadBack(ok) =>
      if !t.Written? then s
      else if ok && t.message.id in s.rows then s.(turn := Found(t.message, s.rows[t.message.id], []))
      else Finish(s)
    case ProbeFound =>
      if !t.Found? then s
      else if Decode(t.row).None? then Finish(s)
      else s.(turn := Ready(t.message, t.row, t.since, Probed(Decode(t.row).value, s.path)))
    case PutInCache => if !t.Ready? then s else DoCache(Finish(s), t.message.id, t.row, t.since, t.entry)
  }

  /** A step of a reload. */
  function Reloaded(s: State, step: Step): State
    requires step.LoadRead? || step.LoadProbe? || step.LoadInstall?
  {
    match step
    case LoadRead(c) => if c in s.loads then s else s.(loads := s.loads[c := Load(s.rows, None, map[])])
    case LoadProbe(c) =>
      if c !in s.loads || s.loads[c].entries.Some? then s
      else s.(loads := s.loads[c := s.loads[c].(entries := Some(Install(s.loads[c].rows, s.path)))])
    case LoadInstall(c) =>
      if c !in s.loads || s.loads[c].entries.None? then s
      else
        s.(cache := s.loads[c].entries.value, seen := s.loads[c].rows, behind := s.loads[c].since,
           loads := s.loads - {c})
  }

  function Apply(s: State, step: Step): State {
    match step
    case Submit(m) =>
      if |s.queue| < CAPACITY
      then s.(queue := s.queue + [m], accepted := s.accepted + [m], submitted := s.submitted + 1)
      else s.(dropped := s.dropped + 1, submitted := s.submitted + 1)
    case Refresh => s.(cache := Reprobe(s.cache, s.path))
    case ChangePath(path) => s.(path := path)
    case ChangeRow(id, row) => WriteRow(s, id, Put(row))
    case LoadRead(_) | LoadProbe(_) | LoadInstall(_) => Reloaded(s, step)
    case _ => Consume(s, step)
  }

  /** Only the consumer and its queue change. */
  ghost predicate SameTables(s: State, t: State) {
    && t.rows == s.rows && t.cache == s.cache && t.path == s.path && t.loads == s.loads
    && t.stores == s.stores && t.seen == s.seen && t.behind == s.behind
  }

  lemma FetchSame(s: State, ok: bool)
    ensures SameTables(s, Consume(s, Fetch(ok)))
  {
  }

  lemma ReadBackSame(s: State, ok: bool)
    ensures SameTables(s, Consume(s, ReadBack(ok)))
  {
  }

  lemma ProbeSame(s: State)
    ensures SameTables(s, Consume(s, ProbeFound))
  {
  }

  lemma WaitingSame(s: State, step: Step)
    requires step.Receive? || step.Fetch? || step.ReadBack? || step.ProbeFound?
    ensures SameTables(s, Consume(s, step))
  {
    match step
    case Receive =>
    case Fetch(ok) => FetchSame(s, ok);
    case ReadBack(ok) => ReadBackSame(s, ok);
    case ProbeFound => ProbeSame(s);
  }

  function Run(s: State, steps: seq<Step>): State {
    if steps == [] then s else Apply(Run(s, steps[..|steps| - 1]), steps[|steps| - 1])
  }

  // ---- The queue ----

  function Holding(s: State): seq<Message> { if s.turn.Idle? then [] else [s.turn.message] }

  predicate QueueOk(s: State) {
    && |s.queue| <= CAPACITY
    && s.submitted == |s.accepted| + s.dropped
    && s.accepted == s.consumed + Holding(s) + s.queue
  }

  /** Neither the queue nor what became of the messages changes. */
  predicate SameQueue(s: State, t: State) {
    && t.queue == s.queue && t.accepted == s.accepted && t.submitted == s.submitted && t.dropped == s.dropped
    && t.consumed + Holding(t) == s.consumed + Holding(s)
  }

  lemma SubmitKeepsQueue(s: State, m: Message)
    requires QueueOk(s)
    ensures QueueOk(Apply(s, Submit(m)))
  {
    var t := Apply(s, Submit(m));
    if |s.queue| < CAPACITY {
      assert t.accepted == s.consumed + Holding(s) + t.queue;
    }
  }

  lemma ReceiveKeepsQueue(s: State)
    requires QueueOk(s)
    ensures QueueOk(Apply(s, Receive))
  {
    var t := Apply(s, Receive);
    if t != s {
      assert Holding(s) == [] && Holding(t) + t.queue == s.queue;
    }
  }

  lemma FinishSame(s: State)
    requires !s.turn.Idle?
    ensures SameQueue(s, Finish(s))
  {
    assert s.consumed + [s.turn.message] + [] == s.consumed + [s.turn.message];
  }

  lemma WriteSame(s: State, id: Id, c: Change)
    ensures SameQueue(s, WriteRow(s, id, c))
  {
  }

  lemma ConsumeSame(s: State, step: Step)
    requires step.Fetch? || step.Store? || step.ReadBack? || step.ProbeFound? || step.PutInCache?
    ensures SameQueue(s, Consume(s, step))
  {
    if !s.turn.Idle? { FinishSame(s); }
    if s.turn.Fetched? {
      var m := s.turn.message;
      WriteSame(s.(turn := Written(m)), m.id, Stored(Merge(s.turn.was, m.partial), m.partial));
    }
  }

  lemma ApplyKeepsQueue(s: State, step: Step)
    requires QueueOk(s)
    ensures QueueOk(Apply(s, step))
  {
    match step
    case Submit(m) => SubmitKeepsQueue(s, m);
    case Receive => ReceiveKeepsQueue(s);
    case Fetch(_) | Store(_) | ReadBack(_) | ProbeFound | PutInCache => ConsumeSame(s, step);
    case ChangeRow(id, row) => WriteSame(s, id, Put(row));
    case _ =>
  }

  /**
   Every message that was submitted was dropped, is waiting, is with the consumer, or was consumed;
   those accepted are consumed in the order of their submission, and no more than the capacity waits.
   */
  lemma {:induction false} QueueConserves(rows: map<Id, Row>, path: Path, steps: seq<Step>)
    ensures var s := Run(Initial(rows, path), steps);
            QueueOk(s) && s.submitted == |s.consumed| + |Holding(s)| + |s.queue| + s.dropped
  {
    if steps != [] {
      QueueConserves(rows, path, steps[..|steps| - 1]);
      ApplyKeepsQueue(Run(Initial(rows, path), steps[..|steps| - 1]), steps[|steps| - 1]);
    }
  }

  predicate SubmitsAt(rows: map<Id, Row>, path: Path, steps: seq<Step>, i: nat, full: bool) {
    i < |steps| && steps[i].Submit? && full == (|Run(Initial(rows, path), steps[..i]).queue| == 256)
  }

  /** How many submissions came while 256 messages waited. */
  function Refused(rows: map<Id, Row>, path: Path, steps: seq<Step>): nat {
    if steps == [] then 0
    else
      var n := |steps| - 1;
      Refused(rows, path, steps[..n]) + if SubmitsAt(rows, path, steps, n, true) then 1 else 0
  }

  /** The messages of the others, in order. */
  function Admitted(rows: map<Id, Row>, path: Path, steps: seq<Step>): seq<Message> {
    if steps == [] then []
    else
      var n := |steps| - 1;
      Admitted(rows, path, steps[..n]) + if SubmitsAt(rows, path, steps, n, false) then [steps[n].message] else []
  }

  lemma OtherAdmitsNot(s: State, step: Step)
    requires !step.Submit?
    ensures Apply(s, step).dropped == s.dropped && Apply(s, step).accepted == s.accepted
  {
    match step
    case Receive =>
    case Fetch(_) | Store(_) | ReadBack(_) | ProbeFound | PutInCache => ConsumeSame(s, step);
    case ChangeRow(id, row) => WriteSame(s, id, Put(row));
    case _ =>
  }

  /** A message is dropped exactly when 256 wait as it is submitted. */
  lemma {:induction false} DropsIff(rows: map<Id, Row>, path: Path, steps: seq<Step>)
    ensures var s := Run(Initial(rows, path), steps);
            s.dropped == Refused(rows, path, steps) && s.accepted == Admitted(rows, path, steps)
  {
    if steps != [] {
      var n := |steps| - 1;
      DropsIff(rows, path, steps[..n]);
      QueueConserves(rows, path, steps[..n]);
      if !steps[n].Submit? { OtherAdmitsNot(Run(Initial(rows, path), steps[..n]), steps[n]); }
    }
  }

  // ---- The table ----

  /** The last value of a field that some messages gave to a row. */
  function LastGiven(ms: seq<Message>, id: Id, f: Field): Option<Json> {
    if ms == [] then None
    else
      var m := ms[|ms| - 1];
      if m.id == id && m.partial.At(f).Some? then m.partial.At(f) else LastGiven(ms[..|ms| - 1], id, f)
  }

  lemma LastGivenSnoc(ms: seq<Message>, m: Message, id: Id, f: Field)
    ensures LastGiven(ms + [m], id, f)
            == if m.id == id && m.partial.At(f).Some? then m.partial.At(f) else LastGiven(ms, id, f)
  {
    assert (ms + [m])[..|ms|] == ms;
  }

  lemma SliceSnoc(ms: seq<Message>, m: Message, from: nat)
    requires from <= |ms|
    ensures (ms + [m])[from..] == ms[from..] + [m]
  {
  }

  predicate LeavesRow(step: Step, id: Id) { !(step.ChangeRow? && step.id == id) }

  /** What the consumer fetched and has yet to store is what the row holds. */
  predicate FetchCurrent(s: State, id: Id) {
    s.turn.Fetched? && s.turn.message.id == id && id in s.rows ==> s.turn.was == s.rows[id].columns
  }

  /** What a row's field holds: the last value stored after `from` messages were, or what was there then. */
  predicate FieldOk(s: State, first: Row, from: nat, id: Id, f: Field) {
    && from <= |s.stores| && id in s.rows && s.rows[id].spec == first.spec && s.rows[id].known == first.known
    && s.rows[id].columns.At(f) == Keep(first.columns.At(f), LastGiven(s.stores[from..], id, f))
    && FetchCurrent(s, id)
  }

  /** As far as a row is concerned, the table, what was stored, and what was fetched to store. */
  predicate TableStays(s: State, t: State, id: Id) {
    && t.stores == s.stores && RowAt(t.rows, id) == RowAt(s.rows, id) && (FetchCurrent(s, id) ==> FetchCurrent(t, id))
  }

  lemma ConsumerLeavesTable(s: State, step: Step, id: Id)
    requires step.Receive? || step.Fetch? || step.Store? || step.ReadBack? || step.ProbeFound? || step.PutInCache?
    requires !(step.Store? && step.ok && s.turn.Fetched?)
    ensures TableStays(s, Consume(s, step), id)
  {
  }

  lemma ReloadLeavesTable(s: State, step: Step, id: Id)
    requires step.LoadRead? || step.LoadProbe? || step.LoadInstall?
    ensures TableStays(s, Reloaded(s, step), id)
  {
  }

  lemma OtherKeepsField(s: State, step: Step, first: Row, from: nat, id: Id, f: Field)
    requires FieldOk(s, first, from, id, f) && LeavesRow(step, id) && !(step.Store? && step.ok && s.turn.Fetched?)
    ensures FieldOk(Apply(s, step), first, from, id, f)
  {
    match step
    case Submit(_) | Refresh | ChangePath(_) | ChangeRow(_, _) =>
    case LoadRead(_) | LoadProbe(_) | LoadInstall(_) => ReloadLeavesTable(s, step, id);
    case _ => ConsumerLeavesTable(s, step, id);
  }

  lemma StoreEffect(s: State, id: Id)
    requires s.turn.Fetched? && id in s.rows && FetchCurrent(s, id)
    ensures var t := Apply(s, Store(true));
            var m := s.turn.message;
            && id in t.rows && t.turn.Written?
            && t.rows[id]
                 == (if m.id == id then s.rows[id].(columns := Merge(s.rows[id].columns, m.partial)) else s.rows[id])
            && t.stores == if m.id in s.rows then s.stores + [m] else s.stores
  {
  }

  lemma StoreKeepsField(s: State, first: Row, from: nat, id: Id, f: Field)
    requires FieldOk(s, first, from, id, f) && s.turn.Fetched?
    ensures FieldOk(Apply(s, Store(true)), first, from, id, f)
  {
    var m := s.turn.message;
    StoreEffect(s, id);
    MergeWrites(s.rows[id].columns, m.partial, f);
    SliceSnoc(s.stores, m, from);
    LastGivenSnoc(s.stores[from..], m, id, f);
  }

  lemma {:induction false} RunKeepsField(s: State, steps: seq<Step>, id: Id, f: Field)
    requires id in s.rows && FetchCurrent(s, id) && forall step <- steps :: LeavesRow(step, id)
    ensures FieldOk(Run(s, steps), s.rows[id], |s.stores|, id, f)
  {
    if steps != [] {
      var n := |steps| - 1;
      RunKeepsField(s, steps[..n], id, f);
      assert steps[n] in steps;
      var u := Run(s, steps[..n]);
      if steps[n] == Store(true) && u.turn.Fetched? {
        StoreKeepsField(u, s.rows[id], |s.stores|, id, f);
      } else {
        OtherKeepsField(u, steps[n], s.rows[id], |s.stores|, id, f);
      }
    }
  }

  /**
   Each field of each row holds the last value that a handshake stored in it, or its first one, as
   long as nothing but the consumer writes the row.
   */
  lemma FieldHoldsLast(rows: map<Id, Row>, path: Path, steps: seq<Step>, id: Id, f: Field)
    requires id in rows && forall step <- steps :: LeavesRow(step, id)
    ensures var s := Run(Initial(rows, path), steps);
            var last := LastGiven(s.stores, id, f);
            && id in s.rows && s.rows[id].spec == rows[id].spec && s.rows[id].known == rows[id].known
            && s.rows[id].columns.At(f) == if last.Some? then Encode(last) else rows[id].columns.At(f)
  {
    RunKeepsField(Initial(rows, path), steps, id, f);
    var s := Run(Initial(rows, path), steps);
    assert s.stores[0..] == s.stores;
  }

  // ---- A row that is replaced while a handshake is under way ----

  /** The row that some steps put in place last, or the one there was. */
  function LastPut(r: Option<Row>, steps: seq<Step>, id: Id): Option<Row> {
    if steps == [] then r
    else
      var e := steps[|steps| - 1];
      if e.ChangeRow? && e.id == id then e.row else LastPut(r, steps[..|steps| - 1], id)
  }

  ghost predicate IsPut(steps: seq<Step>, id: Id) { exists e <- steps :: e.ChangeRow? && e.id == id }

  lemma {:induction false} NotPut(r: Option<Row>, steps: seq<Step>, id: Id)
    requires !IsPut(steps, id)
    ensures LastPut(r, steps, id) == r
  {
    if steps != [] {
      var n := |steps| - 1;
      assert steps[n] in steps;
      NotPut(r, steps[..n], id);
    }
  }

  lemma StepWhileFetched(s: State, step: Step, m: Message, was: Fields<Column>)
    requires s.turn == Fetched(m, was) && !step.Store?
    ensures var t := Apply(s, step);
            && t.turn == s.turn
            && RowAt(t.rows, m.id) == if step.ChangeRow? && step.id == m.id then step.row else RowAt(s.rows, m.id)
  {
    match step
    case Submit(_) | Refresh | ChangePath(_) | ChangeRow(_, _) =>
    case LoadRead(_) | LoadProbe(_) | LoadInstall(_) =>
      assert Reloaded(s, step).turn == s.turn && Reloaded(s, step).rows == s.rows;
    case Receive | Fetch(_) | ReadBack(_) | ProbeFound | PutInCache => assert Consume(s, step) == s;
    case Store(_) =>
  }

  /** Between the fetch and the store the row changes only by being put in place. */
  lemma {:induction false} RunWhileFetched(s: State, steps: seq<Step>, m: Message, was: Fields<Column>)
    requires s.turn == Fetched(m, was) && forall step <- steps :: !step.Store?
    ensures Run(s, steps).turn == s.turn && RowAt(Run(s, steps).rows, m.id) == LastPut(RowAt(s.rows, m.id), steps, m.id)
  {
    if steps != [] {
      var n := |steps| - 1;
      assert steps[n] in steps;
      RunWhileFetched(s, steps[..n], m, was);
      StepWhileFetched(Run(s, steps[..n]), steps[n], m, was);
    }
  }

  /** A column that the handshake does not give is not what it was. */
  ghost predicate Loses(before: Row, after: Row, given: Fields<Json>) {
    exists f: Field :: given.At(f).None? && after.columns.At(f) != before.columns.At(f)
  }

  lemma LosesAlike(before: Row, after: Row, was: Row, given: Fields<Json>)
    requires forall f: Field :: given.At(f).None? ==> after.columns.At(f) == was.columns.At(f)
    ensures Loses(before, after, given) <==> Loses(before, was, given)
  {
  }

  /**
   The consumer fetches a row, anything else happens, then it stores. Given fields are stored, and
   all other columns are what they were at the fetch. So a row that was put in place loses a
   column exactly when it was put in between and differs there from the row that was fetched.
   */
  lemma StoreLosesIff(s: State, steps: seq<Step>, m: Message)
    requires s.turn == InHand(m) && m.id in s.rows && forall step <- steps :: !step.Store?
    ensures var b := Run(Apply(s, Fetch(true)), steps);
            var t := Apply(b, Store(true));
            var put := LastPut(RowAt(s.rows, m.id), steps, m.id);
            && RowAt(b.rows, m.id) == put && (m.id in t.rows <==> put.Some?)
            && (put.Some? ==>
                  && t.rows[m.id].spec == put.value.spec && t.rows[m.id].known == put.value.known
                  && (forall f: Field ::
                       t.rows[m.id].columns.At(f) == Keep(s.rows[m.id].columns.At(f), m.partial.At(f)))
                  && (Loses(put.value, t.rows[m.id], m.partial)
                      <==> IsPut(steps, m.id) && Loses(put.value, s.rows[m.id], m.partial)))
  {
    var a := Apply(s, Fetch(true));
    var was := s.rows[m.id].columns;
    RunWhileFetched(a, steps, m, was);
    var b := Run(a, steps);
    var t := Apply(b, Store(true));
    if m.id in b.rows {
      assert t.rows[m.id] == b.rows[m.id].(columns := Merge(was, m.partial));
      forall f: Field ensures t.rows[m.id].columns.At(f) == Keep(was.At(f), m.partial.At(f)) {
        MergeWrites(was, m.partial, f);
      }
      if !IsPut(steps, m.id) { NotPut(RowAt(s.rows, m.id), steps, m.id); }
      LosesAlike(b.rows[m.id], t.rows[m.id], s.rows[m.id], m.partial);
    }
  }

  /** An edit that clears the columns comes between the fetch and the store: the old columns are back. */
  lemma EditIsUndone(id: Id, row: Row, edited: Row, m: Message, path: Path)
    requires m.id == id && m.partial.capabilities == None && row.columns.capabilities == Some(Encoded(1))
    requires edited.columns.capabilities == None
    ensures var s := Initial(map[id := row], path);
            var fetched := Apply(Apply(Apply(s, Submit(m)), Receive), Fetch(true));
            var cleared := Apply(fetched, ChangeRow(id, Some(edited)));
            var t := Apply(cleared, Store(true));
            && id in cleared.rows && cleared.rows[id].columns.capabilities == None
            && id in t.rows && t.rows[id].spec == edited.spec && t.rows[id].columns.capabilities == Some(Encoded(1))
  {
  }
}
