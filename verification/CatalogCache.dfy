/** The cache of the agent catalog: when an entry agrees with its row, and when its availability is current. */
module CatalogCache {
  import opened AgentCatalog
  import opened AgentProbe
  import opened Wrappers

  // ---- What some writes leave of a row ----

  function Replay(r: Option<Row>, cs: seq<Change>): Option<Row> {
    if cs == [] then r else Changed(Replay(r, cs[..|cs| - 1]), cs[|cs| - 1])
  }

  lemma ReplaySnoc(r: Option<Row>, cs: seq<Change>, c: Change)
    ensures Replay(r, cs + [c]) == Changed(Replay(r, cs), c)
  {
    assert (cs + [c])[..|cs|] == cs;
  }

  /** The row that was last put in place, or the one there was. */
  function Base(r: Option<Row>, cs: seq<Change>): Option<Row> {
    if cs == [] then r
    else if cs[|cs| - 1].Put? then cs[|cs| - 1].row
    else Base(r, cs[..|cs| - 1])
  }

  /** The columns that were stored last since then, if any were. */
  function LastStored(cs: seq<Change>): Option<Fields<Column>> {
    if cs == [] || cs[|cs| - 1].Put? then None else Some(cs[|cs| - 1].columns)
  }

  function Or<T>(o: Option<T>, d: T): T { if o.Some? then o.value else d }

  lemma {:induction false} ReplayEnds(r: Option<Row>, cs: seq<Change>)
    ensures Base(r, cs).None? ==> Replay(r, cs) == None
    ensures Base(r, cs).Some? ==>
              Replay(r, cs) == Some(Base(r, cs).value.(columns := Or(LastStored(cs), Base(r, cs).value.columns)))
  {
    if cs != [] { ReplayEnds(r, cs[..|cs| - 1]); }
  }

  lemma SameFields<T>(a: Fields<T>, b: Fields<T>)
    requires forall f: Field :: a.At(f) == b.At(f)
    ensures a == b
  {
    assert a.At(Capabilities) == b.At(Capabilities) && a.At(AuthMethods) == b.At(AuthMethods);
    assert a.At(ConfigOptions) == b.At(ConfigOptions) && a.At(Modes) == b.At(Modes);
    assert a.At(Models) == b.At(Models) && a.At(Commands) == b.At(Commands);
  }

  lemma ParseEach(c: Fields<Column>, f: Field)
    ensures ParseAll(c).At(f) == Parse(c.At(f))
  {
  }

  predicate Shown(r: Option<Row>) { r.Some? && r.value.known }

  /**
   Told from the writes alone: the spawn data of the row put in place last is what it was, and in
   each field the columns stored last, or those of that row, say what it said.
   */
  ghost predicate EndsAsItWas(r: Option<Row>, cs: seq<Change>) {
    var b := Base(r, cs);
    if !Shown(b) then !Shown(r)
    else
      && Shown(r) && r.value.spec == b.value.spec
      && forall f: Field :: Parse(Or(LastStored(cs), b.value.columns).At(f)) == Parse(r.value.columns.At(f))
  }

  function DecodeIfAny(r: Option<Row>): Option<Persisted> { if r.Some? then Decode(r.value) else None }

  lemma ParsedAlike(a: Fields<Column>, b: Fields<Column>)
    ensures ParseAll(a) == ParseAll(b) <==> forall f: Field :: Parse(a.At(f)) == Parse(b.At(f))
  {
    forall f: Field ensures ParseAll(a).At(f) == Parse(a.At(f)) && ParseAll(b).At(f) == Parse(b.At(f)) {
      ParseEach(a, f);
      ParseEach(b, f);
    }
    if forall f: Field :: Parse(a.At(f)) == Parse(b.At(f)) { SameFields(ParseAll(a), ParseAll(b)); }
  }

  lemma EndsIff(r: Option<Row>, cs: seq<Change>)
    ensures DecodeIfAny(Replay(r, cs)) == DecodeIfAny(r) <==> EndsAsItWas(r, cs)
  {
    ReplayEnds(r, cs);
    var b := Base(r, cs);
    if Shown(b) && Shown(r) { ParsedAlike(Or(LastStored(cs), b.value.columns), r.value.columns); }
  }

  // ---- Every interleaving ----

  function DecodedAt(rows: map<Id, Row>, id: Id): Option<Persisted> { DecodeIfAny(RowAt(rows, id)) }

  function CachedAt(cache: map<Id, Metadata>, id: Id): Option<Persisted> {
    if id in cache then Some(cache[id].persisted) else None
  }

  /** The cached entry is the decoded row; there is none for a row that is missing or of an unknown type. */
  predicate Agrees(s: State, id: Id) { CachedAt(s.cache, id) == DecodedAt(s.rows, id) }

  /** A row that was read, and what it has become since. */
  predicate Tracks(rows: map<Id, Row>, id: Id, read: Option<Row>, since: seq<Change>) {
    RowAt(rows, id) == Replay(read, since)
  }

  predicate LoadOk(rows: map<Id, Row>, l: Load, id: Id) {
    && Tracks(rows, id, RowAt(l.rows, id), Of(l.since, id))
    && (l.entries.Some? ==> CachedAt(l.entries.value, id) == DecodedAt(l.rows, id))
  }

  predicate LoadsOk(rows: map<Id, Row>, loads: map<CallId, Load>, id: Id) {
    forall c <- loads :: LoadOk(rows, loads[c], id)
  }

  predicate TurnOk(rows: map<Id, Row>, t: Turn, id: Id) {
    && ((t.Found? || t.Ready?) && t.message.id == id ==> Tracks(rows, id, Some(t.row), t.since))
    && (t.Ready? ==> Decode(t.row) == Some(t.entry.persisted))
  }

  predicate CacheOk(s: State, id: Id) {
    CachedAt(s.cache, id) == DecodedAt(s.seen, id) && Tracks(s.rows, id, RowAt(s.seen, id), Of(s.behind, id))
  }

  /** Whatever was read is the row of some time ago, and the writes since are known. */
  predicate EntryOk(s: State, id: Id) {
    CacheOk(s, id) && LoadsOk(s.rows, s.loads, id) && TurnOk(s.rows, s.turn, id)
  }

  lemma RowSet(rows: map<Id, Row>, id: Id, row: Option<Row>, x: Id)
    ensures RowAt(SetRow(rows, id, row), x) == if x == id then row else RowAt(rows, x)
  {
  }

  lemma OfNoted(log: Log, id: Id, c: Change, x: Id)
    ensures Of(Noted(log, id, c), x) == if x == id then Of(log, x) + [c] else Of(log, x)
  {
  }

  /** What was known of a row, after a write. */
  lemma WriteTracks(rows: map<Id, Row>, id: Id, c: Change, x: Id, read: Option<Row>, since: seq<Change>)
    requires Tracks(rows, x, read, since)
    ensures Tracks(SetRow(rows, id, Changed(RowAt(rows, id), c)), x, read, if x == id then since + [c] else since)
  {
    RowSet(rows, id, Changed(RowAt(rows, id), c), x);
    ReplaySnoc(read, since, c);
  }

  lemma WriteKeepsLoads(s: State, id: Id, c: Change, x: Id)
    requires LoadsOk(s.rows, s.loads, x)
    ensures LoadsOk(WriteRow(s, id, c).rows, WriteRow(s, id, c).loads, x)
  {
    var t := WriteRow(s, id, c);
    forall k <- t.loads ensures LoadOk(t.rows, t.loads[k], x) {
      var l := s.loads[k];
      assert LoadOk(s.rows, l, x);
      WriteTracks(s.rows, id, c, x, RowAt(l.rows, x), Of(l.since, x));
      OfNoted(l.since, id, c, x);
    }
  }

  lemma WriteKeepsCache(s: State, id: Id, c: Change, x: Id)
    requires CacheOk(s, x)
    ensures CacheOk(WriteRow(s, id, c), x)
  {
    WriteTracks(s.rows, id, c, x, RowAt(s.seen, x), Of(s.behind, x));
    OfNoted(s.behind, id, c, x);
  }

  lemma WriteKeepsTurn(s: State, id: Id, c: Change, x: Id)
    requires TurnOk(s.rows, s.turn, x)
    ensures TurnOk(WriteRow(s, id, c).rows, WriteRow(s, id, c).turn, x)
  {
    if (s.turn.Found? || s.turn.Ready?) && s.turn.message.id == x {
      WriteTracks(s.rows, id, c, x, Some(s.turn.row), s.turn.since);
    }
  }

  lemma WriteKeepsEntry(s: State, id: Id, c: Change, x: Id)
    requires EntryOk(s, x)
    ensures EntryOk(WriteRow(s, id, c), x)
  {
    WriteKeepsLoads(s, id, c, x);
    WriteKeepsCache(s, id, c, x);
    WriteKeepsTurn(s, id, c, x);
  }

  lemma FoundTracks(s: State, x: Id)
    requires EntryOk(s, x) && s.turn.Written? && s.turn.message.id in s.rows
    ensures EntryOk(s.(turn := Found(s.turn.message, s.rows[s.turn.message.id], [])), x)
  {
  }

  lemma ProbeKeepsEntry(s: State, x: Id)
    requires EntryOk(s, x) && s.turn.Found?
    ensures EntryOk(Consume(s, ProbeFound), x)
  {
  }

  lemma CacheKeepsEntry(s: State, x: Id)
    requires EntryOk(s, x) && s.turn.Ready?
    ensures EntryOk(Consume(s, PutInCache), x)
  {
    var t := s.turn;
    var u := Consume(s, PutInCache);
    if x == t.message.id {
      assert Of(u.behind, x) == t.since && RowAt(u.seen, x) == Some(t.row);
    } else {
      assert CacheOk(u, x);
    }
  }

  lemma ConsumeKeepsEntry(s: State, step: Step, x: Id)
    requires step.Receive? || step.Fetch? || step.Store? || step.ReadBack? || step.ProbeFound? || step.PutInCache?
    requires EntryOk(s, x)
    ensures EntryOk(Consume(s, step), x)
  {
    match step
    case Store(ok) =>
      if ok && s.turn.Fetched? {
        var m := s.turn.message;
        WriteKeepsEntry(s.(turn := Written(m)), m.id, Stored(Merge(s.turn.was, m.partial), m.partial), x);
      }
    case ReadBack(ok) => if ok && s.turn.Written? && s.turn.message.id in s.rows { FoundTracks(s, x); }
    case ProbeFound => if s.turn.Found? { ProbeKeepsEntry(s, x); }
    case PutInCache => if s.turn.Ready? { CacheKeepsEntry(s, x); }
    case _ =>
  }

  lemma LoadReadKeepsEntry(s: State, c: CallId, x: Id)
    requires EntryOk(s, x)
    ensures EntryOk(Reloaded(s, LoadRead(c)), x)
  {
    var t := Reloaded(s, LoadRead(c));
    forall k <- t.loads ensures LoadOk(t.rows, t.loads[k], x) {
      if k in s.loads { assert LoadOk(s.rows, s.loads[k], x); }
    }
  }

  lemma LoadProbeKeepsEntry(s: State, c: CallId, x: Id)
    requires EntryOk(s, x)
    ensures EntryOk(Reloaded(s, LoadProbe(c)), x)
  {
    var t := Reloaded(s, LoadProbe(c));
    forall k <- t.loads ensures LoadOk(t.rows, t.loads[k], x) { assert LoadOk(s.rows, s.loads[k], x); }
  }

  lemma LoadInstallKeepsEntry(s: State, c: CallId, x: Id)
    requires EntryOk(s, x)
    ensures EntryOk(Reloaded(s, LoadInstall(c)), x)
  {
    var t := Reloaded(s, LoadInstall(c));
    if c in s.loads { assert LoadOk(s.rows, s.loads[c], x); }
    forall k <- t.loads ensures LoadOk(t.rows, t.loads[k], x) { assert LoadOk(s.rows, s.loads[k], x); }
  }

  lemma ApplyKeepsEntry(s: State, step: Step, x: Id)
    requires EntryOk(s, x)
    ensures EntryOk(Apply(s, step), x)
  {
    match step
    case Submit(_) | Refresh | ChangePath(_) =>
    case ChangeRow(id, row) => WriteKeepsEntry(s, id, Put(row), x);
    case LoadRead(c) => LoadReadKeepsEntry(s, c, x);
    case LoadProbe(c) => LoadProbeKeepsEntry(s, c, x);
    case LoadInstall(c) => LoadInstallKeepsEntry(s, c, x);
    case _ => ConsumeKeepsEntry(s, step, x);
  }

  lemma {:induction false} RunKeepsEntry(s: State, steps: seq<Step>, x: Id)
    requires EntryOk(s, x)
    ensures EntryOk(Run(s, steps), x)
  {
    if steps != [] {
      RunKeepsEntry(s, steps[..|steps| - 1], x);
      ApplyKeepsEntry(Run(s, steps[..|steps| - 1]), steps[|steps| - 1], x);
    }
  }

  lemma StartsTracked(rows: map<Id, Row>, path: Path, x: Id)
    ensures EntryOk(Initial(rows, path), x)
  {
    if x in rows {
      ReplaySnoc(None, [], Put(Some(rows[x])));
      assert [] + [Put(Some(rows[x]))] == [Put(Some(rows[x]))];
    }
  }

  /**
   In every interleaving, whatever overtakes what, a cached entry is the decoded row of the time
   at which it was read. It agrees with the table exactly when, by the columns stored and the rows
   put in place since then, the row ends as it was.
   */
  lemma CacheAgreesIff(rows: map<Id, Row>, path: Path, steps: seq<Step>, id: Id)
    ensures var s := Run(Initial(rows, path), steps);
            var read, since := RowAt(s.seen, id), Of(s.behind, id);
            && CachedAt(s.cache, id) == DecodeIfAny(read) && RowAt(s.rows, id) == Replay(read, since)
            && (Agrees(s, id) <==> EndsAsItWas(read, since))
            && (since == [] ==> Agrees(s, id))
  {
    StartsTracked(rows, path, id);
    RunKeepsEntry(Initial(rows, path), steps, id);
    var s := Run(Initial(rows, path), steps);
    EndsIff(RowAt(s.seen, id), Of(s.behind, id));
  }

  // ---- One field, while only the consumer writes ----

  /** The last value that some writes were given for a field. */
  function GivenLast(cs: seq<Change>, f: Field): Option<Json> {
    if cs == [] then None
    else
      var c := cs[|cs| - 1];
      if c.Stored? && c.given.At(f).Some? then c.given.At(f) else GivenLast(cs[..|cs| - 1], f)
  }

  lemma GivenLastSnoc(cs: seq<Change>, c: Change, f: Field)
    ensures GivenLast(cs + [c], f) == if c.Stored? && c.given.At(f).Some? then c.given.At(f) else GivenLast(cs, f)
  {
    assert (cs + [c])[..|cs|] == cs;
  }

  predicate FollowsFrom(read: Option<Row>, now: Row, since: seq<Change>, f: Field) {
    read.Some? ==> now.columns.At(f) == Keep(read.value.columns.At(f), GivenLast(since, f))
  }

  /** Whatever was read of the row, each field is what it was, or what was given to it last since. */
  ghost predicate FieldFollows(s: State, id: Id, f: Field) {
    && id in s.rows && FetchCurrent(s, id)
    && FollowsFrom(RowAt(s.seen, id), s.rows[id], Of(s.behind, id), f)
    && (forall c <- s.loads ::
          FollowsFrom(RowAt(s.loads[c].rows, id), s.rows[id], Of(s.loads[c].since, id), f))
    && ((s.turn.Found? || s.turn.Ready?) && s.turn.message.id == id ==>
          FollowsFrom(Some(s.turn.row), s.rows[id], s.turn.since, f))
  }

  lemma StoreFollows(read: Option<Row>, now: Row, since: seq<Change>, given: Fields<Json>, f: Field)
    requires FollowsFrom(read, now, since, f)
    ensures var c := Stored(Merge(now.columns, given), given);
            FollowsFrom(read, now.(columns := c.columns), since + [c], f)
  {
    MergeWrites(now.columns, given, f);
    GivenLastSnoc(since, Stored(Merge(now.columns, given), given), f);
  }

  lemma OwnWriteLoads(s: State, id: Id, given: Fields<Json>, f: Field)
    requires FieldFollows(s, id, f)
    ensures var t := WriteRow(s, id, Stored(Merge(s.rows[id].columns, given), given));
            id in t.rows && forall c <- t.loads ::
                FollowsFrom(RowAt(t.loads[c].rows, id), t.rows[id], Of(t.loads[c].since, id), f)
  {
    var t := WriteRow(s, id, Stored(Merge(s.rows[id].columns, given), given));
    forall c <- t.loads ensures FollowsFrom(RowAt(t.loads[c].rows, id), t.rows[id], Of(t.loads[c].since, id), f) {
      StoreFollows(RowAt(s.loads[c].rows, id), s.rows[id], Of(s.loads[c].since, id), given, f);
    }
  }

  lemma OwnWriteFollows(s: State, id: Id, given: Fields<Json>, f: Field)
    requires FieldFollows(s, id, f) && s.turn.Written?
    ensures FieldFollows(WriteRow(s, id, Stored(Merge(s.rows[id].columns, given), given)), id, f)
  {
    OwnWriteLoads(s, id, given, f);
    StoreFollows(RowAt(s.seen, id), s.rows[id], Of(s.behind, id), given, f);
    OfNoted(s.behind, id, Stored(Merge(s.rows[id].columns, given), given), id);
  }

  lemma WriteElsewhereFollows(s: State, x: Id, c: Change, id: Id, f: Field)
    requires FieldFollows(s, id, f) && x != id
    ensures FieldFollows(WriteRow(s, x, c), id, f)
  {
    RowSet(s.rows, x, Changed(RowAt(s.rows, x), c), id);
  }

  lemma StoreKeepsFollowing(s: State, id: Id, f: Field)
    requires FieldFollows(s, id, f) && s.turn.Fetched?
    ensures FieldFollows(Apply(s, Store(true)), id, f)
  {
    var m, was := s.turn.message, s.turn.was;
    var t, c := s.(turn := Written(m)), Stored(Merge(was, m.partial), m.partial);
    if m.id !in s.rows {
      assert Apply(s, Store(true)) == t;
    } else {
      if m.id == id { OwnWriteFollows(t, id, m.partial, f); } else { WriteElsewhereFollows(t, m.id, c, id, f); }
      assert Apply(s, Store(true)) == WriteRow(t, m.id, c).(stores := s.stores + [m]);
    }
  }

  lemma InstallFollows(s: State, c: CallId, id: Id, f: Field)
    requires FieldFollows(s, id, f)
    ensures FieldFollows(Reloaded(s, LoadInstall(c)), id, f)
  {
  }

  lemma LoadReadFollows(s: State, c: CallId, id: Id, f: Field)
    requires FieldFollows(s, id, f)
    ensures FieldFollows(Reloaded(s, LoadRead(c)), id, f)
  {
    hide Decode, ParseAll, Parse, Probed;
  }

  lemma LoadProbeFollows(s: State, c: CallId, id: Id, f: Field)
    requires FieldFollows(s, id, f)
    ensures FieldFollows(Reloaded(s, LoadProbe(c)), id, f)
  {
  }

  lemma ReloadFollows(s: State, step: Step, id: Id, f: Field)
    requires step.LoadRead? || step.LoadProbe? || step.LoadInstall?
    requires FieldFollows(s, id, f)
    ensures FieldFollows(Reloaded(s, step), id, f)
  {
    match step
    case LoadRead(c) => LoadReadFollows(s, c, id, f);
    case LoadProbe(c) => LoadProbeFollows(s, c, id, f);
    case LoadInstall(c) => InstallFollows(s, c, id, f);
  }

  /** What the consumer holds, as far as a field of the row is concerned. */
  predicate HeldFollows(rows: map<Id, Row>, t: Turn, id: Id, f: Field)
    requires id in rows
  {
    && (t.Fetched? && t.message.id == id ==> t.was == rows[id].columns)
    && ((t.Found? || t.Ready?) && t.message.id == id ==> FollowsFrom(Some(t.row), rows[id], t.since, f))
  }

  lemma FetchFollows(s: State, ok: bool, id: Id, f: Field)
    requires id in s.rows && HeldFollows(s.rows, s.turn, id, f)
    ensures HeldFollows(s.rows, Consume(s, Fetch(ok)).turn, id, f)
  {
  }

  lemma ReadBackFollows(s: State, ok: bool, id: Id, f: Field)
    requires id in s.rows && HeldFollows(s.rows, s.turn, id, f)
    ensures HeldFollows(s.rows, Consume(s, ReadBack(ok)).turn, id, f)
  {
  }

  lemma ProbeFollows(s: State, id: Id, f: Field)
    requires id in s.rows && HeldFollows(s.rows, s.turn, id, f)
    ensures HeldFollows(s.rows, Consume(s, ProbeFound).turn, id, f)
  {
  }

  lemma WaitingFollows(s: State, step: Step, id: Id, f: Field)
    requires step.Receive? || step.Fetch? || step.ReadBack? || step.ProbeFound?
    requires id in s.rows && HeldFollows(s.rows, s.turn, id, f)
    ensures HeldFollows(s.rows, Consume(s, step).turn, id, f)
  {
    match step
    case Receive =>
    case Fetch(ok) => FetchFollows(s, ok, id, f);
    case ReadBack(ok) => ReadBackFollows(s, ok, id, f);
    case ProbeFound => ProbeFollows(s, id, f);
  }

  lemma CachingFollows(s: State, id: Id, f: Field)
    requires FieldFollows(s, id, f) && s.turn.Ready?
    ensures FieldFollows(Consume(s, PutInCache), id, f)
  {
    assert Consume(s, PutInCache).loads == s.loads;
  }

  lemma ConsumeFollows(s: State, step: Step, id: Id, f: Field)
    requires step.Receive? || step.Fetch? || step.ReadBack? || step.ProbeFound? || step.PutInCache?
    requires FieldFollows(s, id, f)
    ensures FieldFollows(Consume(s, step), id, f)
  {
    match step
    case Receive | Fetch(_) | ReadBack(_) | ProbeFound =>
      WaitingSame(s, step);
      WaitingFollows(s, step, id, f);
    case PutInCache => if s.turn.Ready? { CachingFollows(s, id, f); }
  }

  lemma ApplyFollows(s: State, step: Step, id: Id, f: Field)
    requires FieldFollows(s, id, f) && LeavesRow(step, id)
    ensures FieldFollows(Apply(s, step), id, f)
  {
    match step
    case Submit(_) | Refresh | ChangePath(_) =>
    case ChangeRow(x, row) => WriteElsewhereFollows(s, x, Put(row), id, f);
    case LoadRead(_) | LoadProbe(_) | LoadInstall(_) => ReloadFollows(s, step, id, f);
    case Store(ok) => if ok && s.turn.Fetched? { StoreKeepsFollowing(s, id, f); }
    case Receive | Fetch(_) | ReadBack(_) | ProbeFound | PutInCache => ConsumeFollows(s, step, id, f);
  }

  lemma {:induction false} RunFieldFollows(rows: map<Id, Row>, path: Path, steps: seq<Step>, id: Id, f: Field)
    requires id in rows && forall step <- steps :: LeavesRow(step, id)
    ensures FieldFollows(Run(Initial(rows, path), steps), id, f)
  {
    if steps != [] {
      var n := |steps| - 1;
      assert steps[n] in steps;
      RunFieldFollows(rows, path, steps[..n], id, f);
      ApplyFollows(Run(Initial(rows, path), steps[..n]), steps[n], id, f);
    }
  }

  /** A field that no handshake gave since its entry was read shows the last value stored in it, or the first. */
  lemma CachedFieldHoldsLast(rows: map<Id, Row>, path: Path, steps: seq<Step>, id: Id, f: Field)
    requires id in rows && forall step <- steps :: LeavesRow(step, id)
    ensures var s := Run(Initial(rows, path), steps);
            var last := LastGiven(s.stores, id, f);
            id in s.cache && GivenLast(Of(s.behind, id), f).None? ==>
              s.cache[id].persisted.handshake.At(f) == if last.Some? then last else Parse(rows[id].columns.At(f))
  {
    var s := Run(Initial(rows, path), steps);
    FieldHoldsLast(rows, path, steps, id, f);
    RunFieldFollows(rows, path, steps, id, f);
    StartsTracked(rows, path, id);
    RunKeepsEntry(Initial(rows, path), steps, id);
    if id in s.cache { ParseEach(s.seen[id].columns, f); }
  }

  // ---- An overtaken reload ----

  predicate LeavesLoad(step: Step, c: CallId) { step != LoadInstall(c) }

  /** A reload that is under way, after a step that is not its install. */
  predicate LoadLeft(s: State, t: State, c: CallId)
    requires c in s.loads
  {
    && c in t.loads && t.loads[c].rows == s.loads[c].rows
    && (s.loads[c].entries.Some? ==> t.loads[c].entries == s.loads[c].entries)
  }

  lemma WriteLeavesLoads(s: State, id: Id, ch: Change, c: CallId)
    requires c in s.loads
    ensures LoadLeft(s, WriteRow(s, id, ch), c)
  {
  }

  lemma StoreLeavesLoads(s: State, m: Message, was: Fields<Column>, c: CallId)
    requires c in s.loads
    ensures LoadLeft(s, DoStore(s, m, was), c)
  {
    WriteLeavesLoads(s.(turn := Written(m)), m.id, Stored(Merge(was, m.partial), m.partial), c);
  }

  lemma LoadStays(s: State, step: Step, c: CallId)
    requires c in s.loads && LeavesLoad(step, c)
    ensures LoadLeft(s, Apply(s, step), c)
  {
    match step
    case Submit(_) | Refresh | ChangePath(_) =>
    case ChangeRow(id, row) => WriteLeavesLoads(s, id, Put(row), c);
    case LoadRead(_) | LoadProbe(_) | LoadInstall(_) => assert LoadLeft(s, Reloaded(s, step), c);
    case Store(_) => if s.turn.Fetched? { StoreLeavesLoads(s, s.turn.message, s.turn.was, c); }
    case Receive | Fetch(_) | ReadBack(_) | ProbeFound => WaitingSame(s, step);
    case PutInCache => assert Consume(s, step).loads == s.loads;
  }

  lemma {:induction false} LoadWaits(s: State, steps: seq<Step>, c: CallId)
    requires c in s.loads && forall step <- steps :: LeavesLoad(step, c)
    ensures LoadLeft(s, Run(s, steps), c)
  {
    if steps != [] {
      var n := |steps| - 1;
      assert steps[n] in steps;
      LoadWaits(s, steps[..n], c);
      LoadStays(Run(s, steps[..n]), steps[n], c);
    }
  }

  lemma StoreAdds(s: State, step: Step)
    ensures s.stores <= Apply(s, step).stores
  {
    match step
    case Submit(_) | Refresh | ChangePath(_) | ChangeRow(_, _) =>
    case LoadRead(_) | LoadProbe(_) | LoadInstall(_) => assert Reloaded(s, step).stores == s.stores;
    case Store(_) =>
    case Receive | Fetch(_) | ReadBack(_) | ProbeFound => WaitingSame(s, step);
    case PutInCache => assert Consume(s, step).stores == s.stores;
  }

  lemma {:induction false} StoresGrow(s: State, steps: seq<Step>)
    ensures s.stores <= Run(s, steps).stores
  {
    if steps != [] {
      var n := |steps| - 1;
      StoresGrow(s, steps[..n]);
      StoreAdds(Run(s, steps[..n]), steps[n]);
    }
  }

  /** A row in which some handshakes were stored decodes as before. */
  lemma KeptAlikeIff(u: State, was: Row, from: nat, id: Id)
    requires was.known && forall f: Field :: FieldOk(u, was, from, id, f)
    ensures from <= |u.stores| && id in u.rows
    ensures Decode(u.rows[id]) == Decode(was)
            <==> forall f: Field :: LastGiven(u.stores[from..], id, f).None?
                                    || LastGiven(u.stores[from..], id, f) == ParseAll(was.columns).At(f)
  {
    assert FieldOk(u, was, from, id, Capabilities);
    ParsedAlike(u.rows[id].columns, was.columns);
    forall f: Field
      ensures Parse(u.rows[id].columns.At(f)) == Parse(was.columns.At(f))
              <==> LastGiven(u.stores[from..], id, f).None?
                   || LastGiven(u.stores[from..], id, f) == ParseAll(was.columns).At(f)
    {
      assert FieldOk(u, was, from, id, f);
      ParseEach(was.columns, f);
    }
  }

  /** What an install shows of a row is what the reload read. */
  lemma InstallShows(s: State, steps: seq<Step>, c: CallId, id: Id)
    requires EntryOk(s, id) && c !in s.loads && forall step <- steps :: LeavesLoad(step, c)
    ensures var u := Run(Apply(s, LoadRead(c)), steps);
            c in u.loads && u.loads[c].rows == s.rows
            && RowAt(u.rows, id) == Replay(RowAt(s.rows, id), Of(u.loads[c].since, id))
            && (u.loads[c].entries.Some? ==> CachedAt(Apply(u, LoadInstall(c)).cache, id) == DecodedAt(s.rows, id)
                                             && Apply(u, LoadInstall(c)).rows == u.rows)
  {
    var r := Apply(s, LoadRead(c));
    var u := Run(r, steps);
    LoadWaits(r, steps, c);
    ApplyKeepsEntry(s, LoadRead(c), id);
    RunKeepsEntry(r, steps, id);
    assert LoadOk(u.rows, u.loads[c], id);
  }

  /**
   A reload reads the rows, anything else happens, other reloads included, then it installs. What
   it installs agrees exactly with the rows that the writes since its read leave as they were.
   */
  lemma OvertakenReloadIff(s: State, steps: seq<Step>, c: CallId, id: Id)
    requires EntryOk(s, id) && c !in s.loads && forall step <- steps :: LeavesLoad(step, c)
    ensures var u := Run(Apply(s, LoadRead(c)), steps);
            c in u.loads && (u.loads[c].entries.Some? ==>
              (Agrees(Apply(u, LoadInstall(c)), id) <==> EndsAsItWas(RowAt(s.rows, id), Of(u.loads[c].since, id))))
  {
    InstallShows(s, steps, c, id);
    EndsIff(RowAt(s.rows, id), Of(Run(Apply(s, LoadRead(c)), steps).loads[c].since, id));
  }

  /**
   If only the consumer writes the row, an entry agrees with it after the install exactly when the
   handshakes stored in between gave each of its fields nothing, or last what was read.
   */
  lemma ReloadAgreesIff(s: State, steps: seq<Step>, c: CallId, id: Id)
    requires EntryOk(s, id) && c !in s.loads && id in s.rows && s.rows[id].known && FetchCurrent(s, id)
    requires forall step <- steps :: LeavesLoad(step, c) && LeavesRow(step, id)
    ensures s.stores <= Run(Apply(s, LoadRead(c)), steps).stores
    ensures var u := Run(Apply(s, LoadRead(c)), steps);
            var between := u.stores[|s.stores|..];
            c in u.loads && (u.loads[c].entries.Some? ==>
              (Agrees(Apply(u, LoadInstall(c)), id)
               <==> forall f: Field :: LastGiven(between, id, f).None?
                                       || LastGiven(between, id, f) == ParseAll(s.rows[id].columns).At(f)))
  {
    var r := Apply(s, LoadRead(c));
    StoresGrow(r, steps);
    InstallShows(s, steps, c, id);
    var u := Run(r, steps);
    forall f: Field ensures FieldOk(u, s.rows[id], |s.stores|, id, f) { RunKeepsField(r, steps, id, f); }
    KeptAlikeIff(u, s.rows[id], |s.stores|, id);
  }

  lemma FetchedMeanwhile(id: Id, row: Row, m: Message, path: Path)
    requires m.id == id
    ensures var read := Apply(Apply(Initial(map[id := row], path), Submit(m)), LoadRead(0));
            var fetched := Apply(Apply(read, Receive), Fetch(true));
            && fetched.queue == [] && fetched.turn == Fetched(m, row.columns) && fetched.path == path
            && fetched.rows == map[id := row] && fetched.loads == map[0 := Load(map[id := row], None, map[])]
  {
    var read := Apply(Apply(Initial(map[id := row], path), Submit(m)), LoadRead(0));
    assert read.queue == [m] && read.loads == map[0 := Load(map[id := row], None, map[])];
    assert read.turn.Idle? && read.rows == map[id := row] && read.path == path;
    var received := Apply(read, Receive);
    assert received == read.(queue := [], turn := InHand(m));
  }

  lemma StoredMeanwhile(fetched: State, id: Id, row: Row, m: Message)
    requires m.id == id && fetched.turn == Fetched(m, row.columns) && fetched.rows == map[id := row]
    requires fetched.loads == map[0 := Load(map[id := row], None, map[])]
    ensures var stored := Apply(fetched, Store(true));
            && stored.queue == fetched.queue && stored.turn == Written(m) && stored.path == fetched.path
            && stored.rows == map[id := row.(columns := Merge(row.columns, m.partial))]
            && stored.loads.Keys == {0} && stored.loads[0].rows == map[id := row] && stored.loads[0].entries.None?
  {
    assert Apply(fetched, Store(true)) == DoStore(fetched, m, row.columns);
  }

  lemma InstallAfter(stored: State, m: Message)
    requires stored.turn == Written(m) && m.id in stored.rows && stored.rows[m.id].known
    requires stored.loads.Keys == {0} && stored.loads[0].entries.None?
    ensures var cached := Apply(Apply(Apply(stored, ReadBack(true)), ProbeFound), PutInCache);
            var s := Apply(Apply(cached, LoadProbe(0)), LoadInstall(0));
            && s.queue == stored.queue && s.turn.Idle? && s.rows == stored.rows && s.loads == map[]
            && s.cache == Install(stored.loads[0].rows, stored.path)
  {
    var probed := Apply(Apply(stored, ReadBack(true)), ProbeFound);
    assert probed.turn.Ready? && probed == stored.(turn := probed.turn);
    var cached := Apply(probed, PutInCache);
    assert cached.turn.Idle? && cached.loads == stored.loads && cached.rows == stored.rows
           && cached.path == stored.path;
    var t := Apply(cached, LoadProbe(0));
    assert t.loads.Keys == {0} && t.rows == stored.rows && t.turn.Idle? && t.queue == stored.queue;
    assert t.loads - {0} == map[];
  }

  /** An update applied while a reload is under way is lost from the cache, though not from the table. */
  lemma OvertakenReload(id: Id, row: Row, m: Message, path: Path)
    requires row.known && m.id == id && m.partial.capabilities == Some(1) && row.columns.capabilities == None
    ensures var read := Apply(Apply(Initial(map[id := row], path), Submit(m)), LoadRead(0));
            var stored := Apply(Apply(Apply(read, Receive), Fetch(true)), Store(true));
            var cached := Apply(Apply(Apply(stored, ReadBack(true)), ProbeFound), PutInCache);
            var s := Apply(Apply(cached, LoadProbe(0)), LoadInstall(0));
            && s.queue == [] && s.turn.Idle? && s.loads == map[] && id in s.rows && id in s.cache
            && s.rows[id].columns.capabilities == Some(Encoded(1))
            && s.cache[id].persisted.handshake.capabilities == None
  {
    FetchedMeanwhile(id, row, m, path);
    var read := Apply(Apply(Initial(map[id := row], path), Submit(m)), LoadRead(0));
    StoredMeanwhile(Apply(Apply(read, Receive), Fetch(true)), id, row, m);
    InstallAfter(Apply(Apply(Apply(read, Receive), Fetch(true)), Store(true)), m);
  }

  // ---- Availability ----

  /** The entry's availability and its command's place are what the path gives. */
  predicate IsShown(m: Metadata, path: Path) {
    && m.available == IsOffered(m.persisted.spec, path)
    && m.resolved == SpawnsAt(m.persisted.spec, path)
  }

  lemma ProbedIsShown(p: Persisted, path: Path)
    ensures IsShown(Probed(p, path), path) && Probed(p, path).persisted == p
  {
    ProbeIff(p.spec, path);
  }

  predicate AllShown(entries: map<Id, Metadata>, path: Path) { forall id <- entries :: IsShown(entries[id], path) }

  predicate IsCurrent(s: State) { AllShown(s.cache, s.path) }

  /** Nothing that was probed and is yet to be cached or installed is out of date. */
  ghost predicate PendingCurrent(s: State) {
    && (s.turn.Ready? ==> IsShown(s.turn.entry, s.path))
    && forall c <- s.loads :: s.loads[c].entries.Some? ==> AllShown(s.loads[c].entries.value, s.path)
  }

  lemma RefreshCurrent(s: State)
    ensures IsCurrent(Apply(s, Refresh)) && Apply(s, Refresh).cache == Reprobe(s.cache, s.path)
  {
    hide IsOffered, SpawnsAt, Probed, IsShown;
    forall x <- s.cache
      ensures var p := s.cache[x].persisted; IsShown(Probed(p, s.path), s.path) && Probed(p, s.path).persisted == p
    {
      ProbedIsShown(s.cache[x].persisted, s.path);
    }
  }

  /** A refresh makes every entry's availability current and changes nothing else. */
  lemma RefreshShows(s: State, id: Id)
    ensures var t := Apply(s, Refresh);
            IsCurrent(t) && t == s.(cache := t.cache) && CachedAt(t.cache, id) == CachedAt(s.cache, id)
  {
    RefreshCurrent(s);
  }

  ghost predicate BothCurrent(s: State) { IsCurrent(s) && PendingCurrent(s) }

  lemma WriteStaysCurrent(s: State, id: Id, c: Change)
    requires BothCurrent(s)
    ensures BothCurrent(WriteRow(s, id, c))
  {
  }

  lemma CachingStaysCurrent(s: State)
    requires BothCurrent(s) && s.turn.Ready?
    ensures BothCurrent(Consume(s, PutInCache))
  {
    assert Consume(s, PutInCache).loads == s.loads;
  }

  lemma StoreStaysCurrent(s: State, m: Message, was: Fields<Column>)
    requires BothCurrent(s)
    ensures BothCurrent(DoStore(s, m, was))
  {
    WriteStaysCurrent(s.(turn := Written(m)), m.id, Stored(Merge(was, m.partial), m.partial));
  }

  lemma ProbeStaysCurrent(s: State)
    requires BothCurrent(s) && s.turn.Found?
    ensures BothCurrent(Consume(s, ProbeFound))
  {
    hide IsOffered, SpawnsAt, Probed, IsShown;
    if Decode(s.turn.row).Some? { ProbedIsShown(Decode(s.turn.row).value, s.path); }
    ProbeSame(s);
  }

  lemma NoEntryHeld(s: State, step: Step)
    requires step.Receive? || step.Fetch? || step.ReadBack?
    ensures Consume(s, step) == s || !Consume(s, step).turn.Ready?
  {
  }

  lemma ConsumeStaysCurrent(s: State, step: Step)
    requires step.Receive? || step.Fetch? || step.Store? || step.ReadBack? || step.ProbeFound? || step.PutInCache?
    requires BothCurrent(s)
    ensures BothCurrent(Consume(s, step))
  {
    match step
    case Store(ok) => if ok && s.turn.Fetched? { StoreStaysCurrent(s, s.turn.message, s.turn.was); }
    case PutInCache => if s.turn.Ready? { CachingStaysCurrent(s); }
    case ProbeFound => if s.turn.Found? { ProbeStaysCurrent(s); }
    case Receive | Fetch(_) | ReadBack(_) =>
      NoEntryHeld(s, step);
      WaitingSame(s, step);
  }

  lemma ReloadStaysCurrent(s: State, step: Step)
    requires step.LoadRead? || step.LoadProbe? || step.LoadInstall?
    requires BothCurrent(s)
    ensures BothCurrent(Reloaded(s, step))
  {
  }

  lemma ApplyStaysCurrent(s: State, step: Step)
    requires BothCurrent(s) && !step.ChangePath?
    ensures BothCurrent(Apply(s, step))
  {
    hide IsOffered, SpawnsAt, Probed, IsShown, Reprobe, WriteRow, DoStore;
    match step
    case Submit(_) | ChangePath(_) =>
    case Refresh => RefreshCurrent(s);
    case ChangeRow(id, row) => WriteStaysCurrent(s, id, Put(row));
    case LoadRead(_) | LoadProbe(_) | LoadInstall(_) => ReloadStaysCurrent(s, step);
    case _ => ConsumeStaysCurrent(s, step);
  }

  ghost predicate PathStays(steps: seq<Step>) { forall step <- steps :: !step.ChangePath? }

  lemma {:induction false} RunStaysCurrent(s: State, steps: seq<Step>)
    requires BothCurrent(s) && PathStays(steps)
    ensures BothCurrent(Run(s, steps))
  {
    if steps != [] {
      var n := |steps| - 1;
      assert steps[n] in steps;
      RunStaysCurrent(s, steps[..n]);
      ApplyStaysCurrent(Run(s, steps[..n]), steps[n]);
    }
  }

  lemma OneStep(s: State, step: Step)
    ensures Run(s, [step]) == Apply(s, step)
  {
    assert [step][..0] == [];
  }

  lemma PendingBreaks(s: State) returns (step: Step)
    requires !PendingCurrent(s)
    ensures !step.ChangePath? && !IsCurrent(Apply(s, step))
  {
    if s.turn.Ready? && !IsShown(s.turn.entry, s.path) {
      step := PutInCache;
      var id := s.turn.message.id;
      assert Apply(s, step).cache[id] == s.turn.entry;
    } else {
      var c :| c in s.loads && s.loads[c].entries.Some? && !AllShown(s.loads[c].entries.value, s.path);
      step := LoadInstall(c);
    }
  }

  /**
   From a state in which every entry is current, they stay so in all runs without a change of the
   path exactly when nothing that was probed before and is yet to be installed is out of date.
   */
  lemma StaysCurrentIff(s: State)
    requires IsCurrent(s)
    ensures (forall steps | PathStays(steps) :: IsCurrent(Run(s, steps))) <==> PendingCurrent(s)
  {
    if PendingCurrent(s) {
      forall steps | PathStays(steps) ensures IsCurrent(Run(s, steps)) { RunStaysCurrent(s, steps); }
    } else {
      var step := PendingBreaks(s);
      OneStep(s, step);
      assert PathStays([step]);
    }
  }

  /** Two paths give a row the same availability. */
  predicate SameOutcome(s: Spec, a: Path, b: Path) {
    IsOffered(s, a) == IsOffered(s, b) && SpawnsAt(s, a) == SpawnsAt(s, b)
  }

  lemma ShownLater(p: Persisted, before: Path, now: Path)
    ensures IsShown(Probed(p, before), now) <==> SameOutcome(p.spec, before, now)
  {
    hide IsOffered, SpawnsAt, Probed;
    ProbedIsShown(p, before);
  }

  /**
   A reload probes, anything else happens, then it installs. Every entry is current exactly when
   the path at the probe and the path at the install give every row that it read the same.
   */
  lemma InstallCurrentIff(s: State, steps: seq<Step>, c: CallId)
    requires c in s.loads && s.loads[c].entries.None? && forall step <- steps :: LeavesLoad(step, c)
    ensures var u := Run(Apply(s, LoadProbe(c)), steps);
            IsCurrent(Apply(u, LoadInstall(c)))
            <==> forall id <- s.loads[c].rows :: Decode(s.loads[c].rows[id]).Some? ==>
                   SameOutcome(s.loads[c].rows[id].spec, s.path, u.path)
  {
    hide IsOffered, SpawnsAt, Probed, IsShown;
    var a := Apply(s, LoadProbe(c));
    LoadWaits(a, steps, c);
    var u := Run(a, steps);
    var t := Apply(u, LoadInstall(c));
    var rows := s.loads[c].rows;
    assert t.cache == Install(rows, s.path) && t.path == u.path;
    forall id | id in rows && Decode(rows[id]).Some?
      ensures IsShown(t.cache[id], t.path) <==> SameOutcome(rows[id].spec, s.path, u.path)
    {
      ShownLater(Decode(rows[id]).value, s.path, u.path);
    }
  }

  lemma ReadyStays(s: State, step: Step)
    requires s.turn.Ready? && !step.PutInCache?
    ensures var t := Apply(s, step).turn;
            t.Ready? && t.message == s.turn.message && t.entry == s.turn.entry
  {
    match step
    case Submit(_) | Refresh | ChangePath(_) | ChangeRow(_, _) =>
    case LoadRead(_) | LoadProbe(_) | LoadInstall(_) => assert Reloaded(s, step).turn == s.turn;
    case Receive | Fetch(_) | Store(_) | ReadBack(_) | ProbeFound => assert Consume(s, step) == s;
    case PutInCache =>
  }

  lemma {:induction false} ReadyWaits(s: State, steps: seq<Step>)
    requires s.turn.Ready? && forall step <- steps :: !step.PutInCache?
    ensures var t := Run(s, steps).turn;
            t.Ready? && t.message == s.turn.message && t.entry == s.turn.entry
  {
    if steps != [] {
      var n := |steps| - 1;
      assert steps[n] in steps;
      ReadyWaits(s, steps[..n]);
      ReadyStays(Run(s, steps[..n]), steps[n]);
    }
  }

  lemma CachingShows(u: State)
    requires u.turn.Ready? && IsCurrent(u)
    ensures IsCurrent(Apply(u, PutInCache)) <==> IsShown(u.turn.entry, u.path)
  {
    var t, id := Apply(u, PutInCache), u.turn.message.id;
    assert t.cache == u.cache[id := u.turn.entry] && t.path == u.path;
    if IsCurrent(t) { assert id in t.cache; }
  }

  /** The same for the consumer, which probes a row that it read back and caches it later. */
  lemma CachingCurrentIff(s: State, steps: seq<Step>)
    requires s.turn.Found? && Decode(s.turn.row).Some? && forall step <- steps :: !step.PutInCache?
    ensures var u := Run(Apply(s, ProbeFound), steps);
            IsCurrent(u) ==>
              (IsCurrent(Apply(u, PutInCache)) <==> SameOutcome(s.turn.row.spec, s.path, u.path))
  {
    hide IsOffered, SpawnsAt, Probed, IsShown;
    var a := Apply(s, ProbeFound);
    ReadyWaits(a, steps);
    var u := Run(a, steps);
    if IsCurrent(u) { CachingShows(u); }
    ShownLater(Decode(s.turn.row).value, s.path, u.path);
  }

  /** A reload probes, the path changes, a refresh makes every entry current, and the reload installs what it probed. */
  lemma RefreshIsUndone(id: Id, row: Row, before: Path, now: Path)
    requires row.known && !SameOutcome(row.spec, before, now)
    ensures var s := Apply(Apply(Initial(map[id := row], before), LoadRead(0)), LoadProbe(0));
            var refreshed := Apply(Apply(s, ChangePath(now)), Refresh);
            IsCurrent(refreshed) && !IsCurrent(Apply(refreshed, LoadInstall(0)))
  {
    var s := Apply(Apply(Initial(map[id := row], before), LoadRead(0)), LoadProbe(0));
    var refreshed := Apply(Apply(s, ChangePath(now)), Refresh);
    assert refreshed.loads[0].entries.value == Install(map[id := row], before);
    assert id in Install(map[id := row], before);
  }
}
