/** Bulk import of assistants: insert only, one outcome for every entry. */
module AssistantImport {
  import opened Wrappers
  import opened Assistants
  import Text

  /** The fields that are stored as given are one text here. */
  datatype Row = Row(name: string, agentType: string, fields: string)

  datatype Entry = Entry(id: Option<Id>, name: string, agentType: Option<string>, fields: string)

  /** An entry and what happens around it: its id if it has to be made up, and what goes wrong. */
  datatype Attempt = Attempt(
    entry: Entry,
    generated: Id,
    getFails: bool,
    serializes: bool,
    raced: Option<Row>,
    createFails: bool
  )

  datatype Result = Result(imported: nat, skipped: nat, failed: nat, errors: seq<Id>)

  datatype State = State(rows: map<Id, Row>, result: Result)

  /** The ids that are not the user's: built-in assistants and those of extensions. */
  datatype Registry = Registry(builtin: set<Id>, extension: set<Id>) {
    predicate Owns(id: Id) { id in builtin || id in extension }
  }

  predicate HasId(e: Entry) { e.id.Some? && e.id.value.text != "" }

  function IdOf(a: Attempt): Id { if HasId(a.entry) then a.entry.id.value else a.generated }

  function RowOf(e: Entry): Row {
    Row(Text.Trim(e.name), if e.agentType.Some? then e.agentType.value else DEFAULT_AGENT_TYPE, e.fields)
  }

  predicate IsBlank(e: Entry) { Text.Trim(e.name) == "" }

  datatype Outcome = Imported | Skipped | Failed

  function OutcomeOf(reg: Registry, rows: map<Id, Row>, a: Attempt): Outcome {
    if reg.Owns(IdOf(a)) then Skipped
    else if a.getFails then Failed
    else if IdOf(a) in rows then Skipped
    else if IsBlank(a.entry) || !a.serializes then Failed
    else if a.raced.Some? then (if a.createFails then Failed else Skipped)
    else if a.createFails then Failed
    else Imported
  }

  /** Whether the create is reached, so that a rival that came first is noticed. */
  predicate ReachesCreate(reg: Registry, rows: map<Id, Row>, a: Attempt) {
    !reg.Owns(IdOf(a)) && !a.getFails && IdOf(a) !in rows && !IsBlank(a.entry) && a.serializes
  }

  function RowsAfter(reg: Registry, rows: map<Id, Row>, a: Attempt): map<Id, Row> {
    if !ReachesCreate(reg, rows, a) then rows
    else if a.raced.Some? then rows[IdOf(a) := a.raced.value]
    else if a.createFails then rows
    else rows[IdOf(a) := RowOf(a.entry)]
  }

  function Count(r: Result, o: Outcome, id: Id): Result {
    match o
    case Imported => r.(imported := r.imported + 1)
    case Skipped => r.(skipped := r.skipped + 1)
    case Failed => r.(failed := r.failed + 1, errors := r.errors + [id])
  }

  function ImportOne(reg: Registry, s: State, a: Attempt): State {
    State(RowsAfter(reg, s.rows, a), Count(s.result, OutcomeOf(reg, s.rows, a), IdOf(a)))
  }

  function Import(reg: Registry, rows: map<Id, Row>, request: seq<Attempt>): State {
    if request == [] then State(rows, Result(0, 0, 0, []))
    else ImportOne(reg, Import(reg, rows, request[..|request| - 1]), request[|request| - 1])
  }

  // ---- Accounting ----

  lemma {:induction false} EveryEntryIsCounted(reg: Registry, rows: map<Id, Row>, request: seq<Attempt>)
    ensures var r := Import(reg, rows, request).result;
            r.imported + r.skipped + r.failed == |request| && |r.errors| == r.failed
  {
    if request != [] { EveryEntryIsCounted(reg, rows, request[..|request| - 1]); }
  }

  /** The id of an entry: its own, or the one made up for it if that is missing or empty. */
  predicate HasTheId(a: Attempt, id: Id) {
    match a.entry.id
    case Some(own) => id == if own.text == "" then a.generated else own
    case None => id == a.generated
  }

  /** What keeps an entry out of the table before it is created. */
  predicate IsStopped(there: map<Id, Row>, a: Attempt, id: Id) {
    a.getFails || id in there || Text.Trim(a.entry.name) == "" || !a.serializes
  }

  /** Skipped: the id is not the user's, or is stored by then, or a rival came first. */
  predicate IsSkipped(reg: Registry, there: map<Id, Row>, a: Attempt, id: Id) {
    || id in reg.builtin || id in reg.extension
    || (!a.getFails && id in there)
    || (!IsStopped(there, a, id) && a.raced.Some? && !a.createFails)
  }

  /** Failed: the lookup, the name, the encoding or the create, and nothing skips the entry before that. */
  predicate IsFailed(reg: Registry, there: map<Id, Row>, a: Attempt, id: Id) {
    && id !in reg.builtin && id !in reg.extension
    && (a.getFails || (id !in there && (Text.Trim(a.entry.name) == "" || !a.serializes || a.createFails)))
  }

  /** The table as an entry finds it. */
  function There(reg: Registry, rows: map<Id, Row>, request: seq<Attempt>, k: nat): map<Id, Row>
    requires k <= |request|
  {
    Import(reg, rows, request[..k]).rows
  }

  function Skips(reg: Registry, rows: map<Id, Row>, request: seq<Attempt>): nat {
    if request == [] then 0
    else
      var n := |request| - 1;
      Skips(reg, rows, request[..n])
      + if IsSkipped(reg, There(reg, rows, request, n), request[n], IdOf(request[n])) then 1 else 0
  }

  /** The ids of the entries that fail, in order. */
  function FailedIds(reg: Registry, rows: map<Id, Row>, request: seq<Attempt>): seq<Id> {
    if request == [] then []
    else
      var n := |request| - 1;
      FailedIds(reg, rows, request[..n])
      + if IsFailed(reg, There(reg, rows, request, n), request[n], IdOf(request[n])) then [IdOf(request[n])] else []
  }

  lemma OutcomeIs(reg: Registry, there: map<Id, Row>, a: Attempt)
    ensures OutcomeOf(reg, there, a).Skipped? <==> IsSkipped(reg, there, a, IdOf(a))
    ensures OutcomeOf(reg, there, a).Failed? <==> IsFailed(reg, there, a, IdOf(a))
  {
  }

  lemma IdIsOwnOrMadeUp(a: Attempt, id: Id)
    ensures HasTheId(a, id) <==> id == IdOf(a)
  {
  }

  /**
   Every entry is skipped, fails or is imported, as its id, the table that it finds and what goes
   wrong say; the errors are the ids of exactly the failed entries, in order.
   */
  lemma {:induction false} OutcomesAre(reg: Registry, rows: map<Id, Row>, request: seq<Attempt>)
    ensures var r := Import(reg, rows, request).result;
            && r.skipped == Skips(reg, rows, request)
            && r.errors == FailedIds(reg, rows, request) && r.failed == |r.errors|
            && r.imported == |request| - r.skipped - r.failed
  {
    hide OutcomeOf, IsSkipped, IsFailed, RowsAfter;
    if request != [] {
      var n := |request| - 1;
      OutcomesAre(reg, rows, request[..n]);
      OutcomeIs(reg, There(reg, rows, request, n), request[n]);
    }
  }

  /** What one entry leaves: nothing, the row of a rival that came first, or its own. */
  lemma EntryStores(reg: Registry, rows: map<Id, Row>, request: seq<Attempt>, k: nat)
    requires k < |request|
    ensures var there, a := There(reg, rows, request, k), request[k];
            var reached := !reg.Owns(IdOf(a)) && !IsStopped(there, a, IdOf(a));
            var after := There(reg, rows, request, k + 1);
            if reached && a.raced.Some? then after == there[IdOf(a) := a.raced.value]
            else if reached && !a.createFails then
              && IdOf(a) in after && after == there[IdOf(a) := after[IdOf(a)]]
              && after[IdOf(a)].name == Text.Trim(a.entry.name) && after[IdOf(a)].fields == a.entry.fields
              && after[IdOf(a)].agentType == (match a.entry.agentType case Some(t) => t case None => "gemini")
            else after == there
  {
    assert request[..k + 1][..k] == request[..k];
  }

  /** No row is altered or lost, and none appears under an id that is not the user's. */
  lemma {:induction false} OnlyInserts(reg: Registry, rows: map<Id, Row>, request: seq<Attempt>)
    ensures var after := Import(reg, rows, request).rows;
            && (forall id <- rows :: id in after && after[id] == rows[id])
            && (forall id <- after :: id in rows || !reg.Owns(id))
  {
    if request != [] { OnlyInserts(reg, rows, request[..|request| - 1]); }
  }

  /** The entry at `k` would be stored if nothing of its id were. */
  predicate IsImportable(reg: Registry, a: Attempt) {
    !reg.Owns(IdOf(a)) && !a.getFails && !IsBlank(a.entry) && a.serializes && a.raced.None? && !a.createFails
  }

  predicate NoRivals(request: seq<Attempt>) { forall a <- request :: a.raced.None? }

  /** The first importable entry of an id, if there is one. */
  function FirstFor(reg: Registry, request: seq<Attempt>, id: Id): Option<Entry> {
    if request == [] then None
    else
      var before, last := FirstFor(reg, request[..|request| - 1], id), request[|request| - 1];
      if before.None? && IdOf(last) == id && IsImportable(reg, last) then Some(last.entry) else before
  }

  /**
   The table afterwards: the rows it had, and for every other id the row of the first entry that
   could be stored, with its name trimmed.
   */
  lemma {:induction false} FirstEntryWins(reg: Registry, rows: map<Id, Row>, request: seq<Attempt>, id: Id)
    requires NoRivals(request) && id !in rows
    ensures var after := Import(reg, rows, request).rows;
            var first := FirstFor(reg, request, id);
            && (id in after <==> first.Some?)
            && (first.Some? ==>
                  && after[id].name == Text.Trim(first.value.name) && after[id].fields == first.value.fields
                  && after[id].agentType == (match first.value.agentType case Some(t) => t case None => "gemini"))
  {
    if request != [] { FirstEntryWins(reg, rows, request[..|request| - 1], id); }
  }

  /** The count of imported entries is how much the table grew. */
  lemma {:induction false} ImportedAreCreated(reg: Registry, rows: map<Id, Row>, request: seq<Attempt>)
    requires NoRivals(request)
    ensures |Import(reg, rows, request).rows| == |rows| + Import(reg, rows, request).result.imported
  {
    if request != [] { ImportedAreCreated(reg, rows, request[..|request| - 1]); }
  }

  // ---- Importing again ----

  /** The database works and every entry serializes. */
  predicate IsClean(request: seq<Attempt>) {
    forall a <- request :: !a.getFails && a.serializes && a.raced.None? && !a.createFails
  }

  predicate SameEntries(a: seq<Attempt>, b: seq<Attempt>) {
    |a| == |b| && forall k | 0 <= k < |a| :: a[k].entry == b[k].entry
  }

  /** After a clean import, the id of every entry with a name is taken. */
  lemma {:induction false} CleanImportTakesIds(reg: Registry, rows: map<Id, Row>, request: seq<Attempt>)
    requires IsClean(request)
    ensures forall a <- request :: IsBlank(a.entry) || reg.Owns(IdOf(a)) || IdOf(a) in Import(reg, rows, request).rows
  {
    if request != [] {
      var n := |request| - 1;
      CleanImportTakesIds(reg, rows, request[..n]);
      assert request == request[..n] + [request[n]];
    }
  }

  lemma {:induction false} NothingReaches(reg: Registry, rows: map<Id, Row>, request: seq<Attempt>)
    requires forall a <- request :: !ReachesCreate(reg, rows, a)
    ensures Import(reg, rows, request).rows == rows && Import(reg, rows, request).result.imported == 0
  {
    if request != [] {
      var n := |request| - 1;
      NothingReaches(reg, rows, request[..n]);
      assert request[n] in request;
    }
  }

  /**
   Importing the same request again, after an import without errors and whatever goes wrong the
   second time, imports nothing and leaves the table as it is, if every entry has an id.
   */
  lemma SecondImportIsIdle(reg: Registry, rows: map<Id, Row>, first: seq<Attempt>, again: seq<Attempt>)
    requires IsClean(first) && SameEntries(first, again) && forall a <- first :: HasId(a.entry)
    ensures var t := Import(reg, rows, first).rows;
            Import(reg, t, again).rows == t && Import(reg, t, again).result.imported == 0
  {
    CleanImportTakesIds(reg, rows, first);
    var t := Import(reg, rows, first).rows;
    forall a | a in again ensures !ReachesCreate(reg, t, a) {
      var k :| 0 <= k < |again| && again[k] == a;
      assert first[k] in first && IdOf(first[k]) == IdOf(a);
    }
    NothingReaches(reg, t, again);
  }

  /** A request that leaves the table as it is: every entry finds the same. */
  lemma {:induction false} FindsTheSame(reg: Registry, rows: map<Id, Row>, request: seq<Attempt>, k: nat)
    requires k <= |request| && forall a <- request :: !ReachesCreate(reg, rows, a)
    ensures There(reg, rows, request, k) == rows
  {
    forall a <- request[..k] ensures !ReachesCreate(reg, rows, a) { assert a in request; }
    NothingReaches(reg, rows, request[..k]);
  }

  /**
   A clean repeat of a clean import with explicit ids skips every entry with a name. An entry fails
   only if its name is blank, and does so exactly if its id is neither owned nor stored.
   */
  lemma RepeatSkips(reg: Registry, rows: map<Id, Row>, first: seq<Attempt>, again: seq<Attempt>, k: nat)
    requires IsClean(first) && IsClean(again) && SameEntries(first, again) && forall a <- first :: HasId(a.entry)
    requires k < |again|
    ensures var t, a := Import(reg, rows, first).rows, again[k];
            && There(reg, t, again, k) == t
            && (Text.Trim(a.entry.name) != "" ==> IsSkipped(reg, t, a, IdOf(a)))
            && (IsFailed(reg, t, a, IdOf(a))
                <==> Text.Trim(a.entry.name) == "" && !reg.Owns(IdOf(a)) && IdOf(a) !in t)
            && (IsSkipped(reg, t, a, IdOf(a)) <==> !IsFailed(reg, t, a, IdOf(a)))
  {
    CleanImportTakesIds(reg, rows, first);
    var t := Import(reg, rows, first).rows;
    forall a | a in again ensures !ReachesCreate(reg, t, a) {
      var i :| 0 <= i < |again| && again[i] == a;
      assert first[i] in first && IdOf(first[i]) == IdOf(a);
    }
    FindsTheSame(reg, t, again, k);
    assert again[k] in again && first[k] in first;
  }

  lemma {:induction false} IdleMeansUnchanged(reg: Registry, rows: map<Id, Row>, request: seq<Attempt>)
    requires NoRivals(request) && Import(reg, rows, request).result.imported == 0
    ensures Import(reg, rows, request).rows == rows
    ensures forall a <- request :: OutcomeOf(reg, rows, a) != Imported
  {
    if request != [] {
      var n := |request| - 1;
      IdleMeansUnchanged(reg, rows, request[..n]);
      assert request == request[..n] + [request[n]];
    }
  }

  /**
   The import is meant to be idempotent. Between imports without errors it is, exactly when every
   entry that has a name has an id too: an id that is made up is a new one every time.
   */
  lemma SecondImportIff(reg: Registry, rows: map<Id, Row>, first: seq<Attempt>, again: seq<Attempt>)
    requires IsClean(first) && IsClean(again) && SameEntries(first, again)
    requires forall a <- again :: HasId(a.entry)
               || (!reg.Owns(a.generated) && a.generated !in Import(reg, rows, first).rows)
    ensures Import(reg, Import(reg, rows, first).rows, again).result.imported == 0
            <==> forall a <- first :: HasId(a.entry) || IsBlank(a.entry)
  {
    var t := Import(reg, rows, first).rows;
    CleanImportTakesIds(reg, rows, first);
    if forall a <- first :: HasId(a.entry) || IsBlank(a.entry) {
      forall a | a in again ensures !ReachesCreate(reg, t, a) {
        var k :| 0 <= k < |again| && again[k] == a;
        assert first[k] in first && (HasId(a.entry) ==> IdOf(first[k]) == IdOf(a));
      }
      NothingReaches(reg, t, again);
    } else {
      var b :| b in first && !HasId(b.entry) && !IsBlank(b.entry);
      var k :| 0 <= k < |first| && first[k] == b;
      assert again[k] in again && OutcomeOf(reg, t, again[k]) == Imported;
      if Import(reg, t, again).result.imported == 0 { IdleMeansUnchanged(reg, t, again); }
    }
  }

  // ---- The loop ----

  class Service {
    const registry: Registry
    var rows: map<Id, Row>

    constructor (registry: Registry, rows: map<Id, Row>)
      ensures this.registry == registry && this.rows == rows
    {
      this.registry, this.rows := registry, rows;
    }

    /** The insert: a row that is there by now is a conflict. */
    method Create(a: Attempt) returns (o: Outcome)
      requires ReachesCreate(registry, rows, a)
      modifies this
      ensures rows == RowsAfter(registry, old(rows), a) && o == OutcomeOf(registry, old(rows), a)
    {
      if a.raced.Some? { rows := rows[IdOf(a) := a.raced.value]; }
      if a.createFails { return Failed; }
      if IdOf(a) in rows { return Skipped; }
      rows := rows[IdOf(a) := RowOf(a.entry)];
      return Imported;
    }

    method ImportAll(request: seq<Attempt>) returns (r: Result)
      modifies this
      ensures State(rows, r) == Import(registry, old(rows), request)
    {
      r := Result(0, 0, 0, []);
      var k := 0;
      while k < |request|
        invariant 0 <= k <= |request|
        invariant State(rows, r) == Import(registry, old(rows), request[..k])
      {
        assert request[..k + 1][..k] == request[..k];
        var a := request[k];
        k := k + 1;
        var id := IdOf(a);
        if id in registry.builtin {
          r := r.(skipped := r.skipped + 1);
          continue;
        }
        if id in registry.extension {
          r := r.(skipped := r.skipped + 1);
          continue;
        }
        if a.getFails {
          r := r.(failed := r.failed + 1, errors := r.errors + [id]);
          continue;
        }
        if id in rows {
          r := r.(skipped := r.skipped + 1);
          continue;
        }
        if Text.Trim(a.entry.name) == "" {
          r := r.(failed := r.failed + 1, errors := r.errors + [id]);
          continue;
        }
        if !a.serializes {
          r := r.(failed := r.failed + 1, errors := r.errors + [id]);
          continue;
        }
        var o := Create(a);
        match o {
          case Imported => r := r.(imported := r.imported + 1);
          case Skipped => r := r.(skipped := r.skipped + 1);
          case Failed => r := r.(failed := r.failed + 1, errors := r.errors + [id]);
        }
      }
      assert request[..k] == request;
    }
  }
}
