/**
 The fixed-window rate limiter: a map from client keys to a count and the time it resets.

 The counter is a 32-bit word that wraps, as it does in a release build. Time does not run
 backwards, and each call is one step.
 */
module RateLimiter {
  datatype Key = Key(client: string)

  const WORD: nat := 0x1_0000_0000

  datatype Entry = Entry(count: nat, reset: nat)

  type Entries = map<Key, Entry>

  datatype Config = Config(max: nat, window: nat)

  /** One more, in a 32-bit word. */
  function Next(n: nat): nat { if n + 1 >= WORD then 0 else n + 1 }

  /** The entry that a counting call works on: a fresh one when there is none or it expired. */
  function Current(m: Entries, key: Key, now: nat, window: nat): Entry {
    if key in m && now < m[key].reset then m[key] else Entry(0, now + window)
  }

  predicate Allows(m: Entries, key: Key, now: nat, max: nat) {
    !(key in m && now < m[key].reset && m[key].count >= max)
  }

  function Counted(m: Entries, key: Key, now: nat, window: nat): Entries {
    var e := Current(m, key, now, window);
    m[key := e.(count := Next(e.count))]
  }

  /** check_and_increment: a refused call still replaces an expired entry. */
  function Attempted(m: Entries, key: Key, now: nat, c: Config): Entries {
    var e := Current(m, key, now, c.window);
    if e.count >= c.max then m[key := e] else m[key := e.(count := Next(e.count))]
  }

  function Swept(m: Entries, now: nat): Entries {
    map key | key in m && now < m[key].reset :: m[key]
  }

  // ---- Runs ----

  datatype Op =
    | Tick(ms: nat)
    | Check(key: Key)
    | CheckAndIncrement(key: Key)
    | RecordAttempt(key: Key)
    | Cleanup

  datatype State = State(now: nat, entries: Entries)

  predicate Accepts(c: Config, s: State, op: Op) {
    match op
    case Check(key) => Allows(s.entries, key, s.now, c.max)
    case CheckAndIncrement(key) => Current(s.entries, key, s.now, c.window).count < c.max
    case _ => true
  }

  function Apply(c: Config, s: State, op: Op): State {
    match op
    case Tick(ms) => s.(now := s.now + ms)
    case Check(key) => s
    case CheckAndIncrement(key) => s.(entries := Attempted(s.entries, key, s.now, c))
    case RecordAttempt(key) => s.(entries := Counted(s.entries, key, s.now, c.window))
    case Cleanup => s.(entries := Swept(s.entries, s.now))
  }

  function After(c: Config, ops: seq<Op>): State {
    if ops == [] then State(0, map[]) else Apply(c, After(c, ops[..|ops| - 1]), ops[|ops| - 1])
  }

  // ---- Cleanup cannot be observed ----

  function Answers(c: Config, ops: seq<Op>): seq<bool> {
    if ops == [] then []
    else
      var before, op := ops[..|ops| - 1], ops[|ops| - 1];
      if op.Cleanup? then Answers(c, before) else Answers(c, before) + [Accepts(c, After(c, before), op)]
  }

  function WithoutCleanups(ops: seq<Op>): seq<Op> {
    if ops == [] then []
    else
      var before, op := ops[..|ops| - 1], ops[|ops| - 1];
      if op.Cleanup? then WithoutCleanups(before) else WithoutCleanups(before) + [op]
  }

  /** The same live entries: an expired entry counts as an absent one. */
  ghost predicate SameLive(s: State, t: State) {
    && s.now == t.now
    && forall key: Key ::
         (key in s.entries && s.now < s.entries[key].reset <==> key in t.entries && t.now < t.entries[key].reset)
         && (key in s.entries && s.now < s.entries[key].reset ==> s.entries[key] == t.entries[key])
  }

  lemma SameLiveStep(c: Config, s: State, t: State, op: Op)
    requires SameLive(s, t)
    ensures Accepts(c, s, op) == Accepts(c, t, op)
    ensures SameLive(Apply(c, s, op), if op.Cleanup? then t else Apply(c, t, op))
  {
  }

  /** With the cleanups left out, a run gives the same answers and ends with the same live entries. */
  lemma {:induction false} CleanupIsUnobservable(c: Config, ops: seq<Op>)
    ensures Answers(c, ops) == Answers(c, WithoutCleanups(ops))
    ensures SameLive(After(c, ops), After(c, WithoutCleanups(ops)))
    ensures forall op <- WithoutCleanups(ops) :: !op.Cleanup?
    ensures forall op :: Accepts(c, After(c, ops), op) == Accepts(c, After(c, WithoutCleanups(ops)), op)
    decreases |ops|
  {
    if ops != [] {
      var before, op := ops[..|ops| - 1], ops[|ops| - 1];
      CleanupIsUnobservable(c, before);
      SameLiveStep(c, After(c, before), After(c, WithoutCleanups(before)), op);
      if !op.Cleanup? {
        var kept := WithoutCleanups(before) + [op];
        assert kept[..|kept| - 1] == WithoutCleanups(before);
      }
    }
  }

  // ---- How many calls are accepted ----

  /** A counted call: when it was made, and when the window it was counted in resets. */
  datatype Mark = Mark(at: nat, reset: nat)

  function MarkOf(c: Config, s: State, key: Key): Mark {
    Mark(s.now, Current(s.entries, key, s.now, c.window).reset)
  }

  /** The accepted check_and_increment calls of a key. */
  function Accepted(c: Config, ops: seq<Op>, key: Key): seq<Mark> {
    if ops == [] then []
    else
      var before, op := ops[..|ops| - 1], ops[|ops| - 1];
      if op == CheckAndIncrement(key) && Accepts(c, After(c, before), op)
      then Accepted(c, before, key) + [MarkOf(c, After(c, before), key)]
      else Accepted(c, before, key)
  }

  /** The record_attempt calls of a key. */
  function Recorded(c: Config, ops: seq<Op>, key: Key): seq<Mark> {
    if ops == [] then []
    else
      var before, op := ops[..|ops| - 1], ops[|ops| - 1];
      if op == RecordAttempt(key)
      then Recorded(c, before, key) + [MarkOf(c, After(c, before), key)]
      else Recorded(c, before, key)
  }

  /** All the calls that a key's count counts, accepted or recorded. */
  function AllMarks(c: Config, ops: seq<Op>, key: Key): seq<Mark> {
    if ops == [] then []
    else
      var before, op := ops[..|ops| - 1], ops[|ops| - 1];
      if op == RecordAttempt(key) || (op == CheckAndIncrement(key) && Accepts(c, After(c, before), op))
      then AllMarks(c, before, key) + [MarkOf(c, After(c, before), key)]
      else AllMarks(c, before, key)
  }

  lemma {:induction false} AllMarksHold(c: Config, ops: seq<Op>, key: Key)
    ensures forall m :: m in AllMarks(c, ops, key) <==> m in Accepted(c, ops, key) || m in Recorded(c, ops, key)
  {
    if ops != [] { AllMarksHold(c, ops[..|ops| - 1], key); }
  }

  /** How many marks fall in the window that resets at `reset`. */
  function InWindow(marks: seq<Mark>, reset: nat): nat {
    if marks == [] then 0
    else InWindow(marks[..|marks| - 1], reset) + (if marks[|marks| - 1].reset == reset then 1 else 0)
  }

  /** How many marks were made from `from` on, for `length` from there. */
  function InStretch(marks: seq<Mark>, from: nat, length: nat): nat {
    if marks == [] then 0
    else InStretch(marks[..|marks| - 1], from, length)
         + (if from <= marks[|marks| - 1].at < from + length then 1 else 0)
  }

  lemma {:induction false} InWindowSnoc(marks: seq<Mark>, m: Mark, reset: nat)
    ensures InWindow(marks + [m], reset) == InWindow(marks, reset) + if m.reset == reset then 1 else 0
  {
  }

  lemma {:induction false} NoneInWindow(marks: seq<Mark>, reset: nat)
    requires forall i :: 0 <= i < |marks| ==> marks[i].reset != reset
    ensures InWindow(marks, reset) == 0
  {
    if marks != [] { NoneInWindow(marks[..|marks| - 1], reset); }
  }

  predicate Apart(a: nat, b: nat, window: nat) { a == b || a + window <= b || b + window <= a }

  /** Windows of the marks lie a full window apart, and a mark lies in its window. */
  ghost predicate WellSpaced(c: Config, s: State, key: Key, marks: seq<Mark>) {
    && (forall i :: 0 <= i < |marks| ==> marks[i].at < marks[i].reset <= marks[i].at + c.window)
    && (forall i, j :: 0 <= i < |marks| && 0 <= j < |marks| ==> Apart(marks[i].reset, marks[j].reset, c.window))
    && (forall i :: 0 <= i < |marks|
         ==> marks[i].reset <= s.now || (key in s.entries && s.entries[key].reset == marks[i].reset))
    && (key in s.entries ==> s.entries[key].reset <= s.now + c.window)
    && (key in s.entries ==> forall i :: 0 <= i < |marks| ==>
          marks[i].reset == s.entries[key].reset || marks[i].reset + c.window <= s.entries[key].reset)
  }

  lemma StepKeepsSpacing(c: Config, s: State, op: Op, key: Key, marks: seq<Mark>)
    requires c.window > 0 && WellSpaced(c, s, key, marks)
    ensures WellSpaced(c, Apply(c, s, op), key, marks)
    ensures op == CheckAndIncrement(key) || op == RecordAttempt(key) ==>
              WellSpaced(c, Apply(c, s, op), key, marks + [MarkOf(c, s, key)])
  {
  }

  /** The windows of all the calls that are counted, whichever way, lie apart. */
  lemma {:induction false} RunIsWellSpaced(c: Config, ops: seq<Op>, key: Key)
    requires c.window > 0
    ensures WellSpaced(c, After(c, ops), key, AllMarks(c, ops, key))
    ensures WellSpaced(c, After(c, ops), key, Accepted(c, ops, key))
    ensures WellSpaced(c, After(c, ops), key, Recorded(c, ops, key))
    decreases |ops|
  {
    if ops != [] {
      var before, op := ops[..|ops| - 1], ops[|ops| - 1];
      RunIsWellSpaced(c, before, key);
      StepKeepsSpacing(c, After(c, before), op, key, Accepted(c, before, key));
      StepKeepsSpacing(c, After(c, before), op, key, Recorded(c, before, key));
      StepKeepsSpacing(c, After(c, before), op, key, AllMarks(c, before, key));
    }
  }

  ghost predicate RecordsBounded(c: Config, ops: seq<Op>, key: Key, records: nat) {
    forall r :: InWindow(Recorded(c, ops, key), r) <= records
  }

  lemma PrefixRecords(c: Config, ops: seq<Op>, key: Key, records: nat)
    requires ops != [] && RecordsBounded(c, ops, key, records)
    ensures RecordsBounded(c, ops[..|ops| - 1], key, records)
  {
    var before := ops[..|ops| - 1];
    forall r ensures InWindow(Recorded(c, before, key), r) <= records {
      InWindowSnoc(Recorded(c, before, key), MarkOf(c, After(c, before), key), r);
      assert InWindow(Recorded(c, ops, key), r) <= records;
    }
  }

  /** The count is exact: nothing was lost by wrapping. */
  ghost predicate CountInv(c: Config, s: State, key: Key, accepted: seq<Mark>, recorded: seq<Mark>) {
    && (key in s.entries ==>
          s.entries[key].count == InWindow(accepted, s.entries[key].reset) + InWindow(recorded, s.entries[key].reset))
    && (forall r :: InWindow(accepted, r) <= c.max)
  }

  lemma FreshWindowIsEmpty(c: Config, s: State, key: Key, marks: seq<Mark>)
    requires c.window > 0 && WellSpaced(c, s, key, marks) && !(key in s.entries && s.now < s.entries[key].reset)
    ensures InWindow(marks, s.now + c.window) == 0
  {
    NoneInWindow(marks, s.now + c.window);
  }

  /** The count of the window the next call is counted in is what the marks say. */
  ghost predicate CurrentIsExact(c: Config, s: State, key: Key, a: seq<Mark>, b: seq<Mark>) {
    Current(s.entries, key, s.now, c.window).count
    == InWindow(a, MarkOf(c, s, key).reset) + InWindow(b, MarkOf(c, s, key).reset)
  }

  /** The count of the window a call is about to be counted in. */
  lemma CurrentCount(c: Config, s: State, key: Key, a: seq<Mark>, b: seq<Mark>)
    requires c.window > 0 && CountInv(c, s, key, a, b) && WellSpaced(c, s, key, a) && WellSpaced(c, s, key, b)
    ensures CurrentIsExact(c, s, key, a, b)
  {
    if !(key in s.entries && s.now < s.entries[key].reset) {
      FreshWindowIsEmpty(c, s, key, a);
      FreshWindowIsEmpty(c, s, key, b);
    }
  }

  lemma RefuseStep(c: Config, s: State, key: Key, a: seq<Mark>, b: seq<Mark>)
    requires CountInv(c, s, key, a, b) && CurrentIsExact(c, s, key, a, b) && !Accepts(c, s, CheckAndIncrement(key))
    ensures CountInv(c, Apply(c, s, CheckAndIncrement(key)), key, a, b)
  {
  }

  lemma AcceptStep(c: Config, s: State, key: Key, a: seq<Mark>, b: seq<Mark>, after: seq<Mark>)
    requires c.max < WORD && CountInv(c, s, key, a, b) && CurrentIsExact(c, s, key, a, b)
    requires Accepts(c, s, CheckAndIncrement(key)) && after == a + [MarkOf(c, s, key)]
    ensures CountInv(c, Apply(c, s, CheckAndIncrement(key)), key, after, b)
  {
  }

  lemma RecordStep(c: Config, s: State, key: Key, a: seq<Mark>, b: seq<Mark>, records: nat)
    requires c.max + records < WORD && InWindow(b, MarkOf(c, s, key).reset) + 1 <= records
    requires CountInv(c, s, key, a, b) && CurrentIsExact(c, s, key, a, b)
    ensures CountInv(c, Apply(c, s, RecordAttempt(key)), key, a, b + [MarkOf(c, s, key)])
  {
  }

  lemma OtherStep(c: Config, s: State, op: Op, key: Key, a: seq<Mark>, b: seq<Mark>)
    requires op != CheckAndIncrement(key) && op != RecordAttempt(key) && CountInv(c, s, key, a, b)
    ensures CountInv(c, Apply(c, s, op), key, a, b)
  {
  }

  lemma {:induction false} CountIsExact(c: Config, ops: seq<Op>, key: Key, records: nat)
    requires c.window > 0 && c.max + records < WORD && RecordsBounded(c, ops, key, records)
    ensures CountInv(c, After(c, ops), key, Accepted(c, ops, key), Recorded(c, ops, key))
    decreases |ops|
  {
    if ops != [] {
      var before, op := ops[..|ops| - 1], ops[|ops| - 1];
      var m := MarkOf(c, After(c, before), key);
      PrefixRecords(c, ops, key, records);
      CountIsExact(c, before, key, records);
      RunIsWellSpaced(c, before, key);
      InWindowSnoc(Recorded(c, before, key), m, m.reset);
      assert InWindow(Recorded(c, ops, key), m.reset) <= records;
      assert InWindow(Recorded(c, before, key), m.reset) <= records;
      CurrentCount(c, After(c, before), key, Accepted(c, before, key), Recorded(c, before, key));
      if op == CheckAndIncrement(key) {
        if Accepts(c, After(c, before), op) {
          AcceptStep(c, After(c, before), key, Accepted(c, before, key), Recorded(c, before, key),
                     Accepted(c, ops, key));
        } else {
          RefuseStep(c, After(c, before), key, Accepted(c, before, key), Recorded(c, before, key));
        }
      } else if op == RecordAttempt(key) {
        RecordStep(c, After(c, before), key, Accepted(c, before, key), Recorded(c, before, key), records);
      } else {
        OtherStep(c, After(c, before), op, key, Accepted(c, before, key), Recorded(c, before, key));
      }
    }
  }

  /** A stretch counts at most what two windows hold, when all its marks fall in the two. */
  lemma {:induction false} TwoWindowsCover(marks: seq<Mark>, from: nat, length: nat, r1: nat, r2: nat)
    requires forall i :: 0 <= i < |marks| && from <= marks[i].at < from + length ==>
                           marks[i].reset == r1 || marks[i].reset == r2
    ensures InStretch(marks, from, length) <= InWindow(marks, r1) + if r1 == r2 then 0 else InWindow(marks, r2)
  {
    if marks != [] { TwoWindowsCover(marks[..|marks| - 1], from, length, r1, r2); }
  }

  lemma TwoWindows(c: Config, s: State, key: Key, marks: seq<Mark>, from: nat) returns (r1: nat, r2: nat)
    requires WellSpaced(c, s, key, marks)
    ensures forall i :: 0 <= i < |marks| && from <= marks[i].at < from + c.window ==>
                          marks[i].reset == r1 || marks[i].reset == r2
  {
    r1, r2 := 0, 0;
    if i :| 0 <= i < |marks| && from <= marks[i].at < from + c.window {
      r1, r2 := marks[i].reset, marks[i].reset;
      if j :| 0 <= j < |marks| && from <= marks[j].at < from + c.window && marks[j].reset != r1 {
        r2 := marks[j].reset;
        assert Apart(marks[i].reset, marks[j].reset, c.window);
        forall k | 0 <= k < |marks| && from <= marks[k].at < from + c.window
          ensures marks[k].reset == r1 || marks[k].reset == r2
        {
          assert Apart(marks[i].reset, marks[k].reset, c.window) && Apart(marks[j].reset, marks[k].reset, c.window);
        }
      }
    }
  }

  /**
   With a positive window, and fewer recorded attempts a window than would make the 32-bit count
   wrap, a key has at most `max` accepted calls in a fixed window and at most twice `max` in any
   stretch of one window's length, wherever cleanups, checks and other keys' calls fall.
   */
  lemma AcceptedAreBounded(c: Config, ops: seq<Op>, key: Key, records: nat)
    requires c.window > 0 && c.max + records < WORD && RecordsBounded(c, ops, key, records)
    ensures forall r :: InWindow(Accepted(c, ops, key), r) <= c.max
    ensures forall from: nat :: InStretch(Accepted(c, ops, key), from, c.window) <= 2 * c.max
  {
    CountIsExact(c, ops, key, records);
    RunIsWellSpaced(c, ops, key);
    var marks := Accepted(c, ops, key);
    forall from: nat ensures InStretch(marks, from, c.window) <= 2 * c.max {
      var r1, r2 := TwoWindows(c, After(c, ops), key, marks, from);
      TwoWindowsCover(marks, from, c.window, r1, r2);
      assert InWindow(marks, r1) <= c.max && InWindow(marks, r2) <= c.max;
    }
  }

  // ---- The answers, from the history alone ----

  /** The time that has passed in a run. */
  function Elapsed(ops: seq<Op>): nat {
    if ops == [] then 0
    else Elapsed(ops[..|ops| - 1]) + if ops[|ops| - 1].Tick? then ops[|ops| - 1].ms else 0
  }

  /** The window of the last counted call is still open. */
  predicate IsOpen(marks: seq<Mark>, now: nat) { marks != [] && now < marks[|marks| - 1].reset }

  /** The mark of a call that is counted now: in the open window, or in one that it opens. */
  function NextMark(c: Config, marks: seq<Mark>, now: nat): Mark {
    Mark(now, if IsOpen(marks, now) then marks[|marks| - 1].reset else now + c.window)
  }

  ghost predicate LastIsStored(s: State, key: Key, marks: seq<Mark>) {
    if key in s.entries then marks != [] && s.entries[key].reset == marks[|marks| - 1].reset else !IsOpen(marks, s.now)
  }

  lemma StepKeepsLast(c: Config, s: State, op: Op, key: Key, marks: seq<Mark>)
    requires c.max > 0 && LastIsStored(s, key, marks)
    ensures LastIsStored(
              Apply(c, s, op), key,
              if op == RecordAttempt(key) || (op == CheckAndIncrement(key) && Accepts(c, s, op))
              then marks + [MarkOf(c, s, key)] else marks)
    ensures MarkOf(c, s, key) == NextMark(c, marks, s.now)
  {
  }

  lemma {:induction false} RunKeepsLast(c: Config, ops: seq<Op>, key: Key)
    requires c.max > 0
    ensures LastIsStored(After(c, ops), key, AllMarks(c, ops, key)) && After(c, ops).now == Elapsed(ops)
    decreases |ops|
  {
    if ops != [] {
      var n := |ops| - 1;
      RunKeepsLast(c, ops[..n], key);
      StepKeepsLast(c, After(c, ops[..n]), ops[n], key, AllMarks(c, ops[..n], key));
    }
  }

  lemma {:induction false} MarksAdd(c: Config, ops: seq<Op>, key: Key, reset: nat)
    ensures InWindow(AllMarks(c, ops, key), reset)
            == InWindow(Accepted(c, ops, key), reset) + InWindow(Recorded(c, ops, key), reset)
    decreases |ops|
  {
    if ops != [] {
      var before := ops[..|ops| - 1];
      MarksAdd(c, before, key, reset);
      var m := MarkOf(c, After(c, before), key);
      InWindowSnoc(AllMarks(c, before, key), m, reset);
      InWindowSnoc(Accepted(c, before, key), m, reset);
      InWindowSnoc(Recorded(c, before, key), m, reset);
    }
  }

  lemma LastCounts(c: Config, s: State, key: Key, marks: seq<Mark>, a: seq<Mark>, b: seq<Mark>)
    requires c.max > 0 && LastIsStored(s, key, marks) && CountInv(c, s, key, a, b)
    requires IsOpen(marks, s.now) ==>
               var r := marks[|marks| - 1].reset; InWindow(marks, r) == InWindow(a, r) + InWindow(b, r)
    ensures Accepts(c, s, CheckAndIncrement(key)) == Accepts(c, s, Check(key))
    ensures Accepts(c, s, Check(key))
            <==> (IsOpen(marks, s.now) ==> InWindow(marks, marks[|marks| - 1].reset) < c.max)
  {
    hide InWindow;
  }

  /**
   A call is let in exactly when the window of the last counted call is over, or holds fewer than
   the limit; it is then counted in that window if it is open, and else in one that it opens.
   */
  lemma AcceptedExactlyWhen(c: Config, ops: seq<Op>, key: Key, records: nat)
    requires c.window > 0 && c.max > 0 && c.max + records < WORD && RecordsBounded(c, ops, key, records)
    ensures var marks, now := AllMarks(c, ops, key), Elapsed(ops);
            var ok := IsOpen(marks, now) ==> InWindow(marks, marks[|marks| - 1].reset) < c.max;
            && (Accepts(c, After(c, ops), Check(key)) <==> ok)
            && (Accepts(c, After(c, ops), CheckAndIncrement(key)) <==> ok)
            && AllMarks(c, ops + [CheckAndIncrement(key)], key)
                 == (if ok then marks + [NextMark(c, marks, now)] else marks)
            && AllMarks(c, ops + [RecordAttempt(key)], key) == marks + [NextMark(c, marks, now)]
  {
    var marks := AllMarks(c, ops, key);
    RunKeepsLast(c, ops, key);
    CountIsExact(c, ops, key, records);
    if marks != [] { MarksAdd(c, ops, key, marks[|marks| - 1].reset); }
    LastCounts(c, After(c, ops), key, marks, Accepted(c, ops, key), Recorded(c, ops, key));
    StepKeepsLast(c, After(c, ops), Cleanup, key, marks);
    assert (ops + [CheckAndIncrement(key)])[..|ops|] == ops && (ops + [RecordAttempt(key)])[..|ops|] == ops;
  }

  /** A cleanup forgets exactly the windows that are over. */
  lemma CleanupForgets(c: Config, ops: seq<Op>, key: Key)
    ensures var s, t := After(c, ops), After(c, ops + [Cleanup]);
            && t.now == s.now
            && (key in t.entries <==> key in s.entries && s.entries[key].reset > s.now)
            && (key in t.entries ==> t.entries[key] == s.entries[key])
  {
    assert (ops + [Cleanup])[..|ops|] == ops;
  }

  // ---- The wrapping count is the only way past the limit ----

  /** How many calls of the key were accepted in the window, and how many recorded at all. */
  function Tally(c: Config, ops: seq<Op>, key: Key): (nat, nat) {
    (InWindow(Accepted(c, ops, key), c.window), |Recorded(c, ops, key)|)
  }

  /** One call at the end of a run. */
  lemma OneMore(c: Config, before: seq<Op>, op: Op, ops: seq<Op>, key: Key)
    requires ops == before + [op]
    ensures After(c, ops) == Apply(c, After(c, before), op)
    ensures Tally(c, ops, key).1 == Tally(c, before, key).1 + if op == RecordAttempt(key) then 1 else 0
    ensures Tally(c, ops, key).0 == Tally(c, before, key).0
              + if op == CheckAndIncrement(key) && Accepts(c, After(c, before), op)
                   && MarkOf(c, After(c, before), key).reset == c.window then 1 else 0
  {
  }

  lemma RecordEffect(c: Config, key: Key, count: nat)
    requires c.window > 0 && count < WORD
    ensures Apply(c, State(0, map[key := Entry(count, c.window)]), RecordAttempt(key))
            == State(0, map[key := Entry(Next(count), c.window)])
  {
  }

  lemma AcceptEffect(c: Config, key: Key, count: nat, s: State)
    requires c.window > 0 && count < c.max < WORD
    requires s == State(0, map[key := Entry(count, c.window)]) || (count == 0 && s == State(0, map[]))
    ensures Apply(c, s, CheckAndIncrement(key)) == State(0, map[key := Entry(count + 1, c.window)])
    ensures Accepts(c, s, CheckAndIncrement(key)) && MarkOf(c, s, key).reset == c.window
  {
  }

  lemma {:induction false} AcceptMany(c: Config, key: Key, n: nat) returns (ops: seq<Op>)
    requires c.window > 0 && n <= c.max < WORD
    ensures After(c, ops) == State(0, if n == 0 then map[] else map[key := Entry(n, c.window)])
    ensures Tally(c, ops, key) == (n, 0)
  {
    if n == 0 {
      ops := [];
    } else {
      var before := AcceptMany(c, key, n - 1);
      AcceptEffect(c, key, n - 1, After(c, before));
      ops := before + [CheckAndIncrement(key)];
      OneMore(c, before, CheckAndIncrement(key), ops, key);
    }
  }

  lemma {:induction false} RecordMany(c: Config, first: seq<Op>, key: Key, count: nat, n: nat) returns (ops: seq<Op>)
    requires c.window > 0 && count < WORD && count + n <= WORD
    requires After(c, first) == State(0, map[key := Entry(count, c.window)])
    ensures After(c, ops) == State(0, map[key := Entry(if count + n == WORD then 0 else count + n, c.window)])
    ensures Tally(c, ops, key) == (Tally(c, first, key).0, Tally(c, first, key).1 + n)
  {
    if n == 0 {
      ops := first;
    } else {
      var before := RecordMany(c, first, key, count, n - 1);
      RecordEffect(c, key, count + n - 1);
      ops := before + [RecordAttempt(key)];
      OneMore(c, before, RecordAttempt(key), ops, key);
    }
  }

  lemma {:induction false} WindowHoldsAtMostAll(marks: seq<Mark>, r: nat)
    ensures InWindow(marks, r) <= |marks|
  {
    if marks != [] { WindowHoldsAtMostAll(marks[..|marks| - 1], r); }
  }

  /** Filling the limit and then wrapping the count gets one more call accepted in the window. */
  lemma OneTooMany(c: Config, key: Key) returns (ops: seq<Op>)
    requires 0 < c.max < WORD && c.window > 0
    ensures InWindow(Accepted(c, ops, key), c.window) == c.max + 1
    ensures RecordsBounded(c, ops, key, WORD - c.max)
  {
    var full := AcceptMany(c, key, c.max);
    var wrapped := RecordMany(c, full, key, c.max, WORD - c.max);
    ops := wrapped + [CheckAndIncrement(key)];
    AcceptEffect(c, key, 0, After(c, wrapped));
    OneMore(c, wrapped, CheckAndIncrement(key), ops, key);
    forall r ensures InWindow(Recorded(c, ops, key), r) <= WORD - c.max {
      WindowHoldsAtMostAll(Recorded(c, ops, key), r);
    }
  }

  ghost predicate WindowLimitHolds(c: Config, records: nat) {
    forall ops, key, r | RecordsBounded(c, ops, key, records) :: InWindow(Accepted(c, ops, key), r) <= c.max
  }

  lemma NothingAccepted(c: Config, ops: seq<Op>, key: Key)
    requires c.max == 0
    ensures Accepted(c, ops, key) == []
  {
  }

  /**
   At most `records` recorded attempts a window leave the limit in force, on every run, exactly
   when the limit and they together fit the counter.
   */
  lemma WindowLimitIff(c: Config, records: nat)
    requires c.window > 0 && c.max < 0x1_0000_0000
    ensures WindowLimitHolds(c, records) <==> c.max == 0 || c.max + records < 0x1_0000_0000
  {
    if c.max == 0 {
      forall ops, key, r | RecordsBounded(c, ops, key, records) ensures InWindow(Accepted(c, ops, key), r) <= c.max {
        NothingAccepted(c, ops, key);
      }
    } else if c.max + records < WORD {
      forall ops, key, r | RecordsBounded(c, ops, key, records) ensures InWindow(Accepted(c, ops, key), r) <= c.max {
        AcceptedAreBounded(c, ops, key, records);
      }
    } else {
      var ops := OneTooMany(c, Key(""));
      assert RecordsBounded(c, ops, Key(""), records);
    }
  }

  // ---- Check at the start of a request, record when it fails ----

  type RequestId = nat

  datatype Flow = Flow(
    now: nat,
    entries: Entries,
    flying: map<RequestId, Key>,  // requests that passed the check and have not answered
    failures: map<Key, nat>       // history: failures recorded in the key's latest window
  )

  datatype Move =
    | Pass(ms: nat)
    | Arrive(r: RequestId, key: Key)
    | Answer(r: RequestId, ok: bool)
    | Sweep

  ghost function Flying(s: Flow, key: Key): set<RequestId> {
    set r | r in s.flying && s.flying[r] == key
  }

  predicate IsLive(s: Flow, key: Key) { key in s.entries && s.now < s.entries[key].reset }

  /** One step of the auth middleware on a server that runs at most `k` requests of a key at once. */
  ghost function Advance(c: Config, k: nat, s: Flow, m: Move): Flow {
    match m
    case Pass(ms) => s.(now := s.now + ms)
    case Arrive(r, key) =>
      if r !in s.flying && |Flying(s, key)| < k && Allows(s.entries, key, s.now, c.max)
      then s.(flying := s.flying[r := key])
      else s
    case Answer(r, ok) =>
      if r !in s.flying then s
      else if ok then s.(flying := s.flying - {r})
      else
        var key := s.flying[r];
        s.(flying := s.flying - {r},
           entries := Counted(s.entries, key, s.now, c.window),
           failures := s.failures[key := if IsLive(s, key) && key in s.failures then s.failures[key] + 1 else 1])
    case Sweep => s.(entries := Swept(s.entries, s.now))
  }

  ghost function AfterMoves(c: Config, k: nat, moves: seq<Move>): Flow {
    if moves == [] then Flow(0, map[], map[], map[])
    else Advance(c, k, AfterMoves(c, k, moves[..|moves| - 1]), moves[|moves| - 1])
  }

  /** A limit of zero still lets a key's first requests through, as a limit of one does. */
  function MostFailures(max: nat, k: nat): int { (if max == 0 then 1 else max) + k - 1 }

  ghost predicate KeyOk(c: Config, k: nat, s: Flow, key: Key) {
    && |Flying(s, key)| <= k
    && (IsLive(s, key) ==>
          && key in s.failures && s.entries[key].count == s.failures[key]
          && s.failures[key] + |Flying(s, key)| <= MostFailures(c.max, k))
  }

  lemma OneFewer(s: Flow, t: Flow, r: RequestId, key: Key)
    requires r in s.flying && t.flying == s.flying - {r}
    ensures |Flying(t, key)| == |Flying(s, key)| - if s.flying[r] == key then 1 else 0
  {
    if s.flying[r] == key {
      assert Flying(s, key) == Flying(t, key) + {r} && r !in Flying(t, key);
    } else {
      assert Flying(t, key) == Flying(s, key);
    }
  }

  lemma AnswerKeepsKey(c: Config, k: nat, s: Flow, r: RequestId, ok: bool, key: Key)
    requires k >= 1 && MostFailures(c.max, k) < WORD && KeyOk(c, k, s, key)
    ensures KeyOk(c, k, Advance(c, k, s, Answer(r, ok)), key)
  {
    var t := Advance(c, k, s, Answer(r, ok));
    if r in s.flying {
      OneFewer(s, t, r, key);
      if !ok && s.flying[r] == key {
        if IsLive(s, key) {
          assert s.entries[key].count + 1 < WORD;
          assert t.entries[key] == Entry(s.entries[key].count + 1, s.entries[key].reset);
        } else {
          assert t.entries[key].count == 1 && t.failures[key] == 1;
        }
      } else {
        assert IsLive(t, key) ==> IsLive(s, key) && t.entries[key] == s.entries[key];
      }
    }
  }

  lemma MoveKeepsKey(c: Config, k: nat, s: Flow, m: Move, key: Key)
    requires k >= 1 && MostFailures(c.max, k) < WORD && KeyOk(c, k, s, key)
    ensures KeyOk(c, k, Advance(c, k, s, m), key)
  {
    var t := Advance(c, k, s, m);
    match m {
      case Answer(r, ok) => AnswerKeepsKey(c, k, s, r, ok, key);
      case Arrive(r, other) =>
        if t != s && other == key {
          assert Flying(t, key) == Flying(s, key) + {r};
        } else {
          assert Flying(t, key) == Flying(s, key);
        }
      case _ => assert Flying(t, key) == Flying(s, key);
    }
  }

  /**
   With at most `k` requests of a key in flight, the failures recorded for it in a live window
   never exceed the limit by more than k - 1, so a sequential client is held to the limit itself.
   */
  lemma {:induction false} FailuresAreBounded(c: Config, k: nat, moves: seq<Move>, key: Key)
    requires k >= 1 && MostFailures(c.max, k) < WORD
    ensures KeyOk(c, k, AfterMoves(c, k, moves), key)
    decreases |moves|
  {
    if moves != [] {
      FailuresAreBounded(c, k, moves[..|moves| - 1], key);
      MoveKeepsKey(c, k, AfterMoves(c, k, moves[..|moves| - 1]), moves[|moves| - 1], key);
    } else {
      assert Flying(AfterMoves(c, k, moves), key) == {};
    }
  }

  /** Requests 0 to n - 1, all of one key. */
  ghost function FirstRequests(key: Key, n: nat): (m: map<RequestId, Key>)
    ensures |m| == n && (forall r: nat :: r in m <==> r < n) && (forall r <- m :: m[r] == key)
  {
    if n == 0 then map[] else FirstRequests(key, n - 1)[n - 1 := key]
  }

  ghost predicate Reached(c: Config, k: nat, moves: seq<Move>, key: Key, failed: nat, flying: nat) {
    var s := AfterMoves(c, k, moves);
    && s.now == 0 && s.flying == FirstRequests(key, flying)
    && (if failed == 0 then key !in s.entries
        else
          && key in s.entries && s.entries[key] == Entry(failed, c.window)
          && key in s.failures && s.failures[key] == failed)
  }

  lemma OneArrives(c: Config, k: nat, before: seq<Move>, key: Key, failed: nat, flying: nat) returns (moves: seq<Move>)
    requires Reached(c, k, before, key, failed, flying) && flying < k && (failed < c.max || failed == 0)
    ensures Reached(c, k, moves, key, failed, flying + 1)
  {
    moves := before + [Arrive(flying, key)];
    assert moves[..|moves| - 1] == before;
    assert Flying(AfterMoves(c, k, before), key) == FirstRequests(key, flying).Keys;
    assert FirstRequests(key, flying)[flying := key] == FirstRequests(key, flying + 1);
  }

  lemma OneFails(c: Config, k: nat, before: seq<Move>, key: Key, failed: nat, flying: nat) returns (moves: seq<Move>)
    requires c.window > 0 && failed + 1 < WORD && Reached(c, k, before, key, failed, flying + 1)
    ensures Reached(c, k, moves, key, failed + 1, flying)
  {
    moves := before + [Answer(flying, false)];
    assert moves[..|moves| - 1] == before;
    assert FirstRequests(key, flying + 1) - {flying} == FirstRequests(key, flying);
  }

  lemma {:induction false} FailInTurn(c: Config, k: nat, key: Key, n: nat) returns (moves: seq<Move>)
    requires k >= 1 && c.window > 0 && n < WORD && n <= if c.max == 0 then 1 else c.max
    ensures Reached(c, k, moves, key, n, 0)
  {
    if n == 0 {
      moves := [];
      assert FirstRequests(key, 0) == map[];
    } else {
      moves := FailInTurn(c, k, key, n - 1);
      moves := OneArrives(c, k, moves, key, n - 1, 0);
      moves := OneFails(c, k, moves, key, n - 1, 0);
    }
  }

  lemma {:induction false} ArriveTogether(c: Config, k: nat, first: seq<Move>, key: Key, failed: nat, n: nat)
    returns (moves: seq<Move>)
    requires Reached(c, k, first, key, failed, 0) && n <= k && (failed < c.max || failed == 0)
    ensures Reached(c, k, moves, key, failed, n)
  {
    moves := first;
    if n > 0 {
      moves := ArriveTogether(c, k, first, key, failed, n - 1);
      moves := OneArrives(c, k, moves, key, failed, n - 1);
    }
  }

  lemma {:induction false} FailTogether(c: Config, k: nat, first: seq<Move>, key: Key, failed: nat, n: nat)
    returns (moves: seq<Move>)
    requires c.window > 0 && failed + n < WORD && Reached(c, k, first, key, failed, n)
    ensures Reached(c, k, moves, key, failed + n, 0)
  {
    moves := first;
    var f, left := failed, n;
    while left > 0
      invariant f + left == failed + n
      invariant Reached(c, k, moves, key, f, left)
    {
      left := left - 1;
      moves := OneFails(c, k, moves, key, f, left);
      f := f + 1;
    }
  }

  /** The bound is reached: one short of the limit in turn, then k that were checked together. */
  lemma FailuresReachBound(c: Config, k: nat, key: Key) returns (moves: seq<Move>)
    requires k >= 1 && c.window > 0 && MostFailures(c.max, k) < WORD
    ensures var s := AfterMoves(c, k, moves);
            IsLive(s, key) && key in s.failures && s.failures[key] == MostFailures(c.max, k)
  {
    var short := if c.max == 0 then 0 else c.max - 1;
    var first := FailInTurn(c, k, key, short);
    var together := ArriveTogether(c, k, first, key, short, k);
    moves := FailTogether(c, k, together, key, short, k);
  }

  // ---- The limiter ----

  class Limiter {
    var entries: Entries
    const config: Config

    constructor (config: Config)
      ensures this.config == config && entries == map[]
    {
      this.config := config;
      entries := map[];
    }

    method CheckOnly(key: Key, now: nat) returns (ok: bool)
      ensures ok == Accepts(config, State(now, entries), Check(key))
    {
      if key in entries && now < entries[key].reset && entries[key].count >= config.max {
        return false;
      }
      return true;
    }

    method CheckThenIncrement(key: Key, now: nat) returns (ok: bool)
      modifies `entries
      ensures ok == Accepts(config, old(State(now, entries)), CheckAndIncrement(key))
      ensures State(now, entries) == Apply(config, old(State(now, entries)), CheckAndIncrement(key))
    {
      if key !in entries {
        entries := entries[key := Entry(0, now + config.window)];
      }
      if now >= entries[key].reset {
        entries := entries[key := Entry(0, now + config.window)];
      }
      if entries[key].count >= config.max {
        return false;
      }
      entries := entries[key := entries[key].(count := Next(entries[key].count))];
      return true;
    }

    method Record(key: Key, now: nat)
      modifies `entries
      ensures State(now, entries) == Apply(config, old(State(now, entries)), RecordAttempt(key))
    {
      if key !in entries {
        entries := entries[key := Entry(0, now + config.window)];
      }
      if now >= entries[key].reset {
        entries := entries[key := Entry(0, now + config.window)];
      }
      entries := entries[key := entries[key].(count := Next(entries[key].count))];
    }

    method SweepExpired(now: nat)
      modifies `entries
      ensures State(now, entries) == Apply(config, old(State(now, entries)), Cleanup)
    {
      var left := entries.Keys;
      while left != {}
        invariant left <= entries.Keys
        invariant forall key ::
                    key in entries <==> key in old(entries) && (key in left || now < old(entries)[key].reset)
        invariant forall key <- entries :: entries[key] == old(entries)[key]
        decreases left
      {
        var key :| key in left;
        if !(now < entries[key].reset) {
          entries := entries - {key};
        }
        left := left - {key};
      }
      assert entries == Swept(old(entries), now);
    }
  }
}
