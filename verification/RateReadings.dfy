/**
 The rate limiter's calls with the reading of the clock apart from the update: a call reads the
 time first and then waits for its entry, so it can act on an older time than the entry's.
 */
module RateReadings {
  import opened RateLimiter

  /** A call acts on a reading that is so old; one older than `late`, or than the run, is not a step. */
  datatype Act =
    | Wait(ms: nat)
    | Attempt(key: Key, ago: nat)
    | Note(key: Key, ago: nat)
    | Clean(ago: nat)

  predicate CanAct(s: State, act: Act, late: nat) { act.Wait? || act.ago <= (if s.now < late then s.now else late) }

  function Do(c: Config, late: nat, s: State, act: Act): State {
    if !CanAct(s, act, late) then s
    else
      match act
      case Wait(ms) => s.(now := s.now + ms)
      case Attempt(key, ago) => s.(entries := Attempted(s.entries, key, s.now - ago, c))
      case Note(key, ago) => s.(entries := Counted(s.entries, key, s.now - ago, c.window))
      case Clean(ago) => s.(entries := Swept(s.entries, s.now - ago))
  }

  function Done(c: Config, late: nat, acts: seq<Act>): State {
    if acts == [] then State(0, map[]) else Do(c, late, Done(c, late, acts[..|acts| - 1]), acts[|acts| - 1])
  }

  predicate IsAccepted(c: Config, late: nat, s: State, act: Act, key: Key) {
    && act.Attempt? && act.key == key && CanAct(s, act, late)
    && Current(s.entries, key, s.now - act.ago, c.window).count < c.max
  }

  predicate IsNoted(s: State, act: Act, key: Key, late: nat) { act.Note? && act.key == key && CanAct(s, act, late) }

  /** When the call acted, and when its window resets. */
  function ActMark(c: Config, s: State, key: Key, ago: nat): Mark
    requires ago <= s.now
  {
    Mark(s.now, Current(s.entries, key, s.now - ago, c.window).reset)
  }

  function Taken(c: Config, late: nat, acts: seq<Act>, key: Key): seq<Mark> {
    if acts == [] then []
    else
      var n := |acts| - 1;
      var s := Done(c, late, acts[..n]);
      if IsAccepted(c, late, s, acts[n], key)
      then Taken(c, late, acts[..n], key) + [ActMark(c, s, key, acts[n].ago)]
      else Taken(c, late, acts[..n], key)
  }

  function Noted(c: Config, late: nat, acts: seq<Act>, key: Key): seq<Mark> {
    if acts == [] then []
    else
      var n := |acts| - 1;
      var s := Done(c, late, acts[..n]);
      if IsNoted(s, acts[n], key, late)
      then Noted(c, late, acts[..n], key) + [ActMark(c, s, key, acts[n].ago)]
      else Noted(c, late, acts[..n], key)
  }

  // ---- How windows follow each other ----

  /** A later window opens after the earlier one's reset, and resets a window, less the staleness, later. */
  predicate Follows(a: Mark, b: Mark, gap: nat) {
    a.at <= b.at && (a.reset == b.reset || (a.reset <= b.at && a.reset + gap <= b.reset && a.at + gap <= b.reset))
  }

  ghost predicate Spaced(s: State, key: Key, marks: seq<Mark>, gap: nat) {
    && (forall i, j | 0 <= i < j < |marks| :: Follows(marks[i], marks[j], gap))
    && (forall i | 0 <= i < |marks| :: marks[i].at <= s.now)
    && (forall i | 0 <= i < |marks| ::
         marks[i].reset <= s.now || (key in s.entries && s.entries[key].reset == marks[i].reset))
    && (key in s.entries ==> forall i | 0 <= i < |marks| ::
          marks[i].reset == s.entries[key].reset
          || (marks[i].reset + gap <= s.entries[key].reset && marks[i].at + gap <= s.entries[key].reset))
  }

  lemma DoKeepsSpacing(c: Config, late: nat, s: State, act: Act, key: Key, marks: seq<Mark>)
    requires late < c.window && Spaced(s, key, marks, c.window - late)
    ensures Spaced(Do(c, late, s, act), key, marks, c.window - late)
    ensures (act.Attempt? || act.Note?) && act.key == key && CanAct(s, act, late) ==>
              Spaced(Do(c, late, s, act), key, marks + [ActMark(c, s, key, act.ago)], c.window - late)
  {
  }

  lemma {:induction false} RunIsSpaced(c: Config, late: nat, acts: seq<Act>, key: Key)
    requires late < c.window
    ensures Spaced(Done(c, late, acts), key, Taken(c, late, acts, key), c.window - late)
    ensures Spaced(Done(c, late, acts), key, Noted(c, late, acts, key), c.window - late)
  {
    if acts != [] {
      var n := |acts| - 1;
      RunIsSpaced(c, late, acts[..n], key);
      DoKeepsSpacing(c, late, Done(c, late, acts[..n]), acts[n], key, Taken(c, late, acts[..n], key));
      DoKeepsSpacing(c, late, Done(c, late, acts[..n]), acts[n], key, Noted(c, late, acts[..n], key));
    }
  }

  // ---- The count ----

  ghost predicate NotesBounded(c: Config, late: nat, acts: seq<Act>, key: Key, notes: nat) {
    forall r :: InWindow(Noted(c, late, acts, key), r) <= notes
  }

  lemma InitNotes(c: Config, late: nat, acts: seq<Act>, key: Key, notes: nat)
    requires acts != [] && NotesBounded(c, late, acts, key, notes)
    ensures NotesBounded(c, late, acts[..|acts| - 1], key, notes)
  {
    var n := |acts| - 1;
    var before, after := Noted(c, late, acts[..n], key), Noted(c, late, acts, key);
    forall r ensures InWindow(before, r) <= notes {
      if after != before { InWindowSnoc(before, after[|after| - 1], r); }
      assert InWindow(after, r) <= notes;
    }
  }

  /** The count that a call works on is the number of marks in its window. */
  ghost predicate WorksOn(c: Config, s: State, key: Key, reading: nat, a: seq<Mark>, b: seq<Mark>) {
    var e := Current(s.entries, key, reading, c.window); e.count == InWindow(a, e.reset) + InWindow(b, e.reset)
  }

  lemma FreshIsEmpty(c: Config, late: nat, s: State, key: Key, ago: nat, marks: seq<Mark>)
    requires late < c.window && Spaced(s, key, marks, c.window - late) && ago <= s.now && ago <= late
    requires !(key in s.entries && s.now - ago < s.entries[key].reset)
    ensures InWindow(marks, s.now - ago + c.window) == 0
  {
    NoneInWindow(marks, s.now - ago + c.window);
  }

  lemma CountWorksOn(c: Config, late: nat, s: State, key: Key, ago: nat, a: seq<Mark>, b: seq<Mark>)
    requires late < c.window && ago <= s.now && ago <= late && CountInv(c, s, key, a, b)
    requires Spaced(s, key, a, c.window - late) && Spaced(s, key, b, c.window - late)
    ensures WorksOn(c, s, key, s.now - ago, a, b)
  {
    if !(key in s.entries && s.now - ago < s.entries[key].reset) {
      FreshIsEmpty(c, late, s, key, ago, a);
      FreshIsEmpty(c, late, s, key, ago, b);
    }
  }

  lemma OneMoreInWindow(c: Config, a: seq<Mark>, m: Mark, r: nat)
    requires InWindow(a, r) <= c.max && InWindow(a, m.reset) < c.max
    ensures InWindow(a + [m], r) <= c.max && InWindow(a + [m], m.reset) == InWindow(a, m.reset) + 1
  {
    InWindowSnoc(a, m, r);
    InWindowSnoc(a, m, m.reset);
  }

  lemma AttemptCounts(c: Config, s: State, key: Key, ago: nat, a: seq<Mark>, b: seq<Mark>, after: seq<Mark>)
    requires c.max < WORD && ago <= s.now && CountInv(c, s, key, a, b) && WorksOn(c, s, key, s.now - ago, a, b)
    requires var e := Current(s.entries, key, s.now - ago, c.window);
             after == if e.count < c.max then a + [ActMark(c, s, key, ago)] else a
    ensures CountInv(c, s.(entries := Attempted(s.entries, key, s.now - ago, c)), key, after, b)
  {
    if Current(s.entries, key, s.now - ago, c.window).count < c.max {
      var m := ActMark(c, s, key, ago);
      forall r ensures InWindow(after, r) <= c.max { OneMoreInWindow(c, a, m, r); }
      OneMoreInWindow(c, a, m, m.reset);
    }
  }

  lemma NoteCounts(c: Config, s: State, key: Key, ago: nat, a: seq<Mark>, b: seq<Mark>, notes: nat)
    requires c.max + notes < WORD && ago <= s.now && CountInv(c, s, key, a, b) && WorksOn(c, s, key, s.now - ago, a, b)
    requires InWindow(b + [ActMark(c, s, key, ago)], ActMark(c, s, key, ago).reset) <= notes
    ensures CountInv(c, s.(entries := Counted(s.entries, key, s.now - ago, c.window)), key, a,
                     b + [ActMark(c, s, key, ago)])
  {
    InWindowSnoc(b, ActMark(c, s, key, ago), ActMark(c, s, key, ago).reset);
    assert InWindow(a, ActMark(c, s, key, ago).reset) <= c.max;
  }

  lemma OtherCounts(c: Config, late: nat, s: State, act: Act, key: Key, a: seq<Mark>, b: seq<Mark>)
    requires CountInv(c, s, key, a, b) && ((act.Attempt? || act.Note?) && CanAct(s, act, late) ==> act.key != key)
    ensures CountInv(c, Do(c, late, s, act), key, a, b)
  {
  }

  /** Stale readings do not disturb the count: it is that of the marks of its window. */
  lemma {:induction false} StaleCountIsExact(c: Config, late: nat, acts: seq<Act>, key: Key, notes: nat)
    requires late < c.window && c.max + notes < WORD && NotesBounded(c, late, acts, key, notes)
    ensures CountInv(c, Done(c, late, acts), key, Taken(c, late, acts, key), Noted(c, late, acts, key))
  {
    if acts != [] {
      var n := |acts| - 1;
      var s, act := Done(c, late, acts[..n]), acts[n];
      var a, b := Taken(c, late, acts[..n], key), Noted(c, late, acts[..n], key);
      InitNotes(c, late, acts, key, notes);
      StaleCountIsExact(c, late, acts[..n], key, notes);
      RunIsSpaced(c, late, acts[..n], key);
      if (act.Attempt? || act.Note?) && CanAct(s, act, late) && act.key == key {
        CountWorksOn(c, late, s, key, act.ago, a, b);
        if act.Attempt? {
          AttemptCounts(c, s, key, act.ago, a, b, Taken(c, late, acts, key));
        } else {
          assert InWindow(Noted(c, late, acts, key), ActMark(c, s, key, act.ago).reset) <= notes;
          NoteCounts(c, s, key, act.ago, a, b, notes);
        }
      } else {
        OtherCounts(c, late, s, act, key, a, b);
      }
    }
  }

  // ---- How many are accepted in a stretch ----

  ghost predicate InOrder(marks: seq<Mark>, gap: nat) {
    forall i, j | 0 <= i < j < |marks| :: Follows(marks[i], marks[j], gap)
  }

  /** The marks of windows that reset later, before a time. */
  function Later(marks: seq<Mark>, reset: nat, end: nat): nat {
    if marks == [] then 0
    else
      var m := marks[|marks| - 1];
      Later(marks[..|marks| - 1], reset, end) + if m.reset > reset && m.at < end then 1 else 0
  }

  lemma {:induction false} NoneLater(marks: seq<Mark>, reset: nat, end: nat)
    requires forall i | 0 <= i < |marks| :: marks[i].reset <= reset || end <= marks[i].at
    ensures Later(marks, reset, end) == 0
  {
    if marks != [] { NoneLater(marks[..|marks| - 1], reset, end); }
  }

  /** Those of the next window, and those of the windows after it. */
  lemma {:induction false} LaterSplits(marks: seq<Mark>, reset: nat, end: nat, next: nat)
    requires forall i | 0 <= i < |marks| && marks[i].reset > reset && marks[i].at < end :: next <= marks[i].reset
    ensures Later(marks, reset, end) <= InWindow(marks, next) + Later(marks, next, end)
  {
    if marks != [] { LaterSplits(marks[..|marks| - 1], reset, end, next); }
  }

  /** The first mark of a later window, before a time. */
  lemma {:induction false} FirstLater(marks: seq<Mark>, reset: nat, end: nat) returns (i: nat)
    ensures i <= |marks| && (i < |marks| ==> marks[i].reset > reset && marks[i].at < end)
    ensures forall j | 0 <= j < i :: !(marks[j].reset > reset && marks[j].at < end)
  {
    i := 0;
    while i < |marks| && !(marks[i].reset > reset && marks[i].at < end)
      invariant i <= |marks| && forall j | 0 <= j < i :: !(marks[j].reset > reset && marks[j].at < end)
    {
      i := i + 1;
    }
  }

  ghost predicate WindowsHold(marks: seq<Mark>, max: nat) { forall r :: InWindow(marks, r) <= max }

  /** No window after this one starts before its reset, or resets within the gap. */
  ghost predicate Ahead(marks: seq<Mark>, reset: nat, gap: nat) {
    forall i | 0 <= i < |marks| && marks[i].reset > reset :: reset <= marks[i].at && reset + gap <= marks[i].reset
  }

  lemma EachIsAhead(marks: seq<Mark>, gap: nat, i: nat)
    requires InOrder(marks, gap) && i < |marks|
    ensures Ahead(marks, marks[i].reset, gap)
    ensures forall j | i <= j < |marks| :: marks[i].reset <= marks[j].reset
  {
    forall j | 0 <= j < |marks| && j != i
      ensures marks[j].reset > marks[i].reset
              ==> marks[i].reset <= marks[j].at && marks[i].reset + gap <= marks[j].reset
      ensures i < j ==> marks[i].reset <= marks[j].reset
    {
      if j < i { assert Follows(marks[j], marks[i], gap); } else { assert Follows(marks[i], marks[j], gap); }
    }
  }

  lemma OneGap(n: nat, gap: nat)
    requires n > 0
    ensures n * gap == gap + (n - 1) * gap
  {
  }

  /** After a window, each gap more lets one more window in. */
  lemma {:induction false} LaterBounded(marks: seq<Mark>, gap: nat, max: nat, reset: nat, end: nat, n: nat)
    requires InOrder(marks, gap) && WindowsHold(marks, max) && Ahead(marks, reset, gap) && end <= reset + n * gap
    ensures Later(marks, reset, end) <= n * max
    decreases n
  {
    var i := FirstLater(marks, reset, end);
    if n == 0 || i == |marks| {
      NoneLater(marks, reset, end);
    } else {
      var next := marks[i].reset;
      EachIsAhead(marks, gap, i);
      LaterSplits(marks, reset, end, next);
      OneGap(n, gap);
      LaterBounded(marks, gap, max, next, end, n - 1);
      assert InWindow(marks, next) <= max;
      OneGap(n, max);
    }
  }

  /** The marks of a stretch are those of the first window in it, and those of later windows. */
  lemma {:induction false} StretchSplits(marks: seq<Mark>, from: nat, length: nat, first: nat)
    requires forall i | 0 <= i < |marks| && from <= marks[i].at < from + length :: first <= marks[i].reset
    ensures InStretch(marks, from, length) <= InWindow(marks, first) + Later(marks, first, from + length)
  {
    if marks != [] { StretchSplits(marks[..|marks| - 1], from, length, first); }
  }

  lemma {:induction false} NoneInStretch(marks: seq<Mark>, from: nat, length: nat)
    requires forall i | 0 <= i < |marks| :: !(from <= marks[i].at < from + length)
    ensures InStretch(marks, from, length) == 0
  {
    if marks != [] { NoneInStretch(marks[..|marks| - 1], from, length); }
  }

  lemma FirstIn(marks: seq<Mark>, from: nat, length: nat) returns (i: nat)
    ensures i <= |marks| && (i < |marks| ==> from <= marks[i].at < from + length)
    ensures forall j | 0 <= j < i :: !(from <= marks[j].at < from + length)
  {
    i := 0;
    while i < |marks| && !(from <= marks[i].at < from + length)
      invariant i <= |marks| && forall j | 0 <= j < i :: !(from <= marks[j].at < from + length)
    {
      i := i + 1;
    }
  }

  lemma SecondWindow(marks: seq<Mark>, gap: nat, i: nat, j: nat)
    requires InOrder(marks, gap) && i < |marks| && j < |marks| && marks[i].reset < marks[j].reset
    ensures i < j && marks[i].at + gap <= marks[j].reset
  {
    EachIsAhead(marks, gap, j);
    if i < j { assert Follows(marks[i], marks[j], gap); }
  }

  /** The second window in a stretch resets a gap after the first mark in it. */
  lemma StretchBounded(marks: seq<Mark>, gap: nat, max: nat, from: nat, length: nat, n: nat)
    requires InOrder(marks, gap) && WindowsHold(marks, max) && n > 0 && length <= n * gap
    ensures InStretch(marks, from, length) <= (n + 1) * max
  {
    var i := FirstIn(marks, from, length);
    if i == |marks| {
      NoneInStretch(marks, from, length);
    } else {
      var first, end := marks[i].reset, from + length;
      EachIsAhead(marks, gap, i);
      StretchSplits(marks, from, length, first);
      assert InWindow(marks, first) <= max;
      var j := FirstLater(marks, first, end);
      if j == |marks| {
        NoneLater(marks, first, end);
      } else {
        SecondWindow(marks, gap, i, j);
        EachIsAhead(marks, gap, j);
        LaterSplits(marks, first, end, marks[j].reset);
        assert InWindow(marks, marks[j].reset) <= max;
        OneGap(n, gap);
        LaterBounded(marks, gap, max, marks[j].reset, end, n - 1);
        OneGap(n, max);
      }
      OneGap(n + 1, max);
    }
  }

  /**
   Where no call acts on a reading older than `late`, windows reset at least a window less `late`
   apart: a window still holds at most `max` accepted calls, and a stretch of n such distances at
   most n + 1 times `max`. With no staleness and one distance, that is twice `max`.
   */
  lemma StaleAreBounded(c: Config, late: nat, acts: seq<Act>, key: Key, notes: nat, from: nat, length: nat, n: nat)
    requires late < c.window && c.max + notes < WORD && NotesBounded(c, late, acts, key, notes)
    requires n > 0 && length <= n * (c.window - late)
    ensures forall r :: InWindow(Taken(c, late, acts, key), r) <= c.max
    ensures InStretch(Taken(c, late, acts, key), from, length) <= (n + 1) * c.max
  {
    StaleCountIsExact(c, late, acts, key, notes);
    RunIsSpaced(c, late, acts, key);
    StretchBounded(Taken(c, late, acts, key), c.window - late, c.max, from, length, n);
  }

  // ---- Runs that pass twice the limit ----

  /** One act at the end of a run. */
  lemma OneActMore(c: Config, late: nat, before: seq<Act>, act: Act, acts: seq<Act>, key: Key)
    requires acts == before + [act]
    ensures var s := Done(c, late, before);
            && Done(c, late, acts) == Do(c, late, s, act)
            && Taken(c, late, acts, key)
               == Taken(c, late, before, key)
                  + (if IsAccepted(c, late, s, act, key) then [ActMark(c, s, key, act.ago)] else [])
            && (!act.Note? ==> Noted(c, late, acts, key) == Noted(c, late, before, key))
  {
    assert acts[..|acts| - 1] == before;
  }

  /** A run without notes: its state, and how many calls it has accepted in the stretch from a time on. */
  ghost predicate Gets(c: Config, late: nat, acts: seq<Act>, key: Key, s: State, from: nat, taken: nat) {
    && Done(c, late, acts) == s && Noted(c, late, acts, key) == []
    && InStretch(Taken(c, late, acts, key), from, c.window) == taken
  }

  lemma {:induction false} InStretchSnoc(marks: seq<Mark>, m: Mark, from: nat, length: nat)
    ensures InStretch(marks + [m], from, length)
            == InStretch(marks, from, length) + if from <= m.at < from + length then 1 else 0
  {
  }

  /** An act that is no note. */
  lemma GetsMore(c: Config, late: nat, before: seq<Act>, act: Act, key: Key, s: State, from: nat, taken: nat)
    returns (acts: seq<Act>)
    requires Gets(c, late, before, key, s, from, taken) && !act.Note?
    ensures Gets(c, late, acts, key, Do(c, late, s, act), from,
                 taken + if IsAccepted(c, late, s, act, key) && from <= s.now < from + c.window then 1 else 0)
  {
    acts := before + [act];
    OneActMore(c, late, before, act, acts, key);
    if IsAccepted(c, late, s, act, key) {
      InStretchSnoc(Taken(c, late, before, key), ActMark(c, s, key, act.ago), from, c.window);
    }
  }

  function Full(now: nat, key: Key, count: nat, reset: nat): State { State(now, map[key := Entry(count, reset)]) }

  lemma AttemptEffect(c: Config, late: nat, s: State, key: Key, ago: nat, count: nat)
    requires ago <= s.now && ago <= late && count < c.max < WORD
    requires Current(s.entries, key, s.now - ago, c.window) == Entry(count, s.now - ago + c.window)
    requires s.entries.Keys <= {key}
    ensures IsAccepted(c, late, s, Attempt(key, ago), key)
    ensures Do(c, late, s, Attempt(key, ago)) == Full(s.now, key, count + 1, s.now - ago + c.window)
  {
  }

  /** Calls that act at one time on one reading fill a fresh window. */
  lemma {:induction false} Fills(c: Config, late: nat, before: seq<Act>, key: Key, s: State, from: nat, taken: nat,
                                 ago: nat, n: nat)
    returns (acts: seq<Act>)
    requires ago <= s.now && ago <= late && 0 < n <= c.max < WORD && 0 < c.window && from <= s.now < from + c.window
    requires Gets(c, late, before, key, s, from, taken) && s.entries.Keys <= {key}
    requires key in s.entries ==> s.entries[key].reset <= s.now - ago
    ensures Gets(c, late, acts, key, Full(s.now, key, n, s.now - ago + c.window), from, taken + n)
  {
    if n == 1 {
      AttemptEffect(c, late, s, key, ago, 0);
      acts := GetsMore(c, late, before, Attempt(key, ago), key, s, from, taken);
    } else {
      var most := Fills(c, late, before, key, s, from, taken, ago, n - 1);
      var t := Full(s.now, key, n - 1, s.now - ago + c.window);
      AttemptEffect(c, late, t, key, ago, n - 1);
      acts := GetsMore(c, late, most, Attempt(key, ago), key, t, from, taken + (n - 1));
    }
  }

  /** A call that read the clock before the reset and acts at it. */
  lemma StaleEffect(c: Config, late: nat, key: Key)
    requires 1 <= late < c.window && 2 <= c.max < WORD
    ensures var s := Full(c.window, key, 1, c.window);
            && IsAccepted(c, late, s, Attempt(key, 1), key)
            && Do(c, late, s, Attempt(key, 1)) == Full(c.window, key, 2, c.window)
  {
  }

  /**
   With staleness: a call still counted in the first window, a cleanup, calls that read before the
   first reset and open a window that ends early, and the window after that.
   */
  lemma StretchPassed(c: Config, late: nat, key: Key) returns (acts: seq<Act>)
    requires 1 <= late < c.window && 2 <= c.max < WORD
    ensures Noted(c, late, acts, key) == [] && InStretch(Taken(c, late, acts, key), c.window, c.window) == 2 * c.max + 1
  {
    var w := c.window;
    acts := [];
    AttemptEffect(c, late, State(0, map[]), key, 0, 0);
    acts := GetsMore(c, late, acts, Attempt(key, 0), key, State(0, map[]), w, 0);
    var s := Full(0, key, 1, w);
    acts := GetsMore(c, late, acts, Wait(w), key, s, w, 0);
    s := Full(w, key, 1, w);
    StaleEffect(c, late, key);
    acts := GetsMore(c, late, acts, Attempt(key, 1), key, s, w, 0);
    s := Full(w, key, 2, w);
    assert Do(c, late, s, Clean(0)) == State(w, map[]);
    acts := GetsMore(c, late, acts, Clean(0), key, s, w, 1);
    acts := Fills(c, late, acts, key, State(w, map[]), w, 1, 1, c.max);
    s := Full(w, key, c.max, 2 * w - 1);
    acts := GetsMore(c, late, acts, Wait(w - 1), key, s, w, c.max + 1);
    acts := Fills(c, late, acts, key, Full(2 * w - 1, key, c.max, 2 * w - 1), w, c.max + 1, 0, c.max);
  }

  // ---- A limit of one ----

  /** An entry counts something. */
  lemma {:induction false} CountsSome(c: Config, late: nat, acts: seq<Act>, key: Key, notes: nat)
    requires late < c.window && 1 <= c.max && c.max + notes < WORD && NotesBounded(c, late, acts, key, notes)
    ensures var s := Done(c, late, acts); key in s.entries ==> s.entries[key].count >= 1
  {
    if acts != [] {
      var n := |acts| - 1;
      var s, act := Done(c, late, acts[..n]), acts[n];
      InitNotes(c, late, acts, key, notes);
      CountsSome(c, late, acts[..n], key, notes);
      StaleCountIsExact(c, late, acts, key, notes);
      if IsNoted(s, act, key, late) {
        InWindowSnoc(Noted(c, late, acts[..n], key), ActMark(c, s, key, act.ago), ActMark(c, s, key, act.ago).reset);
      }
    }
  }

  /** With a limit of one, an accepted call opens its window. */
  lemma {:induction false} TakenOpens(c: Config, late: nat, acts: seq<Act>, key: Key, notes: nat)
    requires late < c.window && c.max == 1 && 1 + notes < WORD && NotesBounded(c, late, acts, key, notes)
    ensures forall m <- Taken(c, late, acts, key) :: m.at + (c.window - late) <= m.reset
  {
    if acts != [] {
      InitNotes(c, late, acts, key, notes);
      TakenOpens(c, late, acts[..|acts| - 1], key, notes);
      CountsSome(c, late, acts[..|acts| - 1], key, notes);
    }
  }

  /** A third window starts two gaps after a mark that opened its own. */
  lemma OpenersBounded(marks: seq<Mark>, gap: nat, max: nat, from: nat, length: nat)
    requires InOrder(marks, gap) && WindowsHold(marks, max) && length <= 2 * gap
    requires forall m <- marks :: m.at + gap <= m.reset
    ensures InStretch(marks, from, length) <= 2 * max
  {
    var i := FirstIn(marks, from, length);
    if i == |marks| {
      NoneInStretch(marks, from, length);
    } else {
      var first := marks[i].reset;
      EachIsAhead(marks, gap, i);
      StretchSplits(marks, from, length, first);
      assert InWindow(marks, first) <= max && marks[i] in marks;
      LaterBounded(marks, gap, max, first, from + length, 1);
    }
  }

  /** Three windows that are opened on readings staler than half a window, within one window's length. */
  lemma OnePassed(c: Config, late: nat, key: Key) returns (acts: seq<Act>, from: nat)
    requires c.max == 1 && late < c.window < 2 * late
    ensures Noted(c, late, acts, key) == [] && InStretch(Taken(c, late, acts, key), from, c.window) == 3
  {
    var w := c.window;
    from := late;
    acts := GetsMore(c, late, [], Wait(late), key, State(0, map[]), late, 0);
    acts := Fills(c, late, acts, key, State(late, map[]), late, 0, late, 1);
    acts := GetsMore(c, late, acts, Wait(w - late), key, Full(late, key, 1, w), late, 1);
    assert Do(c, late, Full(w, key, 1, w), Clean(0)) == State(w, map[]);
    acts := GetsMore(c, late, acts, Clean(0), key, Full(w, key, 1, w), late, 1);
    acts := Fills(c, late, acts, key, State(w, map[]), late, 1, late, 1);
    acts := GetsMore(c, late, acts, Wait(w - late), key, Full(w, key, 1, 2 * w - late), late, 2);
    acts := Fills(c, late, acts, key, Full(2 * w - late, key, 1, 2 * w - late), late, 2, 0, 1);
  }

  // ---- Twice the limit in every stretch of a window ----

  ghost predicate StretchLimitHolds(c: Config, late: nat, notes: nat) {
    forall acts, key, from: nat | NotesBounded(c, late, acts, key, notes) ::
      InStretch(Taken(c, late, acts, key), from, c.window) <= 2 * c.max
  }

  lemma {:induction false} NothingTaken(c: Config, late: nat, acts: seq<Act>, key: Key)
    requires c.max == 0
    ensures Taken(c, late, acts, key) == []
  {
    if acts != [] { NothingTaken(c, late, acts[..|acts| - 1], key); }
  }

  lemma StretchWithin(c: Config, late: nat, acts: seq<Act>, key: Key, notes: nat, from: nat)
    requires late < c.window && c.max + notes < WORD && NotesBounded(c, late, acts, key, notes)
    requires late == 0 || c.max == 0 || (c.max == 1 && 2 * late <= c.window)
    ensures InStretch(Taken(c, late, acts, key), from, c.window) <= 2 * c.max
  {
    if late == 0 {
      StaleAreBounded(c, late, acts, key, notes, from, c.window, 1);
    } else if c.max == 0 {
      NothingTaken(c, late, acts, key);
    } else {
      StaleCountIsExact(c, late, acts, key, notes);
      RunIsSpaced(c, late, acts, key);
      TakenOpens(c, late, acts, key, notes);
      OpenersBounded(Taken(c, late, acts, key), c.window - late, 1, from, c.window);
    }
  }

  /**
   Twice the limit holds in every stretch of a window, in all runs, exactly if no reading is stale,
   or nothing is let in, or one call at a time and readings are no staler than half a window.
   */
  lemma StretchLimitIff(c: Config, late: nat, notes: nat)
    requires late < c.window && c.max + notes < WORD
    ensures StretchLimitHolds(c, late, notes) <==> late == 0 || c.max == 0 || (c.max == 1 && 2 * late <= c.window)
  {
    if late == 0 || c.max == 0 || (c.max == 1 && 2 * late <= c.window) {
      forall acts, key, from: nat | NotesBounded(c, late, acts, key, notes)
        ensures InStretch(Taken(c, late, acts, key), from, c.window) <= 2 * c.max
      {
        StretchWithin(c, late, acts, key, notes, from);
      }
    } else if c.max == 1 {
      var acts, from := OnePassed(c, late, Key(""));
      assert NotesBounded(c, late, acts, Key(""), notes);
    } else {
      var acts := StretchPassed(c, late, Key(""));
      assert NotesBounded(c, late, acts, Key(""), notes);
    }
  }
}
