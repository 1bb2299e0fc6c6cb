/**
 The status of one agent and the terminal events it broadcasts.

 emit_finish and emit_error flip the status under the lock and send after releasing it, so the
 flip and the send are two steps and any number of threads may be between them.
 */
module AgentRuntime {
  import opened Wrappers

  type ThreadId = nat

  datatype Status = Pending | Running | Finished
  datatype Event = Finish(session: Option<string>) | Error(message: string)

  datatype State = State(
    status: Option<Status>,
    pending: map<ThreadId, Event>,  // threads that won the flip and have yet to send
    sent: seq<Event>,
    resets: nat,                    // history: calls of reset_for_new_turn
    wins: nat                       // history: flips that found the status not finished
  )

  datatype Step =
    | TransitionTo(status: Status)
    | Reset(status: Status)
    | Flip(t: ThreadId, event: Event)
    | Send(t: ThreadId)

  const START := State(None, map[], [], 0, 0)

  predicate IsFinished(s: State) { s.status == Some(Finished) }

  function Apply(s: State, e: Step): State {
    match e
    case TransitionTo(st) => if IsFinished(s) then s else s.(status := Some(st))
    case Reset(st) => s.(status := Some(st), resets := s.resets + 1)
    case Flip(t, event) =>
      if t in s.pending || IsFinished(s) then s
      else s.(status := Some(Finished), pending := s.pending[t := event], wins := s.wins + 1)
    case Send(t) =>
      if t in s.pending then s.(pending := s.pending - {t}, sent := s.sent + [s.pending[t]]) else s
  }

  function After(s: State, steps: seq<Step>): State
    decreases |steps|
  {
    if steps == [] then s else After(Apply(s, steps[0]), steps[1..])
  }

  lemma OneStep(s: State, e: Step)
    ensures After(s, [e]) == Apply(s, e)
  {
    assert [e][1..] == [];
  }

  lemma ShortRuns(s: State, a: Step, b: Step, c: Step)
    ensures After(s, [a, b]) == Apply(Apply(s, a), b)
    ensures After(s, [a, b, c]) == Apply(Apply(Apply(s, a), b), c)
  {
    assert [a, b, c][1..] == [b, c] && [b, c][1..] == [c] && [a, b][1..] == [b];
    OneStep(Apply(s, a), b);
    OneStep(Apply(Apply(s, a), b), c);
    assert After(s, [a, b, c]) == After(Apply(s, a), [b, c]) == After(Apply(Apply(s, a), b), [c]);
  }

  /** One more flip can be won before the next reset. */
  function Open(s: State): nat { if IsFinished(s) then 0 else 1 }

  ghost predicate Inv(s: State) {
    |s.sent| + |s.pending| == s.wins && s.wins + Open(s) <= 1 + s.resets
  }

  lemma {:induction false} RunKeepsInv(s: State, steps: seq<Step>)
    requires Inv(s)
    ensures Inv(After(s, steps))
    decreases |steps|
  {
    if steps != [] {
      var t := Apply(s, steps[0]);
      if steps[0].Send? && steps[0].t in s.pending {
        assert s.pending.Keys == t.pending.Keys + {steps[0].t};
      }
      RunKeepsInv(t, steps[1..]);
    }
  }

  /**
   In every interleaving the terminal events sent never exceed one plus the resets, and every
   won flip is either sent or about to be.
   */
  lemma TerminalEventsBounded(steps: seq<Step>)
    ensures var s := After(START, steps); |s.sent| <= 1 + s.resets && |s.sent| + |s.pending| == s.wins <= 1 + s.resets
  {
    RunKeepsInv(START, steps);
  }

  ghost predicate NoReset(steps: seq<Step>) {
    forall e <- steps :: !e.Reset?
  }

  /**
   Between two resets at most one thread wins the flip and none once the status is finished,
   finished persists, and the events sent are at most the ones already owed plus that one.
   */
  lemma {:induction false} OneWinnerPerTurn(s: State, steps: seq<Step>)
    requires NoReset(steps)
    ensures var t := After(s, steps);
            && s.wins <= t.wins <= s.wins + Open(s)
            && (IsFinished(s) ==> IsFinished(t))
            && |t.sent| + |t.pending| + Open(t) <= |s.sent| + |s.pending| + Open(s)
            && s.sent <= t.sent
    decreases |steps|
  {
    if steps != [] {
      var t := Apply(s, steps[0]);
      if steps[0].Send? && steps[0].t in s.pending {
        assert s.pending.Keys == t.pending.Keys + {steps[0].t};
      }
      OneWinnerPerTurn(t, steps[1..]);
    }
  }

  lemma {:induction false} FreshThread(ts: set<ThreadId>) returns (t: ThreadId)
    ensures t !in ts && forall u <- ts :: u < t
    decreases ts
  {
    if ts == {} {
      t := 0;
    } else {
      var u :| u in ts;
      var v := FreshThread(ts - {u});
      assert forall w <- ts :: w == u || w in ts - {u};
      t := if u < v then v else u + 1;
    }
  }

  lemma TwoEvents(s: State) returns (steps: seq<Step>)
    requires |s.pending| + Open(s) >= 2
    ensures NoReset(steps) && |After(s, steps).sent| == |s.sent| + 2
  {
    assert |s.pending| >= 1;
    var p :| p in s.pending;
    if IsFinished(s) {
      assert s.pending.Keys - {p} != {} by { assert s.pending.Keys == (s.pending.Keys - {p}) + {p}; }
      var q :| q in s.pending.Keys - {p};
      steps := [Send(p), Send(q)];
      assert q in Apply(s, Send(p)).pending;
      ShortRuns(s, Send(p), Send(q), Send(q));
    } else {
      var t := FreshThread(s.pending.Keys);
      steps := [Flip(t, Finish(None)), Send(t), Send(p)];
      var s2 := Apply(Apply(s, Flip(t, Finish(None))), Send(t));
      assert p in s2.pending && |s2.sent| == |s.sent| + 1;
      ShortRuns(s, Flip(t, Finish(None)), Send(t), Send(p));
    }
  }

  /**
   A turn that starts in `s` sends at most one terminal event under every interleaving exactly
   when at most one is owed: either the status is open and no earlier winner has yet to send,
   or it is finished and at most one has.
   */
  lemma OneEventPerTurnIff(s: State)
    ensures (forall steps | NoReset(steps) :: |After(s, steps).sent| <= |s.sent| + 1)
            <==> |s.pending| + Open(s) <= 1
  {
    if |s.pending| + Open(s) <= 1 {
      forall steps | NoReset(steps) ensures |After(s, steps).sent| <= |s.sent| + 1 {
        OneWinnerPerTurn(s, steps);
      }
    } else {
      var steps := TwoEvents(s);
      assert NoReset(steps);
    }
  }

  ghost predicate WinsLater(s: State, steps: seq<Step>) { NoReset(steps) && After(s, steps).wins > s.wins }

  /**
   A reset lets one thread, and no more, win the flip again exactly when it is not a reset to
   finished; a transition lets none.
   */
  lemma ResetReopensIff(s: State, to: Status)
    ensures (exists steps :: WinsLater(Apply(s, Reset(to)), steps)) <==> to != Finished
    ensures forall steps | NoReset(steps) :: After(Apply(s, Reset(to)), steps).wins <= s.wins + 1
    ensures IsFinished(s) ==> forall steps :: !WinsLater(Apply(s, TransitionTo(to)), steps)
  {
    var r := Apply(s, Reset(to));
    forall steps | NoReset(steps) ensures After(r, steps).wins <= r.wins + Open(r) { OneWinnerPerTurn(r, steps); }
    if to != Finished {
      var t := FreshThread(s.pending.Keys);
      var steps := [Flip(t, Finish(None))];
      assert After(r, steps) == Apply(r, steps[0]) by { assert steps[1..] == []; }
      assert WinsLater(r, steps);
    }
    if IsFinished(s) {
      forall steps ensures !WinsLater(s, steps) {
        if NoReset(steps) { OneWinnerPerTurn(s, steps); }
      }
    }
  }

  /** The flip and the send are not one step: a finish of an old turn arrives in the new one. */
  lemma StaleFinish()
    ensures var oldTurn := After(START, [Flip(0, Finish(None)), Reset(Running)]);
            oldTurn.sent == [] && oldTurn.status == Some(Running)
            && After(oldTurn, [Send(0), Flip(1, Finish(None)), Send(1)]).sent == [Finish(None), Finish(None)]
  {
  }

  /** With no other thread at work: finished afterwards, and the event sent unless it was before. */
  lemma UninterruptedEmit(s: State, event: Event)
    requires s.pending == map[]
    ensures var t := After(s, [Flip(0, event), Send(0)]);
            && t.status == Some(Finished) && t.pending == map[]
            && t.sent == (if IsFinished(s) then s.sent else s.sent + [event])
            && t.wins == (if IsFinished(s) then s.wins else s.wins + 1) && t.resets == s.resets
  {
    ShortRuns(s, Flip(0, event), Send(0), Send(0));
    assert map[0 := event] - {0} == map[];
  }

  class Runtime {
    var status: Option<Status>
    var sent: seq<Event>
    var lastActivity: int
    ghost var wins: nat
    ghost var resets: nat

    /** The machine's state while no thread is about to send. */
    ghost function Now(): State
      reads this
    {
      State(status, map[], sent, resets, wins)
    }

    constructor (now: int)
      ensures Now() == START && lastActivity == now
    {
      status, sent, lastActivity, wins, resets := None, [], now, 0, 0;
    }

    method BumpActivity(now: int)
      modifies `lastActivity
      ensures lastActivity == now
    {
      lastActivity := now;
    }

    method Transition(to: Status)
      modifies `status
      ensures Now() == Apply(old(Now()), TransitionTo(to))
      ensures status == Some(if old(status) == Some(Finished) then Finished else to)
    {
      if status == Some(Finished) {
        return;
      }
      status := Some(to);
    }

    method ResetForNewTurn(to: Status)
      modifies `status, `resets
      ensures Now() == Apply(old(Now()), Reset(to))
      ensures status == Some(to) && (Open(Now()) == 1 <==> to != Finished)
    {
      status := Some(to);
      resets := resets + 1;
    }

    /** Both emit_finish and emit_error: they differ in the event alone. */
    method EmitTerminal(event: Event)
      modifies `status, `sent, `wins
      ensures Now() == After(old(Now()), [Flip(0, event), Send(0)])
      ensures IsFinished(Now()) && sent == if IsFinished(old(Now())) then old(sent) else old(sent) + [event]
    {
      UninterruptedEmit(Now(), event);
      var alreadyFinished := status == Some(Finished);
      if !alreadyFinished {
        status := Some(Finished);
        wins := wins + 1;
      }
      if alreadyFinished {
        return;
      }
      sent := sent + [event];
    }
  }
}
