/** Inbound guarantees of the session over whole runs: order, completeness and the recovery discipline. */
module FixSessionInbound {
  import opened Bytes
  import opened FixCodec
  import opened FixSession

  // ------------------------------------------------------ recovery discipline

  ghost predicate Ascending(processed: seq<Inbound>, bound: int)
  {
    && (forall i :: 0 <= i < |processed| ==> processed[i].sequence < bound)
    && (forall i, j :: 0 <= i < j < |processed| ==> processed[i].sequence < processed[j].sequence)
  }

  /** Buffered messages sit under their own number, at or above the expected one. */
  ghost predicate Buffered(s: State)
  {
    forall k :: k in s.pending ==> k >= s.expectedIn && s.pending[k].sequence == k && !s.pending[k].kind.SequenceReset?
  }

  /** Holds in every reachable state, after errors too. */
  ghost predicate Disciplined(c: Config, s: State)
  {
    && s.expectedIn >= 1
    && Ascending(s.processed, s.expectedIn)
    && Buffered(s)
    && |s.pending| <= (if c.maxRecoveryBuffer <= 0 then 64 else c.maxRecoveryBuffer)
    && (s.pending != map[] ==> s.recovering)
  }

  /** Holds after every event handled without error. */
  ghost predicate Quiescent(s: State)
  {
    s.expectedIn !in s.pending && (s.recovering <==> s.pending != map[])
  }

  lemma ConsumedDisciplined(c: Config, s: State, m: Inbound, t: State, failed: bool)
    requires Disciplined(c, s) && m.sequence == s.expectedIn && s.expectedIn !in s.pending
    requires Consumed(s, m, t, failed)
    ensures Disciplined(c, t)
  {
  }

  lemma EmptyIffZero<T>(m: map<int, T>)
    ensures |m| == 0 <==> m == map[]
  {
    if |m| == 0 { assert m.Keys == {}; }
  }

  /** Draining keeps the discipline and, when nothing fails, stops only at a real gap. */
  lemma {:induction false} DrainDisciplined(c: Config, env: Env, s: State)
    requires Disciplined(c, s)
    ensures Disciplined(c, Drain(c, env, s).state)
    ensures var r := Drain(c, env, s);
            r.error.None? ==> r.state.expectedIn !in r.state.pending && r.state.recovering == s.recovering
    decreases |s.pending|
  {
    if s.expectedIn in s.pending {
      var popped := s.(pending := s.pending - {s.expectedIn});
      SmallerWithout(s.pending, s.expectedIn);
      var m := s.pending[s.expectedIn];
      var r := Process(c, env, popped, m);
      ConsumedDisciplined(c, popped, m, r.state, r.error.Some?);
      if r.error.None? {
        DrainDisciplined(c, env, r.state);
      }
    }
  }

  lemma DrainAndFinishDisciplined(c: Config, env: Env, s: State)
    requires Disciplined(c, s)
    ensures var r := DrainAndFinish(c, env, s); Disciplined(c, r.state) && (r.error.None? ==> Quiescent(r.state))
  {
    DrainDisciplined(c, env, s);
    EmptyIffZero(Drain(c, env, s).state.pending);
  }

  lemma FewerAbove<T>(m: map<int, T>, bound: int)
    ensures var kept := map k | k in m && k >= bound :: m[k]; |kept| <= |m|
  {
    var kept := map k | k in m && k >= bound :: m[k];
    assert kept.Keys <= m.Keys;
    SubsetSize(kept.Keys, m.Keys);
  }

  lemma {:induction false} SubsetSize<T>(a: set<T>, b: set<T>)
    requires a <= b
    ensures |a| <= |b|
  {
    if a != {} {
      var x :| x in a;
      SubsetSize(a - {x}, b - {x});
    }
  }

  lemma ResetDisciplined(c: Config, env: Env, s: State, next: Option<int>)
    requires Disciplined(c, s)
    ensures var r := HandleReset(c, env, s, next); Disciplined(c, r.state) && (r.error.None? ==> Quiescent(r.state))
  {
    if s.loggedOn && next.Some? && next.value > s.expectedIn {
      var moved := s.(expectedIn := next.value, recovering := true,
                      pending := map k | k in s.pending && k >= next.value :: s.pending[k]);
      FewerAbove(s.pending, next.value);
      assert Ascending(s.processed, next.value);
      DrainAndFinishDisciplined(c, env, moved);
    }
  }

  lemma GapDisciplined(c: Config, env: Env, s: State, m: Inbound)
    requires Disciplined(c, s) && m.sequence > s.expectedIn && !m.kind.SequenceReset?
    ensures var r := HandleGap(c, env, s, m);
            Disciplined(c, r.state) && (Quiescent(s) && r.error.None? ==> Quiescent(r.state))
  {
    var k := m.sequence;
    if k !in s.pending && |s.pending| < c.MaxPending() {
      var grown := s.pending[k := m];
      assert grown.Keys == s.pending.Keys + {k};
      assert k in grown;
    }
  }

  lemma ExpectedDisciplined(c: Config, env: Env, s: State, m: Inbound)
    requires Disciplined(c, s) && Quiescent(s) && m.sequence == s.expectedIn && !m.kind.SequenceReset?
    ensures var r := Handle(c, env, s, m); Disciplined(c, r.state) && (r.error.None? ==> Quiescent(r.state))
  {
    var r := Process(c, env, s, m);
    ConsumedDisciplined(c, s, m, r.state, r.error.Some?);
    if r.error.None? {
      DrainAndFinishDisciplined(c, env, r.state);
    }
  }

  /** Every event keeps the discipline, even when it ends in an error; without one, recovery mode is on
      exactly while something is buffered. */
  lemma ReactDisciplined(c: Config, env: Env, s: State, e: Event)
    requires Disciplined(c, s) && Quiescent(s)
    ensures var r := React(c, env, s, e); Disciplined(c, r.state) && (r.error.None? ==> Quiescent(r.state))
  {
    if e.Arrive? {
      var m := e.message;
      if m.sequence > 0 {
        var k := m.sequence;
        if m.kind.SequenceReset? {
          ResetDisciplined(c, env, s, m.kind.next);
        } else if k > s.expectedIn {
          GapDisciplined(c, env, s, m);
        } else if k == s.expectedIn {
          ExpectedDisciplined(c, env, s, m);
        }
      }
    }
  }

  /** In every run, with gaps, duplicates and SequenceResets, and whatever the environment answers:
      processed numbers strictly increase, the buffer stays within its limit, a non-empty buffer means
      recovery mode (so `Send` is refused), and without an error recovery mode means a non-empty buffer. */
  lemma {:induction false} RunDisciplined(c: Config, env: Env, asked: nat, events: seq<Event>)
    ensures var r := Run(c, env, Started(asked), events); Disciplined(c, r.state) && (r.error.None? ==> Quiescent(r.state))
    decreases |events|
  {
    if events == [] {
    } else {
      var init := events[..|events| - 1];
      RunDisciplined(c, env, asked, init);
      var r := Run(c, env, Started(asked), init);
      if r.error.None? {
        ReactDisciplined(c, env, r.state, events[|events| - 1]);
      }
    }
  }

  /** So an application send in such a state leaves no trace while messages are missing. */
  lemma SendRefusedDuringGap(c: Config, env: Env, asked: nat, events: seq<Event>, out: Outbound)
    requires Run(c, env, Started(asked), events).state.pending != map[]
    ensures var s := Run(c, env, Started(asked), events).state; Send(c, env, s, out).state == s && Send(c, env, s, out).error.Some?
  {
    RunDisciplined(c, env, asked, events);
  }

  // ------------------------------------------------------- in-order completeness

  /** The message is a transmission, first or repeated, of entry number `m.sequence` of the log. */
  ghost predicate FromLog(m: Inbound, log: seq<seq<Field>>)
  {
    && !m.kind.SequenceReset?
    && 1 <= m.sequence <= |log|
    && m.content == log[m.sequence - 1]
  }

  ghost predicate AllFromLog(events: seq<Event>, log: seq<seq<Field>>)
  {
    forall i :: 0 <= i < |events| && events[i].Arrive? ==> FromLog(events[i].message, log)
  }

  /** The numbers that have arrived. */
  ghost function Arrived(events: seq<Event>): set<int>
  {
    set i | 0 <= i < |events| && events[i].Arrive? :: events[i].message.sequence
  }

  /** Entries 1 to expectedIn-1 have been processed in order, and `arrived` is exactly those numbers
      together with the buffered ones. */
  ghost predicate Faithful(s: State, log: seq<seq<Field>>, arrived: set<int>)
  {
    && |s.processed| == s.expectedIn - 1 <= |log|
    && (forall i :: 0 <= i < |s.processed| ==>
          s.processed[i].sequence == i + 1 && s.processed[i].content == log[i])
    && (forall k :: k in s.pending ==> FromLog(s.pending[k], log) && s.pending[k].sequence == k)
    && arrived == Interval(1, s.expectedIn) + s.pending.Keys
  }

  lemma ConsumedFaithful(s: State, m: Inbound, t: State, failed: bool, log: seq<seq<Field>>, arrived: set<int>)
    requires Faithful(s, log, arrived) && FromLog(m, log) && m.sequence == s.expectedIn
    requires Consumed(s, m, t, failed)
    ensures Faithful(t, log, arrived + {s.expectedIn})
  {
    assert Interval(1, t.expectedIn) == Interval(1, s.expectedIn) + {s.expectedIn};
  }

  lemma {:induction false} DrainFaithful(c: Config, env: Env, s: State, log: seq<seq<Field>>, arrived: set<int>)
    requires Faithful(s, log, arrived) && s.expectedIn >= 1
    ensures Faithful(Drain(c, env, s).state, log, arrived)
    decreases |s.pending|
  {
    if s.expectedIn in s.pending {
      var popped := s.(pending := s.pending - {s.expectedIn});
      var m := s.pending[s.expectedIn];
      SmallerWithout(s.pending, s.expectedIn);
      assert popped.pending.Keys == s.pending.Keys - {s.expectedIn};
      var rest := Interval(1, s.expectedIn) + popped.pending.Keys;
      assert rest + {s.expectedIn} == arrived;
      var r := Process(c, env, popped, m);
      ConsumedFaithful(popped, m, r.state, r.error.Some?, log, rest);
      if r.error.None? {
        DrainFaithful(c, env, r.state, log, arrived);
      }
    }
  }

  lemma ReactFaithful(c: Config, env: Env, s: State, e: Event, log: seq<seq<Field>>, arrived: set<int>)
    requires Disciplined(c, s) && Quiescent(s) && Faithful(s, log, arrived)
    requires e.Arrive? ==> FromLog(e.message, log)
    requires React(c, env, s, e).error.None?
    ensures Faithful(React(c, env, s, e).state, log, if e.Arrive? then arrived + {e.message.sequence} else arrived)
  {
    if e.Arrive? {
      var m := e.message;
      var k := m.sequence;
      if k > s.expectedIn {
        GapFaithful(c, env, s, m, log, arrived);
      } else if k < s.expectedIn {
        assert arrived + {k} == arrived;
      } else {
        ExpectedFaithful(c, env, s, m, log, arrived);
      }
    }
  }

  lemma ExpectedFaithful(c: Config, env: Env, s: State, m: Inbound, log: seq<seq<Field>>, arrived: set<int>)
    requires Faithful(s, log, arrived) && FromLog(m, log) && m.sequence == s.expectedIn
    requires Handle(c, env, s, m).error.None?
    ensures Faithful(Handle(c, env, s, m).state, log, arrived + {m.sequence})
  {
    var r := Process(c, env, s, m);
    ConsumedFaithful(s, m, r.state, r.error.Some?, log, arrived);
    DrainFaithful(c, env, r.state, log, arrived + {m.sequence});
    SameInboundFaithful(Drain(c, env, r.state).state, Handle(c, env, s, m).state, log, arrived + {m.sequence});
  }

  lemma BufferFaithful(s: State, m: Inbound, log: seq<seq<Field>>, arrived: set<int>)
    requires Faithful(s, log, arrived) && FromLog(m, log) && m.sequence !in s.pending
    ensures Faithful(s.(pending := s.pending[m.sequence := m]), log, arrived + {m.sequence})
  {
    assert s.pending[m.sequence := m].Keys == s.pending.Keys + {m.sequence};
  }

  lemma GapFaithful(c: Config, env: Env, s: State, m: Inbound, log: seq<seq<Field>>, arrived: set<int>)
    requires Faithful(s, log, arrived) && FromLog(m, log) && m.sequence > s.expectedIn
    requires HandleGap(c, env, s, m).error.None?
    ensures Faithful(HandleGap(c, env, s, m).state, log, arrived + {m.sequence})
  {
    var r := HandleGap(c, env, s, m).state;
    if m.sequence in s.pending {
      assert arrived + {m.sequence} == arrived;
      SameInboundFaithful(s, r, log, arrived);
    } else {
      BufferFaithful(s, m, log, arrived);
      SameInboundFaithful(s.(pending := s.pending[m.sequence := m]), r, log, arrived + {m.sequence});
    }
  }

  lemma SameInboundFaithful(s: State, t: State, log: seq<seq<Field>>, arrived: set<int>)
    requires Faithful(s, log, arrived) && t.pending == s.pending && t.processed == s.processed && t.expectedIn == s.expectedIn
    ensures Faithful(t, log, arrived)
  {
  }

  lemma ArrivedGrows(events: seq<Event>)
    requires |events| > 0
    ensures var init, e := events[..|events| - 1], events[|events| - 1];
            Arrived(events) == if e.Arrive? then Arrived(init) + {e.message.sequence} else Arrived(init)
  {
    var init, e := events[..|events| - 1], events[|events| - 1];
    forall k
      ensures k in Arrived(events) <==> k in Arrived(init) || (e.Arrive? && e.message.sequence == k)
    {
      if k in Arrived(events) {
        var i :| 0 <= i < |events| && events[i].Arrive? && events[i].message.sequence == k;
        if i < |init| { assert init[i] == events[i]; }
      }
      if k in Arrived(init) {
        var i :| 0 <= i < |init| && init[i].Arrive? && init[i].message.sequence == k;
        assert events[i] == init[i];
      }
    }
  }

  lemma {:induction false} RunFaithful(c: Config, env: Env, asked: nat, events: seq<Event>, log: seq<seq<Field>>)
    requires AllFromLog(events, log)
    requires Run(c, env, Started(asked), events).error.None?
    ensures Faithful(Run(c, env, Started(asked), events).state, log, Arrived(events))
    decreases |events|
  {
    if events == [] {
    } else {
      var init, e := events[..|events| - 1], events[|events| - 1];
      assert forall i :: 0 <= i < |init| ==> init[i] == events[i];
      RunFaithful(c, env, asked, init, log);
      RunDisciplined(c, env, asked, init);
      ReactFaithful(c, env, Run(c, env, Started(asked), init).state, e, log, Arrived(init));
      ArrivedGrows(events);
    }
  }

  /** Entries 1 to expectedIn-1 have been processed, in order and once each; expectedIn is the least number
      not yet arrived; and the buffer holds exactly the arrivals above it. */
  ghost predicate Delivered(s: State, log: seq<seq<Field>>, arrived: set<int>)
  {
    && |s.processed| == s.expectedIn - 1 <= |log|
    && (forall i :: 0 <= i < |s.processed| ==> s.processed[i].content == log[i])
    && (forall k :: 1 <= k < s.expectedIn ==> k in arrived)
    && s.expectedIn !in arrived
    && s.pending.Keys == (set k | k in arrived && k > s.expectedIn)
    && (forall k :: k in s.pending ==> 1 <= k <= |log| && s.pending[k].content == log[k - 1])
  }

  lemma FaithfulDelivered(c: Config, s: State, log: seq<seq<Field>>, arrived: set<int>)
    requires Disciplined(c, s) && Quiescent(s) && Faithful(s, log, arrived)
    ensures Delivered(s, log, arrived)
  {
    PendingAbove(s.pending.Keys, s.expectedIn, arrived);
  }

  lemma PendingAbove(pending: set<int>, expected: nat, arrived: set<int>)
    requires arrived == Interval(1, expected) + pending && forall k :: k in pending ==> k > expected
    ensures pending == (set k | k in arrived && k > expected) && expected !in arrived
    ensures forall k :: 1 <= k < expected ==> k in arrived
  {
    assert forall k :: k in Interval(1, expected) <==> Between(1, k, expected);
    assert forall k :: 1 <= k < expected ==> Between(1, k, expected);
  }

  /** For arrivals drawn from a numbered log, in any order and with any repeats, every error-free run has
      delivered exactly the gap-free prefix of the log that has arrived. */
  lemma InOrderDelivery(c: Config, env: Env, asked: nat, events: seq<Event>, log: seq<seq<Field>>)
    requires AllFromLog(events, log)
    requires Run(c, env, Started(asked), events).error.None?
    ensures Delivered(Run(c, env, Started(asked), events).state, log, Arrived(events))
  {
    RunFaithful(c, env, asked, events, log);
    RunDisciplined(c, env, asked, events);
    FaithfulDelivered(c, Run(c, env, Started(asked), events).state, log, Arrived(events));
  }
}
