/** Outbound guarantees of the session over whole runs: the journal window and exact replay. */
module FixSessionOutbound {
  import opened Bytes
  import opened FixCodec
  import opened FixSession

  /** The first number still in the journal. */
  function WindowStart(c: Config, nextOut: nat): (lo: int)
    requires nextOut >= 2
    ensures 2 <= lo <= nextOut
  {
    var limit := if c.maxOutboundJournal <= 0 then 256 else c.maxOutboundJournal;
    if nextOut - 2 <= limit then 2 else nextOut - limit
  }

  /** A message as `sendLocked` builds it. */
  ghost predicate Stamped(fields: seq<Field>, sequence: nat)
  {
    && Legal(fields) && |fields| >= 5
    && fields[1].tag == 49 && fields[2].tag == 56
    && fields[3] == Field(34, FormatNat(sequence))
    && fields[4].tag == 52 && fields[4].value != []
  }

  ghost predicate WindowOf(c: Config, nextOut: nat, sent: seq<seq<Field>>, journal: map<int, seq<Field>>)
  {
    && nextOut >= 2 && |sent| == nextOut - 2
    && (forall i :: 0 <= i < |sent| ==> Stamped(sent[i], i + 2))
    && journal.Keys == Interval(WindowStart(c, nextOut), nextOut)
    && (forall k :: k in journal ==> journal[k] == sent[k - 2])
  }

  /** The journal is the contiguous window of the last min(MaxOutboundJournal, nextOut-2) messages sent. */
  ghost predicate JournalWindow(c: Config, s: State)
  {
    WindowOf(c, s.nextOut, s.sent, s.journal)
  }

  lemma {:induction false} IntervalSize(lo: int, hi: int)
    requires lo <= hi
    ensures |Interval(lo, hi)| == hi - lo
    decreases hi - lo
  {
    if lo == hi {
      assert Interval(lo, hi) == {};
    } else {
      IntervalSize(lo, hi - 1);
      assert Interval(lo, hi) == Interval(lo, hi - 1) + {hi - 1};
    }
  }

  lemma OldestIs(keys: set<int>, bound: int, m: int)
    requires m <= bound && m in keys && forall k :: k in keys ==> m <= k
    ensures Oldest(keys, bound) == m
  {
  }

  /** Eviction and recording slide the window by one. */
  lemma RememberSlides(c: Config, journal: map<int, seq<Field>>, nextOut: nat, fields: seq<Field>)
    requires nextOut >= 2 && journal.Keys == Interval(WindowStart(c, nextOut), nextOut)
    ensures var next := Remember(c, journal, nextOut, fields);
            && next.Keys == Interval(WindowStart(c, nextOut + 1), nextOut + 1)
            && next[nextOut] == fields
            && forall k :: k in next && k != nextOut ==> k in journal && next[k] == journal[k]
  {
    var lo := WindowStart(c, nextOut);
    IntervalSize(lo, nextOut);
    assert |journal| == |journal.Keys|;
    if |journal| >= c.MaxJournal() {
      OldestIs(journal.Keys, nextOut, lo);
      assert (journal - {lo}).Keys == Interval(lo + 1, nextOut);
    }
  }

  lemma HeaderStamped(c: Config, out: Outbound, sequence: nat, now: Timestamp)
    requires Legal(HeaderFields(c, out.msgType, sequence, now) + out.body)
    ensures Stamped(HeaderFields(c, out.msgType, sequence, now) + out.body, sequence)
  {
  }

  lemma SendKeepsWindow(c: Config, env: Env, s: State, out: Outbound)
    requires JournalWindow(c, s)
    ensures JournalWindow(c, SendLocked(c, env, s, out).state)
  {
    var fields := HeaderFields(c, out.msgType, s.nextOut, env.now(s.asked, 0)) + out.body;
    if Legal(fields) && env.ok(s.asked) {
      HeaderStamped(c, out, s.nextOut, env.now(s.asked, 0));
      NumberedKeepsWindow(c, s, fields);
    }
  }

  lemma NumberedKeepsWindow(c: Config, s: State, fields: seq<Field>)
    requires JournalWindow(c, s) && Stamped(fields, s.nextOut)
    ensures JournalWindow(c, Numbered(c, s, fields))
  {
    RememberSlides(c, s.journal, s.nextOut, fields);
    var t := Numbered(c, s, fields);
    forall k | k in t.journal
      ensures t.journal[k] == t.sent[k - 2]
    {
      if k != s.nextOut { assert t.journal[k] == s.journal[k]; }
    }
  }

  lemma {:induction false} InterleavedKeepsWindow(c: Config, env: Env, s: State, sends: seq<Outbound>)
    requires JournalWindow(c, s)
    ensures JournalWindow(c, Interleaved(c, env, s, sends))
    decreases |sends|
  {
    if sends == [] {
    } else {
      SendKeepsWindow(c, env, s, sends[0]);
      InterleavedKeepsWindow(c, env, Send(c, env, s, sends[0]).state, sends[1..]);
    }
  }

  lemma CallbackKeepsWindow(c: Config, env: Env, s: State)
    requires JournalWindow(c, s)
    ensures JournalWindow(c, Callback(c, env, s).state)
  {
    InterleavedKeepsWindow(c, env, s.(asked := s.asked + 1), env.sends(s.asked));
  }

  lemma ProcessKeepsWindow(c: Config, env: Env, s: State, m: Inbound)
    requires JournalWindow(c, s)
    ensures JournalWindow(c, Process(c, env, s, m).state)
  {
    if m.sequence == s.expectedIn {
      var t := s.(expectedIn := s.expectedIn + 1, processed := s.processed + [m]);
      match m.kind {
        case TestRequest(id) => SendKeepsWindow(c, env, t, Outbound([48], if id == [] then [] else [Field(112, id)]));
        case Application => CallbackKeepsWindow(c, env, t);
        case _ =>
      }
    }
  }

  lemma {:induction false} DrainKeepsWindow(c: Config, env: Env, s: State)
    requires JournalWindow(c, s)
    ensures JournalWindow(c, Drain(c, env, s).state)
    decreases |s.pending|
  {
    if s.expectedIn in s.pending {
      var popped := s.(pending := s.pending - {s.expectedIn});
      SmallerWithout(s.pending, s.expectedIn);
      var m := s.pending[s.expectedIn];
      ProcessKeepsWindow(c, env, popped, m);
      var r := Process(c, env, popped, m);
      if r.error.None? && m.sequence == s.expectedIn {
        DrainKeepsWindow(c, env, r.state);
      }
    }
  }

  lemma DrainAndFinishKeepsWindow(c: Config, env: Env, s: State)
    requires JournalWindow(c, s)
    ensures JournalWindow(c, DrainAndFinish(c, env, s).state)
  {
    DrainKeepsWindow(c, env, s);
    var t := Drain(c, env, s).state;
    CallbackKeepsWindow(c, env, t);
  }

  lemma HandleKeepsWindow(c: Config, env: Env, s: State, m: Inbound)
    requires JournalWindow(c, s)
    ensures JournalWindow(c, Handle(c, env, s, m).state)
  {
    if m.sequence == 0 {
    } else if m.kind.SequenceReset? {
      if s.loggedOn && m.kind.next.Some? && m.kind.next.value > s.expectedIn {
        DrainAndFinishKeepsWindow(c, env, s.(expectedIn := m.kind.next.value, recovering := true,
                                             pending := map k | k in s.pending && k >= m.kind.next.value :: s.pending[k]));
      }
    } else if m.sequence > s.expectedIn {
      var t := if m.sequence in s.pending then s else s.(pending := s.pending[m.sequence := m]);
      SendKeepsWindow(c, env, t.(recovering := true), Outbound([50], [Field(7, FormatNat(t.expectedIn)), Field(16, [48])]));
    } else if m.sequence == s.expectedIn {
      ProcessKeepsWindow(c, env, s, m);
      DrainAndFinishKeepsWindow(c, env, Process(c, env, s, m).state);
    }
  }

  /** After Logon, in every run and whatever the environment does, the journal is that window. */
  lemma {:induction false} RunKeepsWindow(c: Config, env: Env, asked: nat, events: seq<Event>)
    ensures JournalWindow(c, Run(c, env, Started(asked), events).state)
    decreases |events|
  {
    if events == [] {
      assert Interval(WindowStart(c, 2), 2) == {};
      assert Started(asked).journal.Keys == {};
    } else {
      var init, e := events[..|events| - 1], events[|events| - 1];
      RunKeepsWindow(c, env, asked, init);
      var r := Run(c, env, Started(asked), init);
      if r.error.None? {
        match e {
          case Arrive(m) => HandleKeepsWindow(c, env, r.state, m);
          case AppSend(out) => SendKeepsWindow(c, env, r.state, out);
          case HeartbeatDue => SendKeepsWindow(c, env, r.state, Outbound([48], []));
        }
      }
    }
  }

  // -------------------------------------------------------------------- replay

  /** A replay carries the original's number and application fields, marked as a possible duplicate. */
  ghost predicate ReplayOf(replay: seq<Field>, original: seq<Field>)
  {
    && Legal(replay)
    && Essence(replay) == Essence(original)
    && Lookup(replay, 34) == Lookup(original, 34)
    && Lookup(replay, 43) == Some(YES)
    && Lookup(replay, 122) == Lookup(original, 52)
  }

  lemma {:induction false} ResentEssence(fields: seq<Field>, now: Clock, original: bytes)
    ensures Essence(Resent(fields, now, original)) == Essence(fields)
  {
    if fields == [] {
    } else {
      ResentEssence(fields[1..], now, original);
      var rest := Resent(fields[1..], now, original);
      var f := fields[0];
      if f.tag == 52 {
        var one := [Field(122, original)] + rest;
        var two := [Field(43, YES)] + one;
        var three := [Field(52, now(|fields|))] + two;
        assert Resent(fields, now, original) == three;
        assert one[1..] == rest && two[1..] == one && three[1..] == two;
        assert Essence(one) == Essence(rest) && Essence(two) == Essence(one) && Essence(three) == Essence(two);
      } else if f.tag != 43 && f.tag != 122 {
        assert ([f] + rest)[1..] == rest;
      }
    }
  }

  predicate LegalFields(fields: seq<Field>)
  {
    forall i :: 0 <= i < |fields| ==> LegalField(fields[i])
  }

  lemma LegalConcat(a: seq<Field>, b: seq<Field>)
    requires LegalFields(a) && LegalFields(b)
    ensures LegalFields(a + b)
  {
  }

  lemma {:induction false} ResentLegal(fields: seq<Field>, now: Clock, original: bytes)
    requires LegalFields(fields) && SOH !in original
    ensures LegalFields(Resent(fields, now, original))
  {
    if fields == [] {
    } else {
      ResentLegal(fields[1..], now, original);
      var rest := Resent(fields[1..], now, original);
      var head := if fields[0].tag == 43 || fields[0].tag == 122 then []
                  else if fields[0].tag == 52 then [Field(52, now(|fields|)), Field(43, YES), Field(122, original)]
                  else [fields[0]];
      assert [] + rest == rest;
      assert Resent(fields, now, original) == head + rest;
      LegalConcat(head, rest);
    }
  }

  /** The replay of a stamped message, header field by header field. */
  lemma ResentShape(fields: seq<Field>, sequence: nat, now: Clock, original: bytes)
    requires Stamped(fields, sequence)
    ensures Resent(fields, now, original)
         == fields[..4] + [Field(52, now(|fields| - 4)), Field(43, YES), Field(122, original)] + Resent(fields[5..], now, original)
  {
    var r := Resent(fields, now, original);
    assert fields[1..][1..] == fields[2..];
    assert fields[2..][1..] == fields[3..];
    assert fields[3..][1..] == fields[4..];
    assert fields[4..][1..] == fields[5..];
    assert r == [fields[0]] + Resent(fields[1..], now, original);
    assert Resent(fields[1..], now, original) == [fields[1]] + Resent(fields[2..], now, original);
    assert Resent(fields[2..], now, original) == [fields[2]] + Resent(fields[3..], now, original);
    assert Resent(fields[3..], now, original) == [fields[3]] + Resent(fields[4..], now, original);
  }

  lemma StampedLookups(fields: seq<Field>, sequence: nat)
    requires Stamped(fields, sequence)
    ensures Lookup(fields, 52) == Some(fields[4].value) && Lookup(fields, 34) == Some(FormatNat(sequence))
  {
    LookupIs(fields, 52, 4);
    LookupIs(fields, 34, 3);
  }

  lemma ResentIsReplay(fields: seq<Field>, sequence: nat, now: Clock)
    requires Stamped(fields, sequence)
    ensures ReplayOf(Resent(fields, now, fields[4].value), fields)
  {
    var original := fields[4].value;
    var r := Resent(fields, now, original);
    assert LegalField(fields[4]);
    ResentLegal(fields, now, original);
    ResentEssence(fields, now, original);
    StampedLookups(fields, sequence);
    ResentShape(fields, sequence, now, original);
    ReplayLookups(fields, sequence, r, now(|fields| - 4), original, Resent(fields[5..], now, original));
  }

  lemma ReplayLookups(fields: seq<Field>, sequence: nat, r: seq<Field>, time: bytes, original: bytes, rest: seq<Field>)
    requires Stamped(fields, sequence) && r == fields[..4] + [Field(52, time), Field(43, YES), Field(122, original)] + rest
    ensures |r| > 0 && r[0] == fields[0] && Lookup(r, 34) == Some(FormatNat(sequence))
    ensures Lookup(r, 43) == Some(YES) && Lookup(r, 122) == Some(original)
  {
    assert r[0] == fields[0] && r[1] == fields[1] && r[2] == fields[2] && r[3] == fields[3];
    assert r[4] == Field(52, time) && r[5] == Field(43, YES) && r[6] == Field(122, original);
    LookupIs(r, 34, 3);
    LookupIs(r, 43, 5);
    LookupIs(r, 122, 6);
  }

  /** From the n-th question on, every write succeeds. */
  ghost predicate WorkingTransport(env: Env, from: nat) { forall n :: n >= from ==> env.ok(n) }

  /** The replays of a run of journaled messages, in order. */
  ghost function Replays(env: Env, journal: map<int, seq<Field>>, asked: nat, begin: int, end: int): (r: seq<seq<Field>>)
    requires forall k :: begin <= k <= end ==> k in journal && |journal[k]| >= 5
    ensures begin <= end + 1 ==> |r| == end + 1 - begin
    decreases end - begin
  {
    if begin > end then []
    else [ReplayMessage(env, asked, journal[begin])] + Replays(env, journal, asked + 1, begin + 1, end)
  }

  ghost predicate AllStamped(journal: map<int, seq<Field>>, begin: int, end: int)
  {
    begin >= 0 && forall k :: begin <= k <= end ==> k in journal && Stamped(journal[k], k)
  }

  function ReplayMessage(env: Env, asked: nat, original: seq<Field>): seq<Field>
    requires |original| >= 5
  {
    Resent(original, ClockOf(env, asked), original[4].value)
  }

  /** One replayed message. */
  lemma ResendOneReplays(env: Env, s: State, sequence: nat)
    requires sequence in s.journal && Stamped(s.journal[sequence], sequence) && env.ok(s.asked)
    ensures ResendOne(env, s, sequence)
         == Step(s.(wire := s.wire + [ReplayMessage(env, s.asked, s.journal[sequence])], asked := s.asked + 1), None)
  {
    StampedLookups(s.journal[sequence], sequence);
    ResentIsReplay(s.journal[sequence], sequence, ClockOf(env, s.asked));
  }

  lemma {:induction false} ResendWhole(env: Env, s: State, begin: int, end: int)
    requires AllStamped(s.journal, begin, end) && WorkingTransport(env, s.asked) && begin <= end + 1
    ensures Resend(env, s, begin, end)
         == Step(s.(wire := s.wire + Replays(env, s.journal, s.asked, begin, end), asked := s.asked + (end + 1 - begin)), None)
    decreases end - begin
  {
    if begin > end {
      assert s.wire + [] == s.wire;
    } else {
      ResendOneReplays(env, s, begin);
      var resent := ReplayMessage(env, s.asked, s.journal[begin]);
      ResendWhole(env, s.(wire := s.wire + [resent], asked := s.asked + 1), begin + 1, end);
      var rest := Replays(env, s.journal, s.asked + 1, begin + 1, end);
      assert (s.wire + [resent]) + rest == s.wire + ([resent] + rest);
    }
  }

  lemma {:induction false} ReplaysFaithful(env: Env, journal: map<int, seq<Field>>, asked: nat, begin: int, end: int, k: int)
    requires AllStamped(journal, begin, end) && begin <= k <= end
    ensures ReplayOf(Replays(env, journal, asked, begin, end)[k - begin], journal[k])
    decreases end - begin
  {
    if k == begin {
      ResentIsReplay(journal[begin], begin, ClockOf(env, asked));
    } else {
      ReplaysFaithful(env, journal, asked + 1, begin + 1, end, k);
      assert Replays(env, journal, asked, begin, end)[k - begin] == Replays(env, journal, asked + 1, begin + 1, end)[k - (begin + 1)];
    }
  }

  /** These messages replay exactly the numbers from `begin` to `end`, in order. */
  ghost predicate ReplayRange(added: seq<seq<Field>>, journal: map<int, seq<Field>>, begin: int, end: int)
    requires forall k :: begin <= k <= end ==> k in journal
  {
    && |added| == end + 1 - begin
    && forall k :: begin <= k <= end ==> ReplayOf(added[k - begin], journal[k])
  }

  lemma ReplaysRange(env: Env, journal: map<int, seq<Field>>, asked: nat, begin: int, end: int)
    requires AllStamped(journal, begin, end) && begin <= end
    ensures ReplayRange(Replays(env, journal, asked, begin, end), journal, begin, end)
  {
    forall k | begin <= k <= end
      ensures ReplayOf(Replays(env, journal, asked, begin, end)[k - begin], journal[k])
    {
      ReplaysFaithful(env, journal, asked, begin, end, k);
    }
  }

  /** The wire has grown by exactly that range. */
  ghost predicate Replayed(s: State, t: State, begin: int, end: int)
    requires forall k :: begin <= k <= end ==> k in s.journal
  {
    s.wire <= t.wire && ReplayRange(t.wire[|s.wire|..], s.journal, begin, end)
  }

  lemma ResendReplays(env: Env, s: State, begin: int, end: int)
    requires AllStamped(s.journal, begin, end) && WorkingTransport(env, s.asked) && begin <= end
    ensures Resend(env, s, begin, end).error.None?
    ensures Replayed(s, Resend(env, s, begin, end).state, begin, end)
  {
    ResendWhole(env, s, begin, end);
    var added := Replays(env, s.journal, s.asked, begin, end);
    ReplaysRange(env, s.journal, s.asked, begin, end);
    assert (s.wire + added)[|s.wire|..] == added;
  }

  /** A ResendRequest within the window replays its whole clamped range, in order; one that starts before
      the window replays nothing and pauses writes; a range that is empty after clamping is refused.
      Neither the numbering nor the journal ever changes. */
  ghost predicate AllOrNothing(c: Config, s: State, begin: int, requested: int, r: Step)
    requires JournalWindow(c, s)
  {
    var end := if requested == 0 || requested >= s.nextOut then s.nextOut - 1 else requested;
    && r.state.nextOut == s.nextOut && r.state.journal == s.journal && r.state.sent == s.sent
    && (end < begin ==> r == Step(s, Some(BadResendRange)))
    && (WindowStart(c, s.nextOut) <= begin <= end ==>
          r.error.None? && r.state.recovering == s.recovering && Replayed(s, r.state, begin, end))
    && (begin <= end && begin < WindowStart(c, s.nextOut) ==>
          r == Step(s.(recovering := true), Some(ResendUnavailable(begin))))
  }

  lemma ReplayAllOrNothing(c: Config, env: Env, s: State, begin: int, requested: int)
    requires JournalWindow(c, s) && WorkingTransport(env, s.asked) && begin > 0 && requested >= 0
    ensures AllOrNothing(c, s, begin, requested, Replay(env, s, begin, requested))
  {
    var end := if requested == 0 || requested >= s.nextOut then s.nextOut - 1 else requested;
    if WindowStart(c, s.nextOut) <= begin <= end {
      WindowStamped(c, s, begin, end);
      ResendReplays(env, s, begin, end);
    } else if begin <= end {
      ResendMissing(env, s, begin, end);
    }
  }

  /** Inside the window every number has its journaled message. */
  lemma WindowStamped(c: Config, s: State, begin: int, end: int)
    requires JournalWindow(c, s) && WindowStart(c, s.nextOut) <= begin <= end < s.nextOut
    ensures AllStamped(s.journal, begin, end)
  {
    forall k | begin <= k <= end
      ensures k in s.journal && Stamped(s.journal[k], k)
    {
      assert Between(WindowStart(c, s.nextOut), k, s.nextOut);
      assert s.journal[k] == s.sent[k - 2];
    }
  }

  lemma ResendMissing(env: Env, s: State, begin: int, end: int)
    requires begin !in s.journal && begin <= end
    ensures Resend(env, s, begin, end) == Step(s, Some(ResendUnavailable(begin)))
  {
  }

  /** So in every state that a run reaches, a ResendRequest is answered completely or not at all. */
  lemma RunReplaysAllOrNothing(c: Config, env: Env, asked: nat, events: seq<Event>, begin: int, requested: int)
    requires WorkingTransport(env, Run(c, env, Started(asked), events).state.asked) && begin > 0 && requested >= 0
    ensures JournalWindow(c, Run(c, env, Started(asked), events).state)
    ensures var s := Run(c, env, Started(asked), events).state; AllOrNothing(c, s, begin, requested, Replay(env, s, begin, requested))
  {
    RunKeepsWindow(c, env, asked, events);
    ReplayAllOrNothing(c, env, Run(c, env, Started(asked), events).state, begin, requested);
  }
}
