/** What the session hears and says, message by message: types read, headers written, gaps asked for once, test requests
    echoed, resets obeyed. */
module FixSessionMessages {
  import opened Bytes
  import opened FixCodec
  import opened FixSession
  import opened FixSessionInbound
  import opened FixSessionOutbound

  // ------------------------------------------------------------------------ hearing

  /** The message types, by their MsgType text: A, 0, 1, 2, 4, 3, 5, and all others are for the application. */
  lemma TypesRead(m: Message)
    ensures var t, k := Lookup(m.fields, 35), KindOf(m);
            && (k.Logon? <==> t == Some([65])) && (k.Heartbeat? <==> t == Some([48]))
            && (k.TestRequest? <==> t == Some([49])) && (k.ResendRequest? <==> t == Some([50]))
            && (k.SequenceReset? <==> t == Some([52])) && (k.Reject? <==> t == Some([51])) && (k.Logout? <==> t == Some([53]))
    ensures KindOf(m).TestRequest? ==> KindOf(m).id == match Lookup(m.fields, 112) case Some(v) => v case None => []
    ensures KindOf(m).SequenceReset? ==> KindOf(m).next == match Lookup(m.fields, 36) case Some(v) => Atoi(v) case None => None
  {
  }

  /** A resend range counts only if both ends can be read, the first is positive and the last is not negative. */
  lemma RangesRead(m: Message, begin: int, end: int)
    requires Lookup(m.fields, 35) == Some([50])
    ensures KindOf(m) == ResendRequest(Some((begin, end)))
       <==> && Lookup(m.fields, 7).Some? && Atoi(Lookup(m.fields, 7).value) == Some(begin) && begin > 0
            && Lookup(m.fields, 16).Some? && Atoi(Lookup(m.fields, 16).value) == Some(end) && end >= 0
  {
  }

  lemma SequencesRead(m: Message, n: nat)
    requires n > 0
    ensures SeqNum(m) == n <==> Lookup(m.fields, 34).Some? && Atoi(Lookup(m.fields, 34).value) == Some(n)
    ensures Read(m).sequence == SeqNum(m) && (Read(m).possDup <==> Lookup(m.fields, 43) == Some([89]))
  {
  }

  /** What a retransmission may change is exactly PossDupFlag, SendingTime and OrigSendingTime; the rest of a message is
      compared field by field, in order. */
  lemma {:induction false} EssenceIs(a: seq<Field>, b: seq<Field>, f: Field)
    ensures Essence([f]) == if f.tag == 43 || f.tag == 52 || f.tag == 122 then [] else [f]
    ensures Essence(a + b) == Essence(a) + Essence(b)
  {
    assert [f][1..] == [];
    if a == [] {
      assert a + b == b;
    } else {
      EssenceIs(a[1..], b, f);
      assert (a + b)[1..] == a[1..] + b;
    }
  }

  // ------------------------------------------------------------------------- saying

  /** The text DERIBITSERVER. */
  predicate IsDeribit(t: bytes) { t == [68, 69, 82, 73, 66, 73, 84, 83, 69, 82, 86, 69, 82] }

  /** `message` is of type `msgType`, numbered `n`, from `sender` to Deribit at time `now`, with fields `body`. */
  ghost predicate Says(message: seq<Field>, msgType: bytes, n: nat, sender: bytes, now: bytes, body: seq<Field>)
  {
    && |message| >= 5 && message[5..] == body
    && Lookup(message, 35) == Some(msgType) && Lookup(message, 49) == Some(sender)
    && Lookup(message, 56).Some? && IsDeribit(Lookup(message, 56).value)
    && Lookup(message, 34).Some? && ParseNat(Lookup(message, 34).value) == Some(n)
    && Lookup(message, 52) == Some(now)
  }

  /** Exactly one message is written, and it says this. */
  ghost predicate SaysOne(s: State, t: State, msgType: bytes, n: nat, sender: bytes, now: bytes, body: seq<Field>)
  {
    && |t.wire| == |s.wire| + 1 && t.wire[..|s.wire|] == s.wire
    && Says(t.wire[|s.wire|], msgType, n, sender, now, body)
  }

  lemma HeaderSays(c: Config, msgType: bytes, n: nat, now: Timestamp, body: seq<Field>)
    ensures Says(HeaderFields(c, msgType, n, now) + body, msgType, n, c.sender, now, body)
  {
    var m := HeaderFields(c, msgType, n, now) + body;
    LookupIs(m, 35, 0);
    LookupIs(m, 49, 1);
    LookupIs(m, 56, 2);
    LookupIs(m, 34, 3);
    LookupIs(m, 52, 4);
    ParseNatOfFormat(n);
  }

  /** A successful send writes one message, under the next number, and takes that number. */
  lemma SendSays(c: Config, env: Env, s: State, out: Outbound)
    requires SendLocked(c, env, s, out).error.None?
    ensures var t := SendLocked(c, env, s, out).state;
            t.nextOut == s.nextOut + 1 && SaysOne(s, t, out.msgType, s.nextOut, c.sender, env.now(s.asked, 0), out.body)
  {
    HeaderSays(c, out.msgType, s.nextOut, env.now(s.asked, 0), out.body);
  }

  // ---------------------------------------------------------------- asking for a gap

  /** A ResendRequest from `first` on, without an upper end. */
  ghost predicate AsksFrom(message: seq<Field>, first: nat)
  {
    && Lookup(message, 35) == Some([50])
    && Lookup(message, 7).Some? && ParseNat(Lookup(message, 7).value) == Some(first)
    && Lookup(message, 16) == Some([48])
  }

  lemma RequestAsks(c: Config, n: nat, now: Timestamp, first: nat)
    ensures AsksFrom(HeaderFields(c, [50], n, now) + [Field(7, FormatNat(first)), Field(16, [48])], first)
  {
    var m := HeaderFields(c, [50], n, now) + [Field(7, FormatNat(first)), Field(16, [48])];
    LookupIs(m, 35, 0);
    LookupIs(m, 7, 5);
    LookupIs(m, 16, 6);
    ParseNatOfFormat(first);
  }

  /** A first message beyond the expected one starts recovery and, unless the buffer is full, the write fails or the sender
      name cannot be encoded, writes exactly one request: for everything from the expected number on. */
  lemma GapAsks(c: Config, env: Env, s: State, m: Inbound)
    requires m.sequence > s.expectedIn && !m.kind.SequenceReset? && !s.recovering
    requires m.sequence in s.pending || |s.pending| < c.MaxPending()
    ensures var r := Handle(c, env, s, m);
            && r.state.recovering
            && (r.error.None? <==> SOH !in c.sender && env.ok(s.asked))
            && (r.error.None? ==> |r.state.wire| == |s.wire| + 1 && r.state.wire[..|s.wire|] == s.wire
                                  && AsksFrom(r.state.wire[|s.wire|], s.expectedIn))
            && (r.error.Some? ==> r.state.wire == s.wire)
  {
    var request := [Field(7, FormatNat(s.expectedIn)), Field(16, [48])];
    var message := HeaderFields(c, [50], s.nextOut, env.now(s.asked, 0)) + request;
    RequestAsks(c, s.nextOut, env.now(s.asked, 0), s.expectedIn);
    RequestLegal(c, s.nextOut, env.now(s.asked, 0), s.expectedIn);
  }

  lemma RequestLegal(c: Config, n: nat, now: Timestamp, first: nat)
    ensures Legal(HeaderFields(c, [50], n, now) + [Field(7, FormatNat(first)), Field(16, [48])]) <==> SOH !in c.sender
  {
    var m := HeaderFields(c, [50], n, now) + [Field(7, FormatNat(first)), Field(16, [48])];
    assert m[1].value == c.sender;
    DigitsNoSOH(FormatNat(n));
    DigitsNoSOH(FormatNat(first));
  }

  lemma DigitsNoSOH(s: bytes)
    requires AllDigits(s)
    ensures SOH !in s
  {
  }

  /** In every error-free run over a numbered log, the request asks from the least number that has not arrived. */
  lemma RunGapAsksForLeastMissing(c: Config, env: Env, asked: nat, events: seq<Event>, log: seq<seq<Field>>, m: Inbound)
    requires AllFromLog(events, log) && FromLog(m, log) && Run(c, env, Started(asked), events).error.None?
    requires var s := Run(c, env, Started(asked), events).state; m.sequence > s.expectedIn && !s.recovering
    requires Handle(c, env, Run(c, env, Started(asked), events).state, m).error.None?
    ensures var s := Run(c, env, Started(asked), events).state;
            var t := Handle(c, env, s, m).state;
            && |t.wire| == |s.wire| + 1 && t.wire[..|s.wire|] == s.wire
            && exists n: nat :: AsksFrom(t.wire[|s.wire|], n) && n !in Arrived(events) && n != m.sequence && n >= 1
                                && forall k :: 1 <= k < n ==> k in Arrived(events)
  {
    var s := Run(c, env, Started(asked), events).state;
    InOrderDelivery(c, env, asked, events, log);
    RunDisciplined(c, env, asked, events);
    GapAsks(c, env, s, m);
    assert AsksFrom(Handle(c, env, s, m).state.wire[|s.wire|], s.expectedIn);
  }

  // ------------------------------------------------------------------- asking only once

  predicate IsRequest(message: seq<Field>) { Lookup(message, 35) == Some([50]) }

  predicate IsReplay(message: seq<Field>) { Lookup(message, 43) == Some([89]) }

  /** Whatever was written since is a replay, or no ResendRequest. */
  ghost predicate NoRequests(s: State, t: State)
  {
    && |s.wire| <= |t.wire| && t.wire[..|s.wire|] == s.wire
    && forall i :: |s.wire| <= i < |t.wire| ==> !IsRequest(t.wire[i]) || IsReplay(t.wire[i])
  }

  lemma NoRequestsTransitive(a: State, b: State, c: State)
    requires NoRequests(a, b) && NoRequests(b, c)
    ensures NoRequests(a, c)
  {
    assert c.wire[..|a.wire|] == b.wire[..|a.wire|];
    forall i | |a.wire| <= i < |c.wire| ensures !IsRequest(c.wire[i]) || IsReplay(c.wire[i]) {
      if i < |b.wire| { assert c.wire[i] == c.wire[..|b.wire|][i]; }
    }
  }

  lemma {:induction false} InterleavedRefused(c: Config, env: Env, s: State, sends: seq<Outbound>)
    requires s.recovering
    ensures Interleaved(c, env, s, sends) == s
  {
    if sends != [] { InterleavedRefused(c, env, s, sends[1..]); }
  }

  lemma CallbackQuiet(c: Config, env: Env, s: State)
    requires s.recovering
    ensures Callback(c, env, s).state.wire == s.wire
  {
    InterleavedRefused(c, env, s.(asked := s.asked + 1), env.sends(s.asked));
  }

  ghost predicate JournalStamped(s: State) { forall k: int :: k in s.journal ==> k >= 0 && Stamped(s.journal[k], k) }

  lemma WindowIsStamped(c: Config, s: State)
    requires JournalWindow(c, s)
    ensures JournalStamped(s)
  {
    forall k: int | k in s.journal ensures k >= 0 && Stamped(s.journal[k], k) {
      assert Between(WindowStart(c, s.nextOut), k, s.nextOut);
      assert s.journal[k] == s.sent[k - 2];
    }
  }

  lemma ResendOneQuiet(env: Env, s: State, sequence: int)
    requires JournalStamped(s)
    ensures NoRequests(s, ResendOne(env, s, sequence).state) && ResendOne(env, s, sequence).state.journal == s.journal
  {
    if sequence in s.journal {
      assert sequence >= 0 && Stamped(s.journal[sequence], sequence);
      StampedLookups(s.journal[sequence], sequence);
      ResentIsReplay(s.journal[sequence], sequence, ClockOf(env, s.asked));
    }
  }

  lemma {:induction false} ResendQuiet(env: Env, s: State, begin: int, end: int)
    requires JournalStamped(s)
    ensures NoRequests(s, Resend(env, s, begin, end).state)
    decreases end - begin
  {
    if begin <= end {
      var one := ResendOne(env, s, begin);
      ResendOneQuiet(env, s, begin);
      if one.error.None? {
        ResendQuiet(env, one.state, begin + 1, end);
        NoRequestsTransitive(s, one.state, Resend(env, one.state, begin + 1, end).state);
      }
    }
  }

  lemma AnswerQuiet(c: Config, env: Env, s: State, body: seq<Field>)
    ensures NoRequests(s, SendLocked(c, env, s, Outbound([48], body)).state)
  {
    if SendLocked(c, env, s, Outbound([48], body)).error.None? { SendSays(c, env, s, Outbound([48], body)); }
  }

  lemma ReplayQuiet(env: Env, s: State, begin: int, requested: int)
    requires JournalStamped(s)
    ensures NoRequests(s, Replay(env, s, begin, requested).state)
  {
    ResendQuiet(env, s, begin, if requested == 0 || requested >= s.nextOut then s.nextOut - 1 else requested);
  }

  lemma ProcessQuiet(c: Config, env: Env, s: State, m: Inbound)
    requires s.recovering && JournalStamped(s)
    ensures NoRequests(s, Process(c, env, s, m).state)
  {
    if m.sequence == s.expectedIn {
      var t := s.(expectedIn := s.expectedIn + 1, processed := s.processed + [m]);
      match m.kind {
        case TestRequest(id) => AnswerQuiet(c, env, t, if id == [] then [] else [Field(112, id)]);
        case ResendRequest(Some((begin, end))) => ReplayQuiet(env, t, begin, end);
        case Application => CallbackQuiet(c, env, t);
        case _ =>
      }
    }
  }

  lemma {:induction false} DrainQuiet(c: Config, env: Env, s: State)
    requires s.recovering && JournalWindow(c, s)
    ensures NoRequests(s, Drain(c, env, s).state)
    ensures Drain(c, env, s).error.None? ==> Drain(c, env, s).state.recovering
    decreases |s.pending|
  {
    if s.expectedIn in s.pending {
      var popped, m := s.(pending := s.pending - {s.expectedIn}), s.pending[s.expectedIn];
      SmallerWithout(s.pending, s.expectedIn);
      WindowIsStamped(c, popped);
      ProcessQuiet(c, env, popped, m);
      ProcessKeepsWindow(c, env, popped, m);
      var r := Process(c, env, popped, m);
      if r.error.None? && m.sequence == popped.expectedIn {
        DrainQuiet(c, env, r.state);
        NoRequestsTransitive(s, r.state, Drain(c, env, r.state).state);
      }
    }
  }

  lemma DrainAndFinishQuiet(c: Config, env: Env, s: State)
    requires s.recovering && JournalWindow(c, s)
    ensures NoRequests(s, DrainAndFinish(c, env, s).state)
  {
    DrainQuiet(c, env, s);
    var r := Drain(c, env, s);
    if r.error.None? && c.onRecovery { CallbackQuiet(c, env, r.state); }
  }

  lemma HandleQuiet(c: Config, env: Env, s: State, m: Inbound)
    requires s.recovering && JournalWindow(c, s)
    ensures NoRequests(s, Handle(c, env, s, m).state)
  {
    if m.sequence == 0 {
    } else if m.kind.SequenceReset? {
      var next := m.kind.next;
      if s.loggedOn && next.Some? && next.value > s.expectedIn {
        DrainAndFinishQuiet(c, env, s.(expectedIn := next.value, recovering := true,
                                       pending := map k | k in s.pending && k >= next.value :: s.pending[k]));
      }
    } else if m.sequence == s.expectedIn {
      WindowIsStamped(c, s);
      ProcessQuiet(c, env, s, m);
      ProcessKeepsWindow(c, env, s, m);
      var r := Process(c, env, s, m);
      if r.error.None? {
        DrainAndFinishQuiet(c, env, r.state);
        NoRequestsTransitive(s, r.state, DrainAndFinish(c, env, r.state).state);
      }
    }
  }

  /** In every run, from a state in recovery, no event writes a ResendRequest of the session's own: all it can write of
      that type is a replay. */
  lemma RunAsksOnce(c: Config, env: Env, asked: nat, events: seq<Event>, e: Event)
    requires Run(c, env, Started(asked), events).state.recovering
    ensures NoRequests(Run(c, env, Started(asked), events).state, React(c, env, Run(c, env, Started(asked), events).state, e).state)
  {
    var s := Run(c, env, Started(asked), events).state;
    RunKeepsWindow(c, env, asked, events);
    match e
    case Arrive(m) => HandleQuiet(c, env, s, m);
    case AppSend(_) =>
    case HeartbeatDue =>
  }

  // ---------------------------------------------------------------------- answers

  /** An expected TestRequest is answered with a heartbeat that carries its ID, if it has one. */
  lemma TestRequestEchoed(c: Config, env: Env, s: State, m: Inbound)
    requires m.kind.TestRequest? && m.sequence == s.expectedIn && Process(c, env, s, m).error.None?
    ensures var t := Process(c, env, s, m).state;
            && |t.wire| == |s.wire| + 1 && t.wire[..|s.wire|] == s.wire
            && Lookup(t.wire[|s.wire|], 35) == Some([48])
            && Lookup(t.wire[|s.wire|], 112) == if m.kind.id == [] then None else Some(m.kind.id)
  {
    var id := m.kind.id;
    var out := Outbound([48], if id == [] then [] else [Field(112, id)]);
    var t := s.(expectedIn := s.expectedIn + 1, processed := s.processed + [m]);
    SendSays(c, env, t, out);
    EchoLookup(c, s.nextOut, env.now(s.asked, 0), id);
  }

  lemma EchoLookup(c: Config, n: nat, now: Timestamp, id: bytes)
    ensures Lookup(HeaderFields(c, [48], n, now) + (if id == [] then [] else [Field(112, id)]), 112) == if id == [] then None else Some(id)
  {
    var m := HeaderFields(c, [48], n, now) + if id == [] then [] else [Field(112, id)];
    if id == [] { LookupNone(m, 112); } else { LookupIs(m, 112, 5); }
  }

  /** One message has been processed for each number passed, and buffered messages have only been taken out. */
  ghost predicate Passed(s: State, from: int, t: State)
  {
    && t.expectedIn >= from && |t.processed| - |s.processed| == t.expectedIn - from
    && forall k :: k in t.pending ==> k in s.pending && k >= from && t.pending[k] == s.pending[k]
  }

  /** A SequenceReset is obeyed exactly when logged on and strictly forward: messages below the new number are dropped,
      those above are kept until they can be processed. */
  lemma ResetObeyed(c: Config, env: Env, s: State, m: Inbound)
    requires m.kind.SequenceReset? && m.sequence > 0
    ensures var r := Handle(c, env, s, m);
            var next := m.kind.next;
            && (!s.loggedOn ==> r == Step(s, Some(ResetBeforeLogon)))
            && (s.loggedOn && (next.None? || next.value <= s.expectedIn) ==> r == Step(s, Some(ResetInvalid)))
            && (s.loggedOn && next.Some? && next.value > s.expectedIn ==> Passed(s, next.value, r.state))
  {
    var next := m.kind.next;
    if s.loggedOn && next.Some? && next.value > s.expectedIn {
      var moved := s.(expectedIn := next.value, recovering := true, pending := map k | k in s.pending && k >= next.value :: s.pending[k]);
      DrainPasses(c, env, moved);
      FinishPasses(c, env, s, moved, next.value);
    }
  }

  /** Its own number does not matter. */
  lemma ResetIgnoresNumber(c: Config, env: Env, s: State, m: Inbound, n: nat)
    requires m.kind.SequenceReset? && m.sequence > 0 && n > 0
    ensures Handle(c, env, s, m.(sequence := n)) == Handle(c, env, s, m)
  {
  }

  ghost predicate DrainedTo(s: State, t: State)
  {
    && t.expectedIn >= s.expectedIn && |t.processed| - |s.processed| == t.expectedIn - s.expectedIn
    && forall k :: k in t.pending ==> k in s.pending && t.pending[k] == s.pending[k]
  }

  lemma ProcessPasses(c: Config, env: Env, s: State, m: Inbound)
    ensures DrainedTo(s, Process(c, env, s, m).state)
  {
  }

  lemma DrainedTransitive(a: State, b: State, c: State)
    requires DrainedTo(a, b) && DrainedTo(b, c)
    ensures DrainedTo(a, c)
  {
  }

  lemma {:induction false} DrainPasses(c: Config, env: Env, s: State)
    ensures DrainedTo(s, Drain(c, env, s).state)
    decreases |s.pending|
  {
    if s.expectedIn in s.pending {
      SmallerWithout(s.pending, s.expectedIn);
      var popped, m := s.(pending := s.pending - {s.expectedIn}), s.pending[s.expectedIn];
      var r := Process(c, env, popped, m);
      ProcessPasses(c, env, popped, m);
      if r.error.None? {
        DrainPasses(c, env, r.state);
        DrainedTransitive(popped, r.state, Drain(c, env, r.state).state);
      }
      assert DrainedTo(s, popped);
      DrainedTransitive(s, popped, Drain(c, env, s).state);
    }
  }

  lemma FinishPasses(c: Config, env: Env, s: State, moved: State, from: int)
    requires DrainedTo(moved, Drain(c, env, moved).state) && moved.expectedIn == from && moved.processed == s.processed
    requires forall k :: k in moved.pending ==> k in s.pending && k >= from && moved.pending[k] == s.pending[k]
    ensures Passed(s, from, DrainAndFinish(c, env, moved).state)
  {
  }

  /** Logon opens the session only as message 1; nothing for the application is taken before it. */
  lemma LogonGate(c: Config, env: Env, s: State, m: Inbound)
    requires m.sequence == s.expectedIn
    ensures m.kind.Logon? ==> (Process(c, env, s, m).error.None? <==> m.sequence == 1)
    ensures m.kind.Logon? && m.sequence == 1 ==> Process(c, env, s, m).state.loggedOn
    ensures m.kind.Application? && !s.loggedOn ==> Process(c, env, s, m).error == Some(BeforeLogon)
    ensures m.kind.Logout? ==> !Process(c, env, s, m).state.loggedOn && Process(c, env, s, m).error == Some(if s.loggedOn then LoggedOut else AuthenticationFailed)
    ensures m.kind.Reject? ==> Process(c, env, s, m).error == Some(Rejected)
  {
  }

  /** A number already passed is ignored if marked as a possible duplicate and an error otherwise; a message without a
      number is an error; a full buffer takes no new number. None of these changes anything. */
  lemma OthersRefused(c: Config, env: Env, s: State, m: Inbound)
    ensures m.sequence == 0 ==> Handle(c, env, s, m) == Step(s, Some(InvalidSequence))
    ensures 0 < m.sequence < s.expectedIn && !m.kind.SequenceReset? ==>
              Handle(c, env, s, m) == Step(s, if m.possDup then None else Some(OutOfSequence))
    ensures m.sequence > s.expectedIn && !m.kind.SequenceReset? && m.sequence !in s.pending
            && |s.pending| >= (if c.maxRecoveryBuffer <= 0 then 64 else c.maxRecoveryBuffer) ==>
              Handle(c, env, s, m) == Step(s, Some(RecoveryOverflow))
  {
  }

  /** An application send is refused without a session and during recovery, and otherwise goes out. */
  lemma SendGate(c: Config, env: Env, s: State, out: Outbound)
    ensures !s.loggedOn ==> Send(c, env, s, out) == Step(s, Some(NotLoggedOn))
    ensures s.loggedOn && s.recovering ==> Send(c, env, s, out) == Step(s, Some(WritesPaused))
    ensures s.loggedOn && !s.recovering && Send(c, env, s, out).error.None? ==>
              SaysOne(s, Send(c, env, s, out).state, out.msgType, s.nextOut, c.sender, env.now(s.asked, 0), out.body)
  {
    if s.loggedOn && !s.recovering && Send(c, env, s, out).error.None? { SendSays(c, env, s, out); }
  }
}
