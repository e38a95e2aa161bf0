/** The Deribit FIX session as a state machine: inbound ordering and recovery, outbound journal and replay.

    Everything the session cannot decide for itself (does this write succeed, does this callback fail, what
    time is it, which application sends slip in while a callback runs with the lock released) is an answer
    of the environment, asked for in order and numbered by `asked`. */
module FixSession {
  import opened Bytes
  import opened FixCodec

  type Timestamp = t: bytes | t != [] && SOH !in t witness [ZERO]

  /** An application message passed to `Send`. */
  datatype Outbound = Outbound(msgType: bytes, body: seq<Field>)

  datatype Env = Env(ok: nat -> bool, now: (nat, nat) -> Timestamp, sends: nat -> seq<Outbound>)

  /** The clock readings taken while one question is prepared, each of them possibly different. */
  type Clock = nat -> Timestamp

  function ClockOf(env: Env, asked: nat): Clock { (reading: nat) => env.now(asked, reading) }

  datatype Config = Config(sender: bytes, maxRecoveryBuffer: int, maxOutboundJournal: int, onMessage: bool, onRecovery: bool)
  {
    function MaxPending(): (n: nat)
      ensures n > 0
    {
      if maxRecoveryBuffer <= 0 then 64 else maxRecoveryBuffer
    }

    function MaxJournal(): (n: nat)
      ensures n > 0
    {
      if maxOutboundJournal <= 0 then 256 else maxOutboundJournal
    }
  }

  datatype SessionError =
    | NotLoggedOn | WritesPaused | EncodeFailed | WriteFailed | CallbackFailed
    | InvalidSequence | OutOfSequence | RecoveryOverflow
    | ResetBeforeLogon | ResetInvalid | LogonNotFirst | BadResendRange | ResendUnavailable(sequence: int)
    | Rejected | AuthenticationFailed | LoggedOut | BeforeLogon | RoutingError

  /** The fields of `Session`, with three histories: `sent` (messages numbered by `sendLocked`),
      `wire` (everything written, replays included) and `processed` (inbound messages consumed in order). */
  datatype State = State(
    nextOut: nat, expectedIn: nat, loggedOn: bool, recovering: bool,
    pending: map<int, Inbound>, journal: map<int, seq<Field>>,
    sent: seq<seq<Field>>, wire: seq<seq<Field>>, processed: seq<Inbound>, asked: nat)

  datatype Step = Step(state: State, error: Option<SessionError>)

  const TARGET: bytes := [68, 69, 82, 73, 66, 73, 84, 83, 69, 82, 86, 69, 82] // DERIBITSERVER
  const YES: bytes := [89]                                                   // Y

  // ---------------------------------------------------------- inbound messages

  datatype Kind =
    | Logon | Heartbeat | TestRequest(id: bytes) | ResendRequest(range: Option<(int, int)>)
    | SequenceReset(next: Option<int>) | Reject | Logout | Application

  function ValueOf(m: Message, tag: int): bytes
  {
    match Lookup(m.fields, tag) case Some(v) => v case None => []
  }

  function Number(m: Message, tag: int): (r: Option<int>)
  {
    match Lookup(m.fields, tag) case Some(v) => Atoi(v) case None => None
  }

  /** MsgSeqNum, or 0 when it is missing, unreadable or not positive. */
  function SeqNum(m: Message): nat
  {
    match Number(m, 34) case Some(n) => (if n > 0 then n else 0) case None => 0
  }

  function KindOf(m: Message): Kind
  {
    var t := ValueOf(m, 35);
    if t == [65] then Logon
    else if t == [48] then Heartbeat
    else if t == [49] then TestRequest(ValueOf(m, 112))
    else if t == [50] then
      ResendRequest(match (Number(m, 7), Number(m, 16))
                    case (Some(begin), Some(end)) => (if begin <= 0 || end < 0 then None else Some((begin, end)))
                    case _ => None)
    else if t == [52] then SequenceReset(Number(m, 36))
    else if t == [51] then Reject
    else if t == [53] then Logout
    else Application
  }

  /** A message without the fields that a retransmission changes: PossDupFlag, SendingTime, OrigSendingTime. */
  function Essence(fields: seq<Field>): seq<Field>
  {
    if fields == [] then []
    else
      var rest := Essence(fields[1..]);
      if fields[0].tag == 43 || fields[0].tag == 52 || fields[0].tag == 122 then rest else [fields[0]] + rest
  }

  /** What the session reads from a message. */
  datatype Inbound = Inbound(sequence: nat, kind: Kind, possDup: bool, content: seq<Field>)

  function Read(m: Message): Inbound
  {
    Inbound(SeqNum(m), KindOf(m), ValueOf(m, 43) == YES, Essence(m.fields))
  }

  // ------------------------------------------------------------------ outbound

  function HeaderFields(c: Config, msgType: bytes, sequence: nat, now: Timestamp): (h: seq<Field>)
    ensures |h| == 5
  {
    [Field(35, msgType), Field(49, c.sender), Field(56, TARGET), Field(34, FormatNat(sequence)), Field(52, now)]
  }

  predicate Between(lo: int, k: int, hi: int) { lo <= k < hi }

  /** The numbers from `lo` up to but not including `hi`. */
  ghost function Interval(lo: int, hi: int): set<int> { set k: int | lo <= k < hi && Between(lo, k, hi) }

  lemma SomeKey(keys: set<int>)
    ensures keys == {} || exists k :: k in keys
  {
    assert (forall k :: k !in keys) ==> keys == {};
  }

  /** The smallest of `bound` and the keys. */
  ghost function Oldest(keys: set<int>, bound: int): (m: int)
    ensures m <= bound && (m == bound || m in keys)
    ensures forall k :: k in keys ==> m <= k
  {
    if keys == {} then bound
    else
      SomeKey(keys);
      var k :| k in keys;
      assert forall j :: j in keys ==> j == k || j in keys - {k};
      Oldest(keys - {k}, if k < bound then k else bound)
  }

  /** `rememberOutboundLocked`: evict the oldest entry when full, then record. */
  ghost function Remember(c: Config, journal: map<int, seq<Field>>, sequence: int, fields: seq<Field>): map<int, seq<Field>>
  {
    var kept := if |journal| >= c.MaxJournal() then journal - {Oldest(journal.Keys, sequence)} else journal;
    kept[sequence := fields]
  }

  /** The state after a successful numbered send. */
  ghost function Numbered(c: Config, s: State, fields: seq<Field>): State
  {
    s.(journal := Remember(c, s.journal, s.nextOut, fields), nextOut := s.nextOut + 1,
       sent := s.sent + [fields], wire := s.wire + [fields], asked := s.asked + 1)
  }

  /** `sendLocked`: only a message that encodes and is written is numbered and journaled. */
  ghost function SendLocked(c: Config, env: Env, s: State, out: Outbound): (r: Step)
    ensures SameInbound(s, r.state)
  {
    var fields := HeaderFields(c, out.msgType, s.nextOut, env.now(s.asked, 0)) + out.body;
    if !Legal(fields) then Step(s, Some(EncodeFailed))
    else if !env.ok(s.asked) then Step(s.(asked := s.asked + 1), Some(WriteFailed))
    else Step(Numbered(c, s, fields), None)
  }

  /** What outbound traffic leaves alone. */
  ghost predicate SameInbound(s: State, t: State)
  {
    && t.expectedIn == s.expectedIn && t.loggedOn == s.loggedOn && t.recovering == s.recovering
    && t.pending == s.pending && t.processed == s.processed
  }

  /** `Send`: refused before Logon and while recovering. */
  ghost function Send(c: Config, env: Env, s: State, out: Outbound): (r: Step)
    ensures SameInbound(s, r.state)
    ensures s.recovering ==> r.state == s && r.error.Some?
  {
    if !s.loggedOn then Step(s, Some(NotLoggedOn))
    else if s.recovering then Step(s, Some(WritesPaused))
    else SendLocked(c, env, s, out)
  }

  /** Application sends from other goroutines while a callback runs without the lock. */
  ghost function Interleaved(c: Config, env: Env, s: State, sends: seq<Outbound>): (t: State)
    ensures SameInbound(s, t)
    ensures s.recovering ==> t == s
    decreases |sends|
  {
    if sends == [] then s else Interleaved(c, env, Send(c, env, s, sends[0]).state, sends[1..])
  }

  /** A callback: it may fail, and sends may slip in while it runs. */
  ghost function Callback(c: Config, env: Env, s: State): (r: Step)
    ensures SameInbound(s, r.state)
  {
    var during := Interleaved(c, env, s.(asked := s.asked + 1), env.sends(s.asked));
    Step(during, if env.ok(s.asked) then None else Some(CallbackFailed))
  }

  // -------------------------------------------------------------------- replay

  /** A journaled message as it is replayed: fresh SendingTime, PossDupFlag and OrigSendingTime. The clock is read anew
      for every SendingTime field; a reading is numbered by the fields still to be copied. */
  function Resent(fields: seq<Field>, now: Clock, original: bytes): seq<Field>
  {
    if fields == [] then []
    else
      var rest := Resent(fields[1..], now, original);
      if fields[0].tag == 43 || fields[0].tag == 122 then rest
      else if fields[0].tag == 52 then [Field(52, now(|fields|)), Field(43, YES), Field(122, original)] + rest
      else [fields[0]] + rest
  }

  /** One turn of the `resendLocked` loop. */
  ghost function ResendOne(env: Env, s: State, sequence: int): (r: Step)
    ensures r.state.(wire := s.wire, asked := s.asked) == s
  {
    if sequence !in s.journal then Step(s, Some(ResendUnavailable(sequence)))
    else
      var original := s.journal[sequence];
      var time := Lookup(original, 52);
      if time.None? || time.value == [] then Step(s, Some(ResendUnavailable(sequence)))
      else
        var resent := Resent(original, ClockOf(env, s.asked), time.value);
        if !Legal(resent) then Step(s, Some(EncodeFailed))
        else if !env.ok(s.asked) then Step(s.(asked := s.asked + 1), Some(WriteFailed))
        else Step(s.(wire := s.wire + [resent], asked := s.asked + 1), None)
  }

  /** `resendLocked`. */
  ghost function Resend(env: Env, s: State, begin: int, end: int): (r: Step)
    ensures r.state.(wire := s.wire, asked := s.asked) == s
    decreases end - begin
  {
    if begin > end then Step(s, None)
    else
      var one := ResendOne(env, s, begin);
      if one.error.Some? then one else Resend(env, one.state, begin + 1, end)
  }

  /** A ResendRequest: clamp the range, replay it, pause writes when it cannot be replayed. */
  ghost function Replay(env: Env, s: State, begin: int, requested: int): (r: Step)
    ensures r.state.(wire := s.wire, asked := s.asked, recovering := s.recovering) == s
    ensures s.recovering ==> r.state.recovering
    ensures r.error.None? ==> r.state.recovering == s.recovering
  {
    var end := if requested == 0 || requested >= s.nextOut then s.nextOut - 1 else requested;
    if end < begin then Step(s, Some(BadResendRange))
    else
      var r := Resend(env, s, begin, end);
      if r.error.Some? then Step(r.state.(recovering := true), r.error) else r
  }

  // ------------------------------------------------------------------- inbound

  /** What consuming one expected message may do to the inbound side. */
  ghost predicate Consumed(s: State, m: Inbound, t: State, failed: bool)
  {
    && t.expectedIn == s.expectedIn + 1 && t.processed == s.processed + [m] && t.pending == s.pending
    && (s.recovering ==> t.recovering)
    && (!failed ==> t.recovering == s.recovering)
  }

  /** `processExpectedLocked`. */
  ghost function Process(c: Config, env: Env, s: State, m: Inbound): (r: Step)
    ensures m.sequence == s.expectedIn ==> Consumed(s, m, r.state, r.error.Some?)
    ensures m.sequence != s.expectedIn ==> r == Step(s, Some(OutOfSequence))
  {
    if m.sequence != s.expectedIn then Step(s, Some(OutOfSequence))
    else
      var t := s.(expectedIn := s.expectedIn + 1, processed := s.processed + [m]);
      match m.kind
      case Logon => if s.expectedIn != 1 then Step(t, Some(LogonNotFirst)) else Step(t.(loggedOn := true), None)
      case Heartbeat => Step(t, None)
      case TestRequest(id) => SendLocked(c, env, t, Outbound([48], if id == [] then [] else [Field(112, id)]))
      case ResendRequest(None) => Step(t, Some(BadResendRange))
      case ResendRequest(Some((begin, end))) => Replay(env, t, begin, end)
      case SequenceReset(_) => Step(t, Some(RoutingError))
      case Reject => Step(t, Some(Rejected))
      case Logout => if !t.loggedOn then Step(t, Some(AuthenticationFailed)) else Step(t.(loggedOn := false), Some(LoggedOut))
      case Application =>
        if !t.loggedOn then Step(t, Some(BeforeLogon))
        else if c.onMessage then Callback(c, env, t)
        else Step(t, None)
  }

  /** The drain loop: consume buffered messages while the expected one is there. */
  ghost function Drain(c: Config, env: Env, s: State): (r: Step)
    decreases |s.pending|
  {
    if s.expectedIn !in s.pending then Step(s, None)
    else
      var r := Process(c, env, s.(pending := s.pending - {s.expectedIn}), s.pending[s.expectedIn]);
      if r.error.Some? then r
      else
        assert r.state.pending == s.pending - {s.expectedIn};
        SmallerWithout(s.pending, s.expectedIn);
        Drain(c, env, r.state)
  }

  lemma SmallerWithout<T>(m: map<int, T>, k: int)
    requires k in m
    ensures |m - {k}| == |m| - 1
  {
    assert (m - {k}).Keys == m.Keys - {k};
  }

  /** `finishRecoveryLocked`. */
  ghost function Finish(c: Config, env: Env, s: State): (r: Step)
    ensures r.state.pending == s.pending && r.state.expectedIn == s.expectedIn && r.state.processed == s.processed
    ensures r.state.loggedOn == s.loggedOn
    ensures r.error.None? ==> r.state.recovering == (s.recovering && |s.pending| != 0)
    ensures r.error.Some? ==> r.state.recovering == s.recovering
  {
    if !s.recovering || |s.pending| != 0 then Step(s, None)
    else if c.onRecovery then
      var r := Callback(c, env, s);
      if r.error.Some? then r else Step(r.state.(recovering := false), None)
    else Step(s.(recovering := false), None)
  }

  ghost function DrainAndFinish(c: Config, env: Env, s: State): Step
  {
    var r := Drain(c, env, s);
    if r.error.Some? then r else Finish(c, env, r.state)
  }

  /** `handleSequenceResetLocked`. */
  ghost function HandleReset(c: Config, env: Env, s: State, next: Option<int>): (r: Step)
  {
    if !s.loggedOn then Step(s, Some(ResetBeforeLogon))
    else if next.None? || next.value <= s.expectedIn then Step(s, Some(ResetInvalid))
    else
      DrainAndFinish(c, env, s.(expectedIn := next.value, recovering := true,
                                pending := map k | k in s.pending && k >= next.value :: s.pending[k]))
  }

  /** A message above the expected number: buffer it and, on the first gap, ask for a resend. */
  ghost function HandleGap(c: Config, env: Env, s: State, m: Inbound): (r: Step)
  {
    if m.sequence !in s.pending && |s.pending| >= c.MaxPending() then Step(s, Some(RecoveryOverflow))
    else
      var t := if m.sequence in s.pending then s else s.(pending := s.pending[m.sequence := m]);
      if t.recovering then Step(t, None)
      else SendLocked(c, env, t.(recovering := true), Outbound([50], [Field(7, FormatNat(t.expectedIn)), Field(16, [48])]))
  }

  /** `handle`. */
  ghost function Handle(c: Config, env: Env, s: State, m: Inbound): (r: Step)
  {
    if m.sequence == 0 then Step(s, Some(InvalidSequence))
    else if m.kind.SequenceReset? then HandleReset(c, env, s, m.kind.next)
    else if m.sequence > s.expectedIn then HandleGap(c, env, s, m)
    else if m.sequence < s.expectedIn then
      if m.possDup then Step(s, None) else Step(s, Some(OutOfSequence))
    else
      var r := Process(c, env, s, m);
      if r.error.Some? then r else DrainAndFinish(c, env, r.state)
  }

  // ---------------------------------------------------------------------- runs

  /** What can happen to a running session. */
  datatype Event = Arrive(message: Inbound) | AppSend(out: Outbound) | HeartbeatDue

  ghost function React(c: Config, env: Env, s: State, e: Event): (r: Step)
  {
    match e
    case Arrive(m) => Handle(c, env, s, m)
    case AppSend(out) => Step(Send(c, env, s, out).state, None)
    case HeartbeatDue => if s.loggedOn && !s.recovering then SendLocked(c, env, s, Outbound([48], [])) else Step(s, None)
  }

  /** A run: events in order, up to the first error, which ends `Run`. */
  ghost function Run(c: Config, env: Env, s: State, events: seq<Event>): (r: Step)
    decreases |events|
  {
    if events == [] then Step(s, None)
    else
      var init := Run(c, env, s, events[..|events| - 1]);
      if init.error.Some? then init else React(c, env, init.state, events[|events| - 1])
  }

  /** The state once `Run` has written its own Logon as message 1, which is not journaled. */
  function Started(asked: nat): State
  {
    State(2, 1, false, false, map[], map[], [], [], [], asked)
  }
}
