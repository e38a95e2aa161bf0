/** The `Session` object: its methods update the fields in place and follow the state machine exactly. */
module FixSessionObject {
  import opened Bytes
  import opened FixCodec
  import opened FixSession

  class Session {
    const config: Config
    var nextOut: nat
    var expectedIn: nat
    var loggedOn: bool
    var recovering: bool
    var pending: map<int, Inbound>
    var journal: map<int, seq<Field>>
    var wire: seq<seq<Field>>
    var asked: nat
    ghost var sent: seq<seq<Field>>
    ghost var processed: seq<Inbound>

    ghost function View(): State
      reads this
    {
      State(nextOut, expectedIn, loggedOn, recovering, pending, journal, sent, wire, processed, asked)
    }

    /** `NewSession`, and the write of the Logon by `Run`. */
    constructor (config: Config)
      ensures this.config == config && View() == Started(0)
    {
      this.config := config;
      nextOut, expectedIn, loggedOn, recovering := 2, 1, false, false;
      pending, journal, wire, asked := map[], map[], [], 0;
      sent, processed := [], [];
    }

    method RememberOutbound(sequence: int, fields: seq<Field>)
      modifies this`journal
      ensures journal == Remember(config, old(journal), sequence, fields)
    {
      if |journal| >= config.MaxJournal() {
        var oldest := sequence;
        var rest := journal.Keys;
        while rest != {}
          invariant journal == old(journal) && rest <= journal.Keys
          invariant oldest <= sequence && (oldest == sequence || oldest in journal)
          invariant forall k :: k in journal && k !in rest ==> oldest <= k
          decreases |rest|
        {
          SomeKey(rest);
          var existing :| existing in rest;
          if existing < oldest { oldest := existing; }
          rest := rest - {existing};
        }
        assert oldest == Oldest(journal.Keys, sequence);
        journal := journal - {oldest};
      }
      journal := journal[sequence := fields];
    }

    method SendLocked(env: Env, out: Outbound) returns (error: Option<SessionError>)
      modifies this
      ensures Step(View(), error) == FixSession.SendLocked(config, env, old(View()), out)
    {
      var fields := HeaderFields(config, out.msgType, nextOut, env.now(asked, 0)) + out.body;
      var raw := Encode(DEFAULT_BEGIN, fields);
      if raw.Err? { return Some(EncodeFailed); }
      var written := env.ok(asked);
      asked := asked + 1;
      if !written { return Some(WriteFailed); }
      wire := wire + [fields];
      RememberOutbound(nextOut, fields);
      sent := sent + [fields];
      nextOut := nextOut + 1;
      return None;
    }

    method Send(env: Env, out: Outbound) returns (error: Option<SessionError>)
      modifies this
      ensures Step(View(), error) == FixSession.Send(config, env, old(View()), out)
    {
      if !loggedOn { return Some(NotLoggedOn); }
      if recovering { return Some(WritesPaused); }
      error := SendLocked(env, out);
    }

    /** A callback runs with the lock released, so application sends may slip in before it returns. */
    method RunCallback(env: Env) returns (error: Option<SessionError>)
      modifies this
      ensures Step(View(), error) == Callback(config, env, old(View()))
    {
      var ok, sends := env.ok(asked), env.sends(asked);
      asked := asked + 1;
      ghost var start := View();
      for i := 0 to |sends|
        invariant Interleaved(config, env, start, sends) == Interleaved(config, env, View(), sends[i..])
      {
        assert sends[i..][0] == sends[i] && sends[i..][1..] == sends[i + 1..];
        var _ := Send(env, sends[i]);
      }
      return if ok then None else Some(CallbackFailed);
    }

    method ResendLocked(env: Env, begin: int, end: int) returns (error: Option<SessionError>)
      modifies this`wire, this`asked
      ensures Step(View(), error) == Resend(env, old(View()), begin, end)
    {
      var sequence := begin;
      while sequence <= end
        invariant Resend(env, old(View()), begin, end) == Resend(env, View(), sequence, end)
        decreases end - sequence
      {
        error := ReplayMessage(env, sequence);
        if error.Some? { return error; }
        sequence := sequence + 1;
      }
      return None;
    }

    /** One turn of the `resendLocked` loop. */
    method ReplayMessage(env: Env, sequence: int) returns (error: Option<SessionError>)
      modifies this`wire, this`asked
      ensures Step(View(), error) == ResendOne(env, old(View()), sequence)
    {
      if sequence !in journal { return Some(ResendUnavailable(sequence)); }
      var original := journal[sequence];
      var time, found := Get(original, 52);
      if !found || time == [] { return Some(ResendUnavailable(sequence)); }
      var resent := BuildResent(original, ClockOf(env, asked), time);
      var raw := Encode(DEFAULT_BEGIN, resent);
      if raw.Err? { return Some(EncodeFailed); }
      var written := env.ok(asked);
      asked := asked + 1;
      if !written { return Some(WriteFailed); }
      wire := wire + [resent];
      return None;
    }

    /** The ResendRequest case of `processExpectedLocked`. */
    method AnswerResend(env: Env, begin: int, requested: int) returns (error: Option<SessionError>)
      modifies this`wire, this`asked, this`recovering
      ensures Step(View(), error) == Replay(env, old(View()), begin, requested)
    {
      var end := if requested == 0 || requested >= nextOut then nextOut - 1 else requested;
      if end < begin { return Some(BadResendRange); }
      error := ResendLocked(env, begin, end);
      if error.Some? { recovering := true; }
    }

    /** `processExpectedLocked`. */
    method ProcessExpected(env: Env, m: Inbound) returns (error: Option<SessionError>)
      modifies this
      ensures Step(View(), error) == Process(config, env, old(View()), m)
    {
      if m.sequence != expectedIn { return Some(OutOfSequence); }
      expectedIn := expectedIn + 1;
      processed := processed + [m];
      match m.kind {
        case Logon =>
          if m.sequence != 1 { return Some(LogonNotFirst); }
          loggedOn := true;
          return None;
        case Heartbeat => return None;
        case TestRequest(id) =>
          error := SendLocked(env, Outbound([48], if id == [] then [] else [Field(112, id)]));
        case ResendRequest(None) => return Some(BadResendRange);
        case ResendRequest(Some((begin, requested))) => error := AnswerResend(env, begin, requested);
        case SequenceReset(_) => return Some(RoutingError);
        case Reject => return Some(Rejected);
        case Logout =>
          if !loggedOn { return Some(AuthenticationFailed); }
          loggedOn := false;
          return Some(LoggedOut);
        case Application =>
          if !loggedOn { return Some(BeforeLogon); }
          if config.onMessage { error := RunCallback(env); } else { return None; }
      }
    }

    method FinishRecovery(env: Env) returns (error: Option<SessionError>)
      modifies this
      ensures Step(View(), error) == Finish(config, env, old(View()))
    {
      if !recovering || |pending| != 0 { return None; }
      if config.onRecovery {
        error := RunCallback(env);
        if error.Some? { return error; }
      }
      recovering := false;
      return None;
    }

    /** The drain loop that both handlers share, and the end of recovery. */
    method DrainPending(env: Env) returns (error: Option<SessionError>)
      modifies this
      ensures Step(View(), error) == DrainAndFinish(config, env, old(View()))
    {
      while expectedIn in pending
        invariant Drain(config, env, old(View())) == Drain(config, env, View())
        decreases |pending|
      {
        var m := pending[expectedIn];
        SmallerWithout(pending, expectedIn);
        pending := pending - {expectedIn};
        error := ProcessExpected(env, m);
        if error.Some? { return error; }
      }
      error := FinishRecovery(env);
    }

    method HandleSequenceReset(env: Env, next: Option<int>) returns (error: Option<SessionError>)
      modifies this
      ensures Step(View(), error) == HandleReset(config, env, old(View()), next)
    {
      if !loggedOn { return Some(ResetBeforeLogon); }
      if next.None? || next.value <= expectedIn { return Some(ResetInvalid); }
      expectedIn := next.value;
      recovering := true;
      pending := map k | k in pending && k >= next.value :: pending[k];
      error := DrainPending(env);
    }

    /** `handle`. */
    method Handle(env: Env, message: Message) returns (error: Option<SessionError>)
      modifies this
      ensures Step(View(), error) == FixSession.Handle(config, env, old(View()), Read(message))
    {
      var m := Read(message);
      if m.sequence == 0 { return Some(InvalidSequence); }
      if m.kind.SequenceReset? {
        error := HandleSequenceReset(env, m.kind.next);
        return error;
      }
      if m.sequence > expectedIn {
        if m.sequence !in pending {
          if |pending| >= config.MaxPending() { return Some(RecoveryOverflow); }
          pending := pending[m.sequence := m];
        }
        if !recovering {
          recovering := true;
          error := SendLocked(env, Outbound([50], [Field(7, FormatNat(expectedIn)), Field(16, [48])]));
          return error;
        }
        return None;
      }
      if m.sequence < expectedIn {
        return if m.possDup then None else Some(OutOfSequence);
      }
      error := ProcessExpected(env, m);
      if error.Some? { return error; }
      error := DrainPending(env);
    }
  }

  /** The copy loop of `resendLocked`. */
  method BuildResent(original: seq<Field>, now: Clock, time: bytes) returns (resent: seq<Field>)
    ensures resent == Resent(original, now, time)
  {
    resent := [];
    for i := 0 to |original|
      invariant Resent(original, now, time) == resent + Resent(original[i..], now, time)
    {
      var field := original[i];
      ghost var rest := Resent(original[i + 1..], now, time);
      assert original[i..][0] == field && original[i..][1..] == original[i + 1..];
      if field.tag == 43 || field.tag == 122 { continue; }
      if field.tag == 52 {
        var three := [Field(52, now(|original| - i)), Field(43, YES), Field(122, time)];
        assert resent + (three + rest) == (resent + three) + rest;
        resent := resent + three;
        continue;
      }
      assert resent + ([field] + rest) == (resent + [field]) + rest;
      resent := resent + [field];
    }
  }
}
