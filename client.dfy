/**
 * The client side (`Client.Start` and `Client.GetQuote`): each attempt dials the server,
 * asks for a challenge with the literal message "challenge", reads the challenge, sends
 * `Solve(challenge)`, and reads the quote.  The first step that fails ends the attempt
 * with an error; a connection that was opened is closed on every way out.  `Start`
 * repeats attempts up to `count` times and stops early, with the context's error, once
 * the context is cancelled.
 */
module Client {
  import opened Outcomes
  import opened Steps
  import opened Wire

  /** The error `GetQuote` returns, one per step that can fail. */
  datatype ClientError =
    | DialFailed              // "failed to dial"
    | SendRequestFailed       // "send challenge request err"
    | ReceiveChallengeFailed  // "receive challenge err"
    | SendSolutionFailed      // "send solution err"
    | ReceiveQuoteFailed      // "receive quote err"

  /** The first message of every attempt: the bytes of "challenge". */
  const ChallengeRequest: Bytes := [0x63, 0x68, 0x61, 0x6C, 0x6C, 0x65, 0x6E, 0x67, 0x65]

  /** One observable step of an attempt, with the values it worked on. */
  datatype Event =
    | Dialed(ok: bool)
    | RequestSent(request: Bytes, ok: bool)
    | ChallengeReceived(challenge: ReadOutcome)
    | Solved(puzzle: Bytes, solution: Bytes)
    | SolutionSent(payload: Bytes, ok: bool)
    | QuoteReceived(quote: ReadOutcome)
    | ConnClosed

  /** The error a step ends the attempt with, if it failed. */
  function ErrorOf(e: Event): Option<ClientError>
  {
    match e
    case Dialed(false) => Some(DialFailed)
    case RequestSent(_, false) => Some(SendRequestFailed)
    case ChallengeReceived(ReadFailed) => Some(ReceiveChallengeFailed)
    case SolutionSent(_, false) => Some(SendSolutionFailed)
    case QuoteReceived(ReadFailed) => Some(ReceiveQuoteFailed)
    case _ => None
  }

  predicate Failed(e: Event)
  {
    ErrorOf(e).Some?
  }

  /** Everything the outside world will answer during one attempt: whether the dial
      succeeds, whether the two writes succeed, and what the two framed reads yield. */
  datatype Env = Env(
    dialed: bool,
    requestAck: bool,
    challenge: ReadOutcome,
    solutionAck: bool,
    quote: ReadOutcome)

  /** What an attempt will meet when the next dial has outcome `s`. */
  function EnvOf(s: Session): Env
  {
    match s
    case Refused => Env(false, false, ReadFailed, false, ReadFailed)
    case Accepted(incoming, acks) =>
      Env(true, AckAt(acks, 0), ReadAt(incoming, 0), AckAt(acks, 1), ReadAt(incoming, 1))
  }

  /** The six steps of an attempt in the order `GetQuote` takes them, each with the
      outcome the environment gives it. */
  function Plan(env: Env, solve: Bytes -> Bytes): (plan: seq<Event>)
    ensures |plan| == 6
  {
    var challenge := PayloadOf(env.challenge);
    [ Dialed(env.dialed),
      RequestSent(ChallengeRequest, env.requestAck),
      ChallengeReceived(env.challenge),
      Solved(challenge, solve(challenge)),
      SolutionSent(solve(challenge), env.solutionAck),
      QuoteReceived(env.quote) ]
  }

  /** The steps an attempt takes: all of them up to the first that fails. */
  function Executed(env: Env, solve: Bytes -> Bytes): seq<Event>
  {
    var dialed := Dialed(env.dialed);
    var request := RequestSent(ChallengeRequest, env.requestAck);
    var received := ChallengeReceived(env.challenge);
    if !env.dialed then [dialed]
    else if !env.requestAck then [dialed, request]
    else if env.challenge.ReadFailed? then [dialed, request, received]
    else
      var solution := solve(env.challenge.payload);
      var solved := Solved(env.challenge.payload, solution);
      if !env.solutionAck then [dialed, request, received, solved, SolutionSent(solution, false)]
      else [dialed, request, received, solved, SolutionSent(solution, true), QuoteReceived(env.quote)]
  }

  /** What `GetQuote` returns: the quote frame, or the error of the first failing step. */
  function Attempt(env: Env, solve: Bytes -> Bytes): Result<Bytes, ClientError>
  {
    if !env.dialed then Err(DialFailed)
    else if !env.requestAck then Err(SendRequestFailed)
    else if env.challenge.ReadFailed? then Err(ReceiveChallengeFailed)
    else if !env.solutionAck then Err(SendSolutionFailed)
    else if env.quote.ReadFailed? then Err(ReceiveQuoteFailed)
    else Ok(env.quote.payload)
  }

  /** The full record of one attempt: its steps, then the deferred close if a
      connection was opened. */
  function Trace(env: Env, solve: Bytes -> Bytes): seq<Event>
  {
    Executed(env, solve) + if env.dialed then [ConnClosed] else []
  }

  /** The payload a step wrote to the connection, if it wrote one. */
  function WrittenBy(e: Event): seq<Bytes>
  {
    match e
    case RequestSent(request, true) => [request]
    case SolutionSent(payload, true) => [payload]
    case _ => []
  }

  /** The payloads the steps wrote to the connection, in order. */
  function Written(steps: seq<Event>): seq<Bytes>
  {
    if steps == [] then [] else WrittenBy(steps[0]) + Written(steps[1..])
  }

  /** The request constant is `[]byte("challenge")`. */
  lemma ChallengeRequestIsUtf8()
    ensures EncodeUtf8("challenge") == ChallengeRequest
  {
    EncodeAscii("challenge");
  }

  /** One step of unfolding `Written` from position `k`. */
  lemma WrittenFrom(x: seq<Event>, k: nat)
    requires k < |x|
    ensures Written(x[k..]) == WrittenBy(x[k]) + Written(x[k + 1..])
  {
    assert x[k..][1..] == x[k + 1..];
  }

  /** The dial is refused: nothing else happens. */
  lemma NotDialed(env: Env, solve: Bytes -> Bytes)
    requires !env.dialed
    ensures Executed(env, solve) == [Dialed(false)]
    ensures Attempt(env, solve) == Err(DialFailed)
    ensures Written(Executed(env, solve)) == []
  {
  }

  /** The request for a challenge cannot be written. */
  lemma RequestUnsent(env: Env, solve: Bytes -> Bytes)
    requires env.dialed && !env.requestAck
    ensures Executed(env, solve) == [Dialed(true), RequestSent(ChallengeRequest, false)]
    ensures Attempt(env, solve) == Err(SendRequestFailed)
    ensures Written(Executed(env, solve)) == []
  {
    var x := Executed(env, solve);
    assert x[0..] == x;
    WrittenFrom(x, 0);
    WrittenFrom(x, 1);
    assert x[2..] == [];
  }

  /** The request went out but no challenge frame comes back. */
  lemma NoChallenge(env: Env, solve: Bytes -> Bytes)
    requires env.dialed && env.requestAck && env.challenge.ReadFailed?
    ensures Executed(env, solve) == [Dialed(true), RequestSent(ChallengeRequest, true),
                                     ChallengeReceived(ReadFailed)]
    ensures Attempt(env, solve) == Err(ReceiveChallengeFailed)
    ensures Written(Executed(env, solve)) == [ChallengeRequest]
  {
    var x := Executed(env, solve);
    assert x[0..] == x;
    WrittenFrom(x, 0);
    WrittenFrom(x, 1);
    WrittenFrom(x, 2);
    assert x[3..] == [];
  }

  /** The challenge is solved but the solution cannot be written. */
  lemma SolutionUnsent(env: Env, solve: Bytes -> Bytes)
    requires env.dialed && env.requestAck && env.challenge.Frame? && !env.solutionAck
    ensures var c := env.challenge.payload;
            Executed(env, solve) == [Dialed(true), RequestSent(ChallengeRequest, true),
                                     ChallengeReceived(Frame(c)), Solved(c, solve(c)),
                                     SolutionSent(solve(c), false)]
    ensures Attempt(env, solve) == Err(SendSolutionFailed)
    ensures Written(Executed(env, solve)) == [ChallengeRequest]
  {
    var x := Executed(env, solve);
    assert x[0..] == x;
    WrittenFrom(x, 0);
    WrittenFrom(x, 1);
    WrittenFrom(x, 2);
    WrittenFrom(x, 3);
    WrittenFrom(x, 4);
    assert x[5..] == [];
  }

  /** Both messages went out; the attempt returns the quote frame if one comes back. */
  lemma QuoteRead(env: Env, solve: Bytes -> Bytes)
    requires env.dialed && env.requestAck && env.challenge.Frame? && env.solutionAck
    ensures var c := env.challenge.payload;
            Executed(env, solve) == [Dialed(true), RequestSent(ChallengeRequest, true),
                                     ChallengeReceived(Frame(c)), Solved(c, solve(c)),
                                     SolutionSent(solve(c), true), QuoteReceived(env.quote)]
    ensures Attempt(env, solve) == if env.quote.Frame? then Ok(env.quote.payload) else Err(ReceiveQuoteFailed)
    ensures Written(Executed(env, solve)) == [ChallengeRequest, solve(env.challenge.payload)]
  {
    var x := Executed(env, solve);
    assert x[0..] == x;
    WrittenFrom(x, 0);
    WrittenFrom(x, 1);
    WrittenFrom(x, 2);
    WrittenFrom(x, 3);
    WrittenFrom(x, 4);
    WrittenFrom(x, 5);
    assert x[6..] == [];
  }

  /** An attempt stops exactly at the first failing step of its fixed plan, and takes
      all six steps when none fails. */
  lemma ExecutedIsRun(env: Env, solve: Bytes -> Bytes)
    ensures Executed(env, solve) == Run(Plan(env, solve), Failed)
  {
    var plan := Plan(env, solve);
    if !env.dialed {
      RunStopsAt(plan, Failed, 0);
    } else if !env.requestAck {
      RunStopsAt(plan, Failed, 1);
    } else if env.challenge.ReadFailed? {
      RunStopsAt(plan, Failed, 2);
    } else if !env.solutionAck {
      RunStopsAt(plan, Failed, 4);
    } else if env.quote.ReadFailed? {
      RunStopsAt(plan, Failed, 5);
    } else {
      RunAll(plan, Failed);
    }
  }

  /** `GetQuote` returns an error exactly when a step failed, and then it is the error
      of the last step taken, which is the first failing one; on success every step
      ran and the result is the payload of the second frame read. */
  lemma ResultOfLastStep(env: Env, solve: Bytes -> Bytes)
    ensures var x := Executed(env, solve);
            && (Attempt(env, solve).Err? <==> Failed(x[|x| - 1]))
            && (Attempt(env, solve).Err? ==> Attempt(env, solve).error == ErrorOf(x[|x| - 1]).value)
            && (forall i :: 0 <= i < |x| - 1 ==> !Failed(x[i]))
            && (Attempt(env, solve).Ok? <==> |x| == 6 && !Failed(x[5]))
            && (Attempt(env, solve).Ok? ==> x[5] == QuoteReceived(Frame(Attempt(env, solve).value)))
  {
    if !env.dialed {
      NotDialed(env, solve);
    } else if !env.requestAck {
      RequestUnsent(env, solve);
    } else if env.challenge.ReadFailed? {
      NoChallenge(env, solve);
    } else if !env.solutionAck {
      SolutionUnsent(env, solve);
    } else {
      QuoteRead(env, solve);
    }
  }

  /** The first message written on every connection is the request for a challenge,
      and the second (if any) is `Solve` of the challenge frame just received. */
  lemma MessagesWritten(env: Env, solve: Bytes -> Bytes)
    ensures var w := Written(Executed(env, solve));
            && |w| <= 2
            && (|w| >= 1 ==> w[0] == ChallengeRequest)
            && (|w| == 2 ==> env.challenge.Frame? && w[1] == solve(env.challenge.payload))
            && (Attempt(env, solve).Ok? ==> |w| == 2)
  {
    if !env.dialed {
      NotDialed(env, solve);
    } else if !env.requestAck {
      RequestUnsent(env, solve);
    } else if env.challenge.ReadFailed? {
      NoChallenge(env, solve);
    } else if !env.solutionAck {
      SolutionUnsent(env, solve);
    } else {
      QuoteRead(env, solve);
    }
  }

  /** The solution sent is `Solve` applied to exactly the challenge bytes received in
      the step before. */
  lemma SolutionSolvesReceivedChallenge(env: Env, solve: Bytes -> Bytes)
    ensures var x := Executed(env, solve);
            forall i :: 0 <= i < |x| && x[i].SolutionSent? ==>
              && i == 4
              && x[2] == ChallengeReceived(Frame(x[3].puzzle))
              && x[i].payload == solve(x[3].puzzle)
  {
  }

  /** If the dial fails nothing is closed; otherwise the connection is closed exactly
      once, after every other step. */
  lemma ClosedOnceIfDialed(env: Env, solve: Bytes -> Bytes)
    ensures var t := Trace(env, solve);
            && Occurrences(t, ConnClosed) == (if env.dialed then 1 else 0)
            && (env.dialed ==> t[|t| - 1] == ConnClosed)
  {
    var x := Executed(env, solve);
    assert ConnClosed !in x;
    OccurrencesAbsent(x, ConnClosed);
    if env.dialed {
      OccurrencesAppend(x, [ConnClosed], ConnClosed);
      assert [ConnClosed][1..] == [];
    } else {
      assert Trace(env, solve) == x;
    }
  }

  /** A context whose cancellation is seen from its `cancelledFrom`-th `Err` call on:
      the point at which a timer fires or a signal arrives, which the model does not
      know, is an unknown poll index. */
  datatype CtxErr = Canceled | DeadlineExceeded

  /** Whether the k-th `Err` call sees the cancellation. */
  predicate Seen(cancelledFrom: Option<nat>, k: nat)
  {
    cancelledFrom.Some? && cancelledFrom.value <= k
  }

  class Context {
    const cancelledFrom: Option<nat>
    const cause: CtxErr
    var polls: nat

    constructor (cancelledFrom: Option<nat>, cause: CtxErr)
      ensures this.cancelledFrom == cancelledFrom && this.cause == cause && polls == 0
    {
      this.cancelledFrom := cancelledFrom;
      this.cause := cause;
      polls := 0;
    }

    /** What the k-th `Err` call answers; once cancelled, a context stays cancelled. */
    function ErrAt(k: nat): Option<CtxErr>
    {
      if Seen(cancelledFrom, k) then Some(cause) else None
    }

    /** Once an `Err` call reports the cancellation, every later call reports the same
        cause: two calls in a row past the cancellation point agree. */
    lemma ErrStaysSet(k: nat, j: nat)
      requires ErrAt(k).Some? && k <= j
      ensures ErrAt(j) == ErrAt(k) == Some(cause)
    {
    }

    /** `ctx.Err()`. */
    method Err() returns (e: Option<CtxErr>)
      modifies this
      ensures e == ErrAt(old(polls)) && polls == old(polls) + 1
    {
      e := ErrAt(polls);
      polls := polls + 1;
    }
  }

  /** How many attempts `Start(ctx, count)` makes when its first `Err` call is the
      `first`-th one of a context cancelled from `cancelledFrom`. */
  function Attempts(count: int, first: nat, cancelledFrom: Option<nat>): nat
  {
    if count <= 0 then 0
    else if cancelledFrom.None? then count
    else if cancelledFrom.value <= first then 0
    else if cancelledFrom.value - first < count then cancelledFrom.value - first
    else count
  }

  /** What `Start` returns: the context's error if it stopped early, otherwise nil. */
  function StartErr(count: int, first: nat, cancelledFrom: Option<nat>, cause: CtxErr): Option<CtxErr>
  {
    if Attempts(count, first, cancelledFrom) < count then Some(cause) else None
  }

  /** The results of the first `n` attempts against the dial script `sessions`. */
  function Results(sessions: seq<Session>, solve: Bytes -> Bytes, n: nat): (rs: seq<Result<Bytes, ClientError>>)
    ensures |rs| == n
    ensures forall i :: 0 <= i < n ==> rs[i] == Attempt(EnvOf(SessionAt(sessions, i)), solve)
  {
    if n == 0 then [] else Results(sessions, solve, n - 1) + [Attempt(EnvOf(SessionAt(sessions, n - 1)), solve)]
  }

  /** How many of the first `n` dials of the script `sessions` open a connection. */
  function Dials(sessions: seq<Session>, n: nat): nat
  {
    if n == 0 then 0 else Dials(sessions, n - 1) + if SessionAt(sessions, n - 1).Accepted? then 1 else 0
  }

  /** The records of the first `n` attempts against the dial script `sessions`, one
      after the other. */
  function Traces(sessions: seq<Session>, solve: Bytes -> Bytes, n: nat): seq<Event>
  {
    if n == 0 then [] else Traces(sessions, solve, n - 1) + Trace(EnvOf(SessionAt(sessions, n - 1)), solve)
  }

  /** Recording one more attempt extends the record of the ones before it. */
  lemma TracesStep(history: seq<Event>, sessions: seq<Session>, solve: Bytes -> Bytes, i: nat)
    ensures history + Traces(sessions, solve, i) + Trace(EnvOf(SessionAt(sessions, i)), solve)
            == history + Traces(sessions, solve, i + 1)
  {
  }

  /** Over any number of attempts, exactly the connections that were opened are
      closed, each once. */
  lemma {:induction false} TracesCloseEachConnection(sessions: seq<Session>, solve: Bytes -> Bytes, n: nat)
    ensures Occurrences(Traces(sessions, solve, n), ConnClosed) == Dials(sessions, n)
  {
    if n > 0 {
      var s := SessionAt(sessions, n - 1);
      TracesCloseEachConnection(sessions, solve, n - 1);
      OccurrencesAppend(Traces(sessions, solve, n - 1), Trace(EnvOf(s), solve), ConnClosed);
      ClosedOnceIfDialed(EnvOf(s), solve);
      assert EnvOf(s).dialed <==> s.Accepted?;
    }
  }

  /** The dial script left after `n` dials. */
  function After(sessions: seq<Session>, n: nat): (rest: seq<Session>)
    ensures forall k: nat :: SessionAt(rest, k) == SessionAt(sessions, n + k)
  {
    if n <= |sessions| then sessions[n..] else []
  }

  /** One dial consumes the head of the remaining script. */
  lemma AfterStep(sessions: seq<Session>, i: nat)
    ensures Rest(After(sessions, i)) == After(sessions, i + 1)
    ensures SessionAt(After(sessions, i), 0) == SessionAt(sessions, i)
  {
  }

  /** One iteration of the loop in `Start`, as `Attempts` sees it. */
  lemma AttemptsStep(count: int, first: nat, cancelledFrom: Option<nat>, i: nat)
    requires i <= Attempts(count, first, cancelledFrom)
    ensures Seen(cancelledFrom, first + i) ==> Attempts(count, first, cancelledFrom) == i
    ensures !Seen(cancelledFrom, first + i) && i < count ==> i + 1 <= Attempts(count, first, cancelledFrom)
    ensures count <= i ==> Attempts(count, first, cancelledFrom) == i
  {
  }

  /** `Start` makes at most `count` attempts, none when `count <= 0`. */
  lemma AttemptsAtMostCount(count: int, first: nat, cancelledFrom: Option<nat>)
    ensures Attempts(count, first, cancelledFrom) <= if count <= 0 then 0 else count
  {
  }

  /** Every attempt is made while the context is not yet cancelled; when the loop stops
      before `count` attempts it is because the context was seen cancelled, and then
      `Start` returns the context's error. */
  lemma AttemptsStopAtCancellation(count: int, first: nat, cancelledFrom: Option<nat>, cause: CtxErr)
    ensures var n := Attempts(count, first, cancelledFrom);
            && (forall k :: first <= k < first + n ==> !Seen(cancelledFrom, k))
            && (n < count ==> Seen(cancelledFrom, first + n))
            && (StartErr(count, first, cancelledFrom, cause).Some? <==> n < count)
            && (StartErr(count, first, cancelledFrom, cause).Some? ==>
                  StartErr(count, first, cancelledFrom, cause) == Some(cause))
  {
  }

  /** A context that is never cancelled lets every attempt run, whatever the attempts
      return, and `Start` returns nil. */
  lemma NeverCancelledRunsAll(count: int, first: nat, cause: CtxErr)
    requires count > 0
    ensures Attempts(count, first, None) == count
    ensures StartErr(count, first, None, cause).None?
  {
  }

  /** Recording the dial, the steps after it and the close gives the trace. */
  lemma TraceAppend(history: seq<Event>, env: Env, solve: Bytes -> Bytes)
    requires env.dialed
    ensures history + [Dialed(true)] + Executed(env, solve)[1..] + [ConnClosed] == history + Trace(env, solve)
  {
    var x := Executed(env, solve);
    assert [Dialed(true)] + x[1..] == x;
  }

  /** The part of the Go `Client` that `Start` and `GetQuote` use: the solver, the log
      of what each attempt produced (`logger.Info(quote)` or `logger.Error(err)`), and a
      record of the steps the attempts took. */
  class QuoteClient {
    const solve: Bytes -> Bytes
    var logged: seq<Result<Bytes, ClientError>>
    ghost var events: seq<Event>

    constructor (solve: Bytes -> Bytes)
      ensures this.solve == solve && logged == [] && events == []
    {
      this.solve := solve;
      logged := [];
      events := [];
    }

    /** `GetQuote(ctx)`: one attempt.  `conn` is the connection it opened, if any. */
    method GetQuote(dialer: Dialer) returns (r: Result<Bytes, ClientError>, ghost conn: Conn?)
      modifies this, dialer
      ensures dialer.sessions == Rest(old(dialer.sessions))
      ensures r == Attempt(EnvOf(old(dialer.Next())), solve)
      ensures events == old(events) + Trace(EnvOf(old(dialer.Next())), solve)
      ensures logged == old(logged)
      ensures conn == null <==> old(dialer.Next()).Refused?
      ensures conn != null ==> fresh(conn)
      ensures conn != null ==> conn.sent == Written(Executed(EnvOf(old(dialer.Next())), solve))
      ensures conn != null ==> conn.closed && conn.closes == 1
    {
      ghost var env := EnvOf(dialer.Next());
      var c := dialer.Dial();
      conn := c;
      if c == null {
        NotDialed(env, solve);
        events := events + [Dialed(false)];
        return Err(DialFailed), conn;
      }
      TraceAppend(events, env, solve);
      events := events + [Dialed(true)];
      r := Exchange(c, env);
      // deferred
      c.Close();
      events := events + [ConnClosed];
    }

    /** The part of `GetQuote` after the dial, up to its returns. */
    method Exchange(conn: Conn, ghost env: Env) returns (r: Result<Bytes, ClientError>)
      requires env.dialed && conn.sent == [] && !conn.closed
      requires env.requestAck == AckAt(conn.acks, 0) && env.solutionAck == AckAt(conn.acks, 1)
      requires env.challenge == ReadAt(conn.incoming, 0) && env.quote == ReadAt(conn.incoming, 1)
      modifies this, conn
      ensures r == Attempt(env, solve)
      ensures events == old(events) + Executed(env, solve)[1..]
      ensures logged == old(logged)
      ensures conn.sent == Written(Executed(env, solve))
      ensures !conn.closed && conn.closes == old(conn.closes)
    {
      // challenge request
      var sentRequest := conn.WriteMessage(ChallengeRequest);
      if !sentRequest {
        RequestUnsent(env, solve);
        events := events + [RequestSent(ChallengeRequest, sentRequest)];
        return Err(SendRequestFailed);
      }

      // receive challenge
      var challenge := conn.ReadMessage();
      if challenge.ReadFailed? {
        NoChallenge(env, solve);
        events := events + [RequestSent(ChallengeRequest, sentRequest), ChallengeReceived(challenge)];
        return Err(ReceiveChallengeFailed);
      }

      // send solution
      var solution := solve(challenge.payload);
      var sentSolution := conn.WriteMessage(solution);
      if !sentSolution {
        SolutionUnsent(env, solve);
        events := events + [RequestSent(ChallengeRequest, sentRequest), ChallengeReceived(challenge),
                            Solved(challenge.payload, solution), SolutionSent(solution, sentSolution)];
        return Err(SendSolutionFailed);
      }

      // receive quote
      var quote := conn.ReadMessage();
      QuoteRead(env, solve);
      events := events + [RequestSent(ChallengeRequest, sentRequest), ChallengeReceived(challenge),
                          Solved(challenge.payload, solution), SolutionSent(solution, sentSolution),
                          QuoteReceived(quote)];
      if quote.ReadFailed? {
        return Err(ReceiveQuoteFailed);
      }
      return Ok(quote.payload);
    }

    /** `Start(ctx, count)`: up to `count` attempts, each logged, stopping with the
        context's error as soon as the context is seen cancelled. */
    method Start(ctx: Context, dialer: Dialer, count: int) returns (err: Option<CtxErr>)
      modifies this, ctx, dialer
      ensures var n := Attempts(count, old(ctx.polls), ctx.cancelledFrom);
              && logged == old(logged) + Results(old(dialer.sessions), solve, n)
              && dialer.sessions == After(old(dialer.sessions), n)
              && err == StartErr(count, old(ctx.polls), ctx.cancelledFrom, ctx.cause)
              && ctx.polls == old(ctx.polls) + n + (if n < count then 2 else 0)
              && events == old(events) + Traces(old(dialer.sessions), solve, n)
    {
      var i := 0;
      while i < count
        invariant 0 <= i <= Attempts(count, old(ctx.polls), ctx.cancelledFrom)
        invariant ctx.polls == old(ctx.polls) + i
        invariant logged == old(logged) + Results(old(dialer.sessions), solve, i)
        invariant dialer.sessions == After(old(dialer.sessions), i)
        invariant events == old(events) + Traces(old(dialer.sessions), solve, i)
      {
        AttemptsStep(count, old(ctx.polls), ctx.cancelledFrom, i);
        AfterStep(old(dialer.sessions), i);
        var e := ctx.Err();
        if e.Some? {
          err := ctx.Err();
          return;
        }

        TracesStep(old(events), old(dialer.sessions), solve, i);
        var r, conn := GetQuote(dialer);
        // `logger.Error` on failure, `logger.Info` on success
        logged := logged + [r];
        i := i + 1;
      }
      AttemptsStep(count, old(ctx.polls), ctx.cancelledFrom, i);
      return None;
    }
  }
}
