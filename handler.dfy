/**
 * The server side of one connection (`Server.handleConnection`): read the request,
 * issue and send a challenge, read the solution, verify it, fetch a quote and send
 * it.  The first step that fails ends the exchange with an error; whatever happens,
 * the connection is closed and the wait-group counter returns to where it was.
 */
module Handler {
  import opened Outcomes
  import opened Steps
  import opened Wire
  import opened Pow

  /** The error `handleConnection` returns, one per step that can fail. */
  datatype HandlerError =
    | ReadRequestFailed    // "read message err"
    | SendChallengeFailed  // "send challenge err"
    | ReceiveProofFailed   // "receive proof err"
    | InvalidProof         // "invalid verify"
    | GetQuoteFailed       // "get quote err"
    | SendQuoteFailed      // "send quote err"

  /** One observable step of the handler, with the values it worked on. */
  datatype Event =
    | WgAdd
    | RequestRead(request: ReadOutcome)
    | ChallengeIssued(challenge: Bytes)
    | ChallengeSent(challenge: Bytes, ok: bool)
    | SolutionRead(answer: ReadOutcome)
    | Verified(challenge: Bytes, solution: Bytes, ok: bool)
    | QuoteFetched(quote: Option<string>)
    | QuoteSent(payload: Bytes, ok: bool)
    | ConnClosed
    | WgDone

  /** The error a step ends the exchange with, if it failed. */
  function ErrorOf(e: Event): Option<HandlerError>
  {
    match e
    case RequestRead(ReadFailed) => Some(ReadRequestFailed)
    case ChallengeSent(_, false) => Some(SendChallengeFailed)
    case SolutionRead(ReadFailed) => Some(ReceiveProofFailed)
    case Verified(_, _, false) => Some(InvalidProof)
    case QuoteFetched(None) => Some(GetQuoteFailed)
    case QuoteSent(_, false) => Some(SendQuoteFailed)
    case _ => None
  }

  predicate Failed(e: Event)
  {
    ErrorOf(e).Some?
  }

  /** Everything the outside world will answer during one exchange: the two framed
      reads, the outcome of the two writes, the challenge the verifier issues, its
      verdict, and what the quote provider returns. */
  datatype Env = Env(
    request: ReadOutcome,
    challenge: Bytes,
    challengeAck: bool,
    solution: ReadOutcome,
    accepts: (Bytes, Bytes) -> bool,
    quote: Option<string>,
    quoteAck: bool)

  /** The seven protocol steps in the order the handler takes them, each with the
      outcome the environment gives it. */
  function Plan(env: Env): (plan: seq<Event>)
    ensures |plan| == 7
  {
    var solution := PayloadOf(env.solution);
    var quote := if env.quote.Some? then env.quote.value else "";
    [ RequestRead(env.request),
      ChallengeIssued(env.challenge),
      ChallengeSent(env.challenge, env.challengeAck),
      SolutionRead(env.solution),
      Verified(env.challenge, solution, env.accepts(env.challenge, solution)),
      QuoteFetched(env.quote),
      QuoteSent(EncodeUtf8(quote), env.quoteAck) ]
  }

  /** The protocol steps that run: the plan up to the step the handler gives up at. */
  function Executed(env: Env): (steps: seq<Event>)
  {
    var request := RequestRead(env.request);
    var issued := ChallengeIssued(env.challenge);
    var sent := ChallengeSent(env.challenge, env.challengeAck);
    var read := SolutionRead(env.solution);
    if env.request.ReadFailed? then [request]
    else if !env.challengeAck then [request, issued, sent]
    else if env.solution.ReadFailed? then [request, issued, sent, read]
    else
      var verified := Verified(env.challenge, env.solution.payload, env.accepts(env.challenge, env.solution.payload));
      if !verified.ok then [request, issued, sent, read, verified]
      else if env.quote.None? then [request, issued, sent, read, verified, QuoteFetched(None)]
      else [request, issued, sent, read, verified, QuoteFetched(env.quote), QuoteSent(EncodeUtf8(env.quote.value), env.quoteAck)]
  }

  /** What `handleConnection` returns: the error of the step it stopped at, or nil. */
  function Outcome(env: Env): Option<HandlerError>
  {
    var steps := Executed(env);
    ErrorOf(steps[|steps| - 1])
  }

  /** The solution frame arrived after the challenge went out, and `Verify` accepted it. */
  predicate SolutionAccepted(env: Env)
  {
    && env.request.Frame? && env.challengeAck && env.solution.Frame?
    && env.accepts(env.challenge, env.solution.payload)
  }

  /** The full record of one call: the counter increment, the protocol steps, and the
      deferred close and counter decrement. */
  function Trace(env: Env): seq<Event>
  {
    [WgAdd] + Executed(env) + [ConnClosed, WgDone]
  }

  /** The payload a step wrote to the connection, if it wrote one. */
  function WrittenBy(e: Event): seq<Bytes>
  {
    match e
    case ChallengeSent(challenge, true) => [challenge]
    case QuoteSent(payload, true) => [payload]
    case _ => []
  }

  /** The payloads the steps wrote to the connection, in order. */
  function Written(steps: seq<Event>): seq<Bytes>
  {
    if steps == [] then [] else WrittenBy(steps[0]) + Written(steps[1..])
  }

  /** The position of a protocol step in the handler's fixed order (-1 for the
      bookkeeping events around it). */
  function StepIndex(e: Event): int
  {
    match e
    case RequestRead(_) => 0
    case ChallengeIssued(_) => 1
    case ChallengeSent(_, _) => 2
    case SolutionRead(_) => 3
    case Verified(_, _, _) => 4
    case QuoteFetched(_) => 5
    case QuoteSent(_, _) => 6
    case _ => -1
  }

  /** One step of unfolding `Written` from position `k`. */
  lemma WrittenFrom(x: seq<Event>, k: nat)
    requires k < |x|
    ensures Written(x[k..]) == WrittenBy(x[k]) + Written(x[k + 1..])
  {
    assert x[k..][1..] == x[k + 1..];
  }

  /** The payloads of a seven-step run, one step at a time. */
  lemma WrittenOfSeven(x: seq<Event>)
    requires |x| == 7
    ensures Written(x) == WrittenBy(x[0]) + (WrittenBy(x[1]) + (WrittenBy(x[2]) + (WrittenBy(x[3])
                          + (WrittenBy(x[4]) + (WrittenBy(x[5]) + (WrittenBy(x[6]) + []))))))
  {
    assert x[0..] == x;
    WrittenFrom(x, 0);
    WrittenFrom(x, 1);
    WrittenFrom(x, 2);
    WrittenFrom(x, 3);
    WrittenFrom(x, 4);
    WrittenFrom(x, 5);
    WrittenFrom(x, 6);
    assert x[7..] == [];
  }

  /** The request cannot be read: nothing else happens and nothing is written. */
  lemma NoRequest(env: Env)
    requires env.request.ReadFailed?
    ensures Executed(env) == [RequestRead(env.request)]
    ensures Outcome(env) == Some(ReadRequestFailed)
    ensures Written(Executed(env)) == []
  {
  }

  /** The challenge is issued but cannot be written. */
  lemma ChallengeUnsent(env: Env)
    requires env.request.Frame? && !env.challengeAck
    ensures Executed(env) == [RequestRead(env.request), ChallengeIssued(env.challenge),
                              ChallengeSent(env.challenge, false)]
    ensures Outcome(env) == Some(SendChallengeFailed)
    ensures Written(Executed(env)) == []
  {
    var x := Executed(env);
    assert x[0..] == x;
    WrittenFrom(x, 0);
    WrittenFrom(x, 1);
    WrittenFrom(x, 2);
    assert x[3..] == [];
  }

  /** The challenge went out but no solution frame comes back. */
  lemma NoSolution(env: Env)
    requires env.request.Frame? && env.challengeAck && env.solution.ReadFailed?
    ensures Executed(env) == [RequestRead(env.request), ChallengeIssued(env.challenge),
                              ChallengeSent(env.challenge, true), SolutionRead(env.solution)]
    ensures Outcome(env) == Some(ReceiveProofFailed)
    ensures Written(Executed(env)) == [env.challenge]
  {
    var x := Executed(env);
    assert x[0..] == x;
    WrittenFrom(x, 0);
    WrittenFrom(x, 1);
    WrittenFrom(x, 2);
    WrittenFrom(x, 3);
    assert x[4..] == [];
  }

  /** `Verify` rejects the solution: no quote is fetched. */
  lemma Rejected(env: Env)
    requires env.request.Frame? && env.challengeAck && env.solution.Frame?
    requires !env.accepts(env.challenge, env.solution.payload)
    ensures Executed(env) == [RequestRead(env.request), ChallengeIssued(env.challenge),
                              ChallengeSent(env.challenge, true), SolutionRead(env.solution),
                              Verified(env.challenge, env.solution.payload, false)]
    ensures Outcome(env) == Some(InvalidProof)
    ensures Written(Executed(env)) == [env.challenge]
  {
    var x := Executed(env);
    assert x[0..] == x;
    WrittenFrom(x, 0);
    WrittenFrom(x, 1);
    WrittenFrom(x, 2);
    WrittenFrom(x, 3);
    WrittenFrom(x, 4);
    assert x[5..] == [];
  }

  /** The solution is accepted but the quote provider fails. */
  lemma NoQuote(env: Env)
    requires env.request.Frame? && env.challengeAck && env.solution.Frame?
    requires env.accepts(env.challenge, env.solution.payload) && env.quote.None?
    ensures Executed(env) == [RequestRead(env.request), ChallengeIssued(env.challenge),
                              ChallengeSent(env.challenge, true), SolutionRead(env.solution),
                              Verified(env.challenge, env.solution.payload, true), QuoteFetched(None)]
    ensures Outcome(env) == Some(GetQuoteFailed)
    ensures Written(Executed(env)) == [env.challenge]
  {
    var x := Executed(env);
    assert x[0..] == x;
    WrittenFrom(x, 0);
    WrittenFrom(x, 1);
    WrittenFrom(x, 2);
    WrittenFrom(x, 3);
    WrittenFrom(x, 4);
    WrittenFrom(x, 5);
    assert x[6..] == [];
  }

  /** The solution is accepted and a quote is fetched: it is written, and the result
      is nil exactly when that write succeeds. */
  lemma QuoteAnswered(env: Env)
    requires env.request.Frame? && env.challengeAck && env.solution.Frame?
    requires env.accepts(env.challenge, env.solution.payload) && env.quote.Some?
    ensures var payload := EncodeUtf8(env.quote.value);
            && Executed(env) == [RequestRead(env.request), ChallengeIssued(env.challenge),
                                 ChallengeSent(env.challenge, true), SolutionRead(env.solution),
                                 Verified(env.challenge, env.solution.payload, true),
                                 QuoteFetched(env.quote), QuoteSent(payload, env.quoteAck)]
            && Outcome(env) == (if env.quoteAck then None else Some(SendQuoteFailed))
            && Written(Executed(env)) == if env.quoteAck then [env.challenge, payload] else [env.challenge]
  {
    WrittenOfSeven(Executed(env));
  }

  /** For each way the environment can answer: the steps taken, the error returned and
      the payloads written. */
  lemma ExchangeCases(env: Env)
    ensures env.request.ReadFailed? ==>
              && Executed(env) == [RequestRead(env.request)]
              && Outcome(env) == Some(ReadRequestFailed)
              && Written(Executed(env)) == []
    ensures env.request.Frame? && !env.challengeAck ==>
              && Executed(env) == [RequestRead(env.request), ChallengeIssued(env.challenge),
                                   ChallengeSent(env.challenge, false)]
              && Outcome(env) == Some(SendChallengeFailed)
              && Written(Executed(env)) == []
    ensures env.request.Frame? && env.challengeAck && env.solution.ReadFailed? ==>
              && Executed(env) == [RequestRead(env.request), ChallengeIssued(env.challenge),
                                   ChallengeSent(env.challenge, true), SolutionRead(env.solution)]
              && Outcome(env) == Some(ReceiveProofFailed)
              && Written(Executed(env)) == [env.challenge]
    ensures env.request.Frame? && env.challengeAck && env.solution.Frame? ==>
              var ok := env.accepts(env.challenge, env.solution.payload);
              var taken := [RequestRead(env.request), ChallengeIssued(env.challenge),
                            ChallengeSent(env.challenge, true), SolutionRead(env.solution),
                            Verified(env.challenge, env.solution.payload, ok)];
              && (!ok ==> Executed(env) == taken && Outcome(env) == Some(InvalidProof)
                          && Written(Executed(env)) == [env.challenge])
              && (ok && env.quote.None? ==>
                    Executed(env) == taken + [QuoteFetched(None)]
                    && Outcome(env) == Some(GetQuoteFailed)
                    && Written(Executed(env)) == [env.challenge])
              && (ok && env.quote.Some? ==>
                    var payload := EncodeUtf8(env.quote.value);
                    && Executed(env) == taken + [QuoteFetched(env.quote), QuoteSent(payload, env.quoteAck)]
                    && Outcome(env) == (if env.quoteAck then None else Some(SendQuoteFailed))
                    && Written(Executed(env)) == if env.quoteAck then [env.challenge, payload] else [env.challenge])
  {
    if env.request.ReadFailed? {
      NoRequest(env);
    } else if !env.challengeAck {
      ChallengeUnsent(env);
    } else if env.solution.ReadFailed? {
      NoSolution(env);
    } else if !env.accepts(env.challenge, env.solution.payload) {
      Rejected(env);
    } else if env.quote.None? {
      NoQuote(env);
    } else {
      QuoteAnswered(env);
    }
  }

  /** The handler gives up exactly at the first failing step of its fixed plan, and
      runs all seven steps when none fails. */
  lemma ExecutedIsRun(env: Env)
    ensures Executed(env) == Run(Plan(env), Failed)
  {
    if env.request.ReadFailed? || !env.challengeAck || env.solution.ReadFailed? {
      ChallengePhaseIsRun(env);
    } else {
      AnswerPhaseIsRun(env);
    }
  }

  /** `ExecutedIsRun` for an exchange that stops before `Verify`. */
  lemma ChallengePhaseIsRun(env: Env)
    requires env.request.ReadFailed? || !env.challengeAck || env.solution.ReadFailed?
    ensures Executed(env) == Run(Plan(env), Failed)
  {
    var plan := Plan(env);
    if env.request.ReadFailed? {
      RunStopsAt(plan, Failed, 0);
    } else if !env.challengeAck {
      RunStopsAt(plan, Failed, 2);
    } else {
      RunStopsAt(plan, Failed, 3);
    }
  }

  /** `ExecutedIsRun` for an exchange that reaches `Verify`. */
  lemma AnswerPhaseIsRun(env: Env)
    requires env.request.Frame? && env.challengeAck && env.solution.Frame?
    ensures Executed(env) == Run(Plan(env), Failed)
  {
    var plan := Plan(env);
    if !env.accepts(env.challenge, env.solution.payload) {
      RunStopsAt(plan, Failed, 4);
    } else if env.quote.None? {
      RunStopsAt(plan, Failed, 5);
    } else if !env.quoteAck {
      RunStopsAt(plan, Failed, 6);
    } else {
      RunAll(plan, Failed);
    }
  }

  /** The steps that run are taken in the fixed order, and none runs after the first
      one that fails; the handler returns nil exactly when none failed. */
  lemma StepsInOrder(env: Env)
    ensures var x := Executed(env);
            && (forall i :: 0 <= i < |x| ==> StepIndex(x[i]) == i)
            && (forall i :: 0 <= i < |x| - 1 ==> !Failed(x[i]))
            && (Outcome(env).Some? <==> Failed(x[|x| - 1]))
            && (Outcome(env).None? <==> |x| == 7 && forall i :: 0 <= i < 7 ==> !Failed(x[i]))
  {
    ExecutedIsRun(env);
    var x := Executed(env);
    assert forall i :: 0 <= i < 7 ==> StepIndex(Plan(env)[i]) == i;
    assert forall i :: 0 <= i < |x| ==> x[i] == Plan(env)[i];
  }

  /** `Verify` is asked about exactly the challenge that was written to the client, the
      only message written before it, and about the solution frame just read. */
  lemma VerifyGetsSentChallenge(env: Env)
    ensures var x := Executed(env);
            forall i :: 0 <= i < |x| && x[i].Verified? ==>
              && i == 4
              && Written(x[..i]) == [x[i].challenge]
              && x[i - 1] == SolutionRead(Frame(x[i].solution))
  {
    var x := Executed(env);
    if |x| > 4 {
      assert x[..4] == [RequestRead(env.request), ChallengeIssued(env.challenge),
                        ChallengeSent(env.challenge, true), SolutionRead(env.solution)];
      WrittenBeforeVerify(env.request, env.challenge, env.solution);
    }
  }

  /** Of the four steps before `Verify`, only the challenge write writes. */
  lemma WrittenBeforeVerify(request: ReadOutcome, challenge: Bytes, solution: ReadOutcome)
    ensures Written([RequestRead(request), ChallengeIssued(challenge),
                     ChallengeSent(challenge, true), SolutionRead(solution)]) == [challenge]
  {
    var y := [RequestRead(request), ChallengeIssued(challenge), ChallengeSent(challenge, true), SolutionRead(solution)];
    assert y[0..] == y;
    WrittenFrom(y, 0);
    WrittenFrom(y, 1);
    WrittenFrom(y, 2);
    WrittenFrom(y, 3);
    assert y[4..] == [];
  }

  /** A quote is fetched, and written, only after `Verify` accepted the solution. */
  lemma QuoteOnlyAfterAcceptance(env: Env)
    ensures var x := Executed(env);
            forall i :: 0 <= i < |x| && (x[i].QuoteFetched? || x[i].QuoteSent?) ==>
              4 < i && x[4].Verified? && x[4].ok
  {
    if env.request.Frame? && env.challengeAck && env.solution.Frame? && env.accepts(env.challenge, env.solution.payload) {
      if env.quote.None? {
        NoQuote(env);
      } else {
        QuoteAnswered(env);
      }
    }
  }

  /** The content of the request message is never looked at: any other request frame
      leads to the same steps afterwards, the same writes and the same result. */
  lemma RequestContentIgnored(env: Env, other: Bytes)
    requires env.request.Frame?
    ensures var env' := env.(request := Frame(other));
            && Executed(env')[1..] == Executed(env)[1..]
            && Written(Executed(env')) == Written(Executed(env))
            && Outcome(env') == Outcome(env)
  {
    ExchangeCases(env);
    ExchangeCases(env.(request := Frame(other)));
  }

  /** `handleConnection` returns nil exactly when it wrote two messages, and then they
      are the challenge and the quote, in that order; on failure at most the challenge
      was written. */
  lemma NilIffTwoWrites(env: Env)
    ensures Outcome(env).None? <==> |Written(Executed(env))| == 2
    ensures Outcome(env).None? ==>
              env.quote.Some? && Written(Executed(env)) == [env.challenge, EncodeUtf8(env.quote.value)]
    ensures Outcome(env).Some? ==> Written(Executed(env)) <= [env.challenge]
  {
    ExchangeCases(env);
  }

  /** A challenge is issued exactly when the request was read, and a quote is fetched
      exactly when `Verify` accepted the solution: the verifier and the provider are
      each asked at most once per connection. */
  lemma CallsMatchSteps(env: Env)
    ensures ChallengeIssued(env.challenge) in Executed(env) <==> env.request.Frame?
    ensures QuoteFetched(env.quote) in Executed(env) <==> SolutionAccepted(env)
  {
    ExchangeCases(env);
  }

  /** Only protocol steps run between the bookkeeping events. */
  lemma OnlyProtocolSteps(env: Env)
    ensures forall e :: e in Executed(env) ==> StepIndex(e) >= 0
  {
    var x := Executed(env);
    forall e | e in x ensures StepIndex(e) >= 0 {
      var i :| 0 <= i < |x| && x[i] == e;
      assert x[i] == Plan(env)[i];
    }
  }

  /** Each bookkeeping event occurs once in a trace around protocol steps. */
  lemma {:induction false} OccurrencesAround(x: seq<Event>, e: Event)
    requires e !in x
    ensures Occurrences([WgAdd] + x + [ConnClosed, WgDone], e)
            == (if e == WgAdd || e == ConnClosed || e == WgDone then 1 else 0)
  {
    OccurrencesAbsent(x, e);
    OccurrencesAppend([WgAdd], x, e);
    OccurrencesAppend([WgAdd] + x, [ConnClosed, WgDone], e);
    assert [WgAdd][1..] == [];
    assert [ConnClosed, WgDone][1..] == [WgDone];
    assert [WgDone][1..] == [];
  }

  /** On every path the connection is closed exactly once, after every protocol step,
      and the wait-group counter goes up once first and down once last. */
  lemma CleanupOnEveryPath(env: Env)
    ensures var t := Trace(env);
            && t[0] == WgAdd && t[|t| - 2] == ConnClosed && t[|t| - 1] == WgDone
            && Occurrences(t, ConnClosed) == 1
            && Occurrences(t, WgAdd) == 1
            && Occurrences(t, WgDone) == 1
  {
    OnlyProtocolSteps(env);
    OccurrencesAround(Executed(env), ConnClosed);
    OccurrencesAround(Executed(env), WgAdd);
    OccurrencesAround(Executed(env), WgDone);
  }

  /** Appending a trace event by event gives the trace. */
  lemma TraceAppend(history: seq<Event>, env: Env)
    ensures history + [WgAdd] + Executed(env) + [ConnClosed] + [WgDone] == history + Trace(env)
  {
  }

  /** The quote repository as the handler uses it (`repo.Quotes.GetQuote()`):
      `reply(n)` is what its n-th call returns, `None` standing for an error. */
  class QuoteSource {
    const reply: nat -> Option<string>
    var served: nat

    constructor (reply: nat -> Option<string>)
      ensures this.reply == reply && served == 0
    {
      this.reply := reply;
      served := 0;
    }

    method GetQuote() returns (quote: Option<string>)
      modifies this
      ensures quote == reply(old(served)) && served == old(served) + 1
    {
      quote := reply(served);
      served := served + 1;
    }
  }

  /** Two writes in a row append their payloads in order. */
  lemma SnocTwice(a: seq<Bytes>, x: Bytes, y: Bytes)
    ensures (a + [x]) + [y] == a + [x, y]
  {
  }

  /** The part of the Go `Server` that a connection handler touches. */
  class Server {
    const verifier: Verifier
    const repo: QuoteSource
    var wg: int                 // the `sync.WaitGroup` counter
    ghost var events: seq<Event>

    constructor (verifier: Verifier, repo: QuoteSource)
      ensures this.verifier == verifier && this.repo == repo
      ensures wg == 0 && events == []
    {
      this.verifier := verifier;
      this.repo := repo;
      wg := 0;
      events := [];
    }

    /** What the environment will answer to an exchange on `conn` started now. */
    ghost function EnvOf(conn: Conn): Env
      reads conn, verifier, repo
    {
      Env(conn.NextRead(0), verifier.mint(verifier.issued), conn.NextAck(0), conn.NextRead(1),
          verifier.accepts, repo.reply(repo.served), conn.NextAck(1))
    }

    /** `handleConnection(conn)`: count the handler in, run the exchange, and on every
        way out close the connection and count the handler out. */
    method HandleConnection(conn: Conn) returns (err: Option<HandlerError>)
      modifies this, conn, verifier, repo
      ensures err == Outcome(old(EnvOf(conn)))
      ensures events == old(events) + Trace(old(EnvOf(conn)))
      ensures conn.sent == old(conn.sent) + Written(Executed(old(EnvOf(conn))))
      ensures conn.closed && conn.closes == old(conn.closes) + 1
      ensures wg == old(wg)
      ensures verifier.issued == old(verifier.issued) + (if old(EnvOf(conn)).request.Frame? then 1 else 0)
      ensures repo.served == old(repo.served) + (if SolutionAccepted(old(EnvOf(conn))) then 1 else 0)
    {
      ghost var env := EnvOf(conn);
      TraceAppend(events, env);
      wg := wg + 1;
      events := events + [WgAdd];
      err := Exchange(conn, env);
      // deferred
      conn.Close();
      events := events + [ConnClosed];
      wg := wg - 1;
      events := events + [WgDone];
    }

    /** The body of `handleConnection` from the request to `return nil`; every early
        return is one of its errors. */
    method Exchange(conn: Conn, ghost env: Env) returns (err: Option<HandlerError>)
      requires env == EnvOf(conn)
      modifies this, conn, verifier, repo
      ensures err == Outcome(env)
      ensures events == old(events) + Executed(env)
      ensures conn.sent == old(conn.sent) + Written(Executed(env))
      ensures conn.closed == old(conn.closed) && conn.closes == old(conn.closes)
      ensures wg == old(wg)
      ensures verifier.issued == old(verifier.issued) + (if env.request.Frame? then 1 else 0)
      ensures repo.served == old(repo.served) + (if SolutionAccepted(env) then 1 else 0)
    {

      // receive challenge request
      var request := conn.ReadMessage();
      if request.ReadFailed? {
        NoRequest(env);
        events := events + [RequestRead(request)];
        return Some(ReadRequestFailed);
      }

      // send challenge
      var challenge := verifier.Challenge();
      var sentChallenge := conn.WriteMessage(challenge);
      if !sentChallenge {
        ChallengeUnsent(env);
        events := events + [RequestRead(request), ChallengeIssued(challenge), ChallengeSent(challenge, sentChallenge)];
        return Some(SendChallengeFailed);
      }

      // receive solution
      var solution := conn.ReadMessage();
      if solution.ReadFailed? {
        NoSolution(env);
        events := events + [RequestRead(request), ChallengeIssued(challenge), ChallengeSent(challenge, sentChallenge),
                           SolutionRead(solution)];
        return Some(ReceiveProofFailed);
      }

      // verify solution
      var ok := verifier.Verify(challenge, solution.payload);
      if !ok {
        Rejected(env);
        events := events + [RequestRead(request), ChallengeIssued(challenge), ChallengeSent(challenge, sentChallenge),
                           SolutionRead(solution), Verified(challenge, solution.payload, ok)];
        return Some(InvalidProof);
      }

      // send result
      var quote := repo.GetQuote();
      if quote.None? {
        NoQuote(env);
        events := events + [RequestRead(request), ChallengeIssued(challenge), ChallengeSent(challenge, sentChallenge),
                           SolutionRead(solution), Verified(challenge, solution.payload, ok), QuoteFetched(quote)];
        return Some(GetQuoteFailed);
      }
      QuoteAnswered(env);
      var payload := EncodeUtf8(quote.value);
      var sentQuote := conn.WriteMessage(payload);
      if !sentQuote {
        events := events + [RequestRead(request), ChallengeIssued(challenge), ChallengeSent(challenge, sentChallenge),
                           SolutionRead(solution), Verified(challenge, solution.payload, ok), QuoteFetched(quote),
                           QuoteSent(payload, sentQuote)];
        return Some(SendQuoteFailed);
      }
      events := events + [RequestRead(request), ChallengeIssued(challenge), ChallengeSent(challenge, sentChallenge),
                           SolutionRead(solution), Verified(challenge, solution.payload, ok), QuoteFetched(quote),
                           QuoteSent(payload, sentQuote)];
      SnocTwice(old(conn.sent), challenge, payload);
      return None;
    }
  }
}
