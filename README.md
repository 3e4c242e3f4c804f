# tcp-pow-server: the connection protocol, the quote corpus and the log levels

This project models the core of a TCP "word of wisdom" server written in Go. The server
protects itself with a proof-of-work puzzle. The client asks for a challenge with the
message `challenge`. The server answers with a hashcash challenge, the client sends a
solution, and the server verifies it and writes back a random quote from an embedded
corpus. Every step on either side returns at the first error. The server closes the
connection on every way out, and so does the client once it has dialled.

The model has these modules:

- `Outcomes`: `Option` and `Result`.
- `Steps`: `Run(plan, failed)`, the steps of a fixed chain up to and including the first
  one that fails. Both ends follow this discipline.
- `Wire`: bytes, and a framed connection `Conn`. A connection is a script of what its
  next framed reads and writes will yield, plus a log of the payloads delivered and a
  count of `Close` calls. It also holds the `Dialer` and the UTF-8 encoding Go applies in
  `[]byte(s)`.
- `Pow`: the server's `Verifier`. The challenge it issues and its verdict are given
  functions.
- `Handler`: `Server.HandleConnection`, one connection on the server side.
  - The environment's answers form an `Env`.
  - `Plan(env)` is the seven protocol steps and `Executed(env)` the ones that run.
  - `Outcome(env)` is the error returned. `Trace(env)` adds the wait-group and close
    bookkeeping.
  - The class records a ghost event log, and its methods are proved to produce exactly
    `Trace(env)` and the writes in `Written(Executed(env))`.
- `Client`: `QuoteClient.GetQuote`, one attempt, specified by `Client.Attempt`, and
  `QuoteClient.Start`, the loop of up to `count` attempts. Context cancellation is the
  poll index from which `ctx.Err()` reports an error.
- `QuoteFile`: `QuoteRepo.NewQuote` scans the corpus the way `bufio.ScanLines` does,
  trims each line as `strings.TrimSpace` does (Go's `unicode.IsSpace` set), and keeps the
  non-blank lines in order. `QuoteRepo.GetQuote` reads one of them at an index.
- `ZapLevels`: the table from level names to zap levels, its debug default, and the
  logger constructor.

Randomness, clocks and the network are parameters. The index `rand.Intn` draws becomes
an argument of `GetQuote`. The challenges the verifier mints are a function of how many
it has issued. Each read, write and dial outcome comes from a script.

## Model

| member | source | states |
|---|---|---|
| Handler.Server.HandleConnection | internal/server/handler.go:29-73 | The error returned is the one of the first failing step, or nil. The event log grows by exactly the counter increment, the steps taken, the close and the counter decrement. The payloads written are those the steps wrote. The connection is closed once more than before, and the wait-group counter ends where it started. The verifier issued one challenge iff the request was read, and the quote provider was asked once iff `Verify` accepted. |
| Handler.Server.Exchange | internal/server/handler.go:40-72 | For every environment: the error of the first failing step, the steps taken in order, and the payloads written. The connection is not closed and the counter is unchanged. One challenge is issued iff the request was read, and one quote is fetched iff `Verify` accepted. |
| Handler.Plan | internal/server/handler.go:40-72 | The seven protocol steps in the order the handler takes them, each with the environment's answer. |
| Handler.Executed | internal/server/handler.go:40-72 | The steps that run, by the six early returns. `ExecutedIsRun` proves they are the plan cut after its first failing step. |
| Handler.Outcome | internal/server/handler.go:42-72 | The error of the last step taken, or nil. The partner lemmas are `StepsInOrder` and `NilIffTwoWrites`. |
| Handler.Trace | internal/server/handler.go:30-38 | One call's full record: `wg.Add(1)` first, then the protocol steps taken, then the deferred close and `wg.Done()`. `CleanupOnEveryPath` proves the bookkeeping appears once each, in that order. |
| Handler.CallsMatchSteps | internal/server/handler.go:46-63 | A challenge is issued iff the request was read, and a quote is fetched iff `Verify` accepted the solution. |
| Handler.ExecutedIsRun | internal/server/handler.go:40-72 | The steps the handler takes are its fixed seven-step plan, cut just after the first failing step, or all seven when none fails. |
| Handler.StepsInOrder | internal/server/handler.go:40-72 | Every step taken sits at its own place in the fixed order. No step before the last failed. The result is an error iff the last step taken failed, and nil iff all seven ran without failure. |
| Handler.NoRequest | internal/server/handler.go:41-43 | When the request cannot be read, that is the only step, nothing is written, and the read error is returned. |
| Handler.ChallengeUnsent | internal/server/handler.go:45-49 | A challenge is issued. When it cannot be written, nothing is written and the send-challenge error is returned. |
| Handler.NoSolution | internal/server/handler.go:51-55 | When the solution cannot be read, only the challenge was written and the receive-proof error is returned. |
| Handler.Rejected | internal/server/handler.go:57-60 | A rejected solution stops the exchange before any quote is fetched, with the invalid-verify error. |
| Handler.NoQuote | internal/server/handler.go:62-66 | A failing quote provider stops the exchange with the get-quote error, and only the challenge was written. |
| Handler.QuoteAnswered | internal/server/handler.go:62-72 | An accepted solution and a fetched quote: the UTF-8 bytes of the quote are written. The result is nil iff that write succeeds, otherwise the send-quote error. |
| Handler.ExchangeCases | internal/server/handler.go:40-72 | All six exits together: the steps, the error and the writes for each way the environment can answer. |
| Handler.VerifyGetsSentChallenge | internal/server/handler.go:46-58 | `Verify` runs only as the fifth step. It is given exactly the challenge that was written, the only payload written before it, and the payload of the solution frame just read. |
| Handler.WrittenBeforeVerify | internal/server/handler.go:40-55 | Of the four steps before `Verify`, only the challenge write puts anything on the wire. |
| Handler.QuoteOnlyAfterAcceptance | internal/server/handler.go:57-70 | A quote is fetched or written only after step five, and only when `Verify` accepted the solution. |
| Handler.RequestContentIgnored | internal/server/handler.go:41 | Any other request payload leads to the same later steps, the same writes and the same result. |
| Handler.NilIffTwoWrites | internal/server/handler.go:47-72 | The handler returns nil iff it wrote two messages, and these are the challenge and then the quote's bytes. On failure at most the challenge was written. |
| Handler.CleanupOnEveryPath | internal/server/handler.go:30-38 | On every path the trace starts with the counter increment and ends with the close and then the decrement. Each of the three occurs exactly once. |
| Handler.OnlyProtocolSteps | internal/server/handler.go:40-72 | The steps taken between the bookkeeping events are all protocol steps. |
| Handler.QuoteSource.GetQuote | internal/server/handler.go:63 | The provider's answer is the one scripted for this call, and the call counter advances by one. |
| Pow.Verifier.Challenge | internal/server/handler.go:46 | The challenge is the next one the verifier mints, and its issue counter advances by one. |
| Pow.Verifier.Verify | internal/server/handler.go:58 | The verdict on a (challenge, solution) pair is the verifier's fixed acceptance relation. `Verify` returning nil is `true`. |
| Wire.Conn.ReadMessage | internal/server/handler.go:41 | A framed read yields the next scripted outcome and consumes it when it is a frame. A closed connection or an exhausted script fails. Nothing is written. |
| Wire.Conn.WriteMessage | internal/server/handler.go:47 | A framed write succeeds iff the next scripted acknowledgement does on an open connection. Only then is the payload appended to what was delivered. |
| Wire.Conn.Close | internal/server/handler.go:33 | The connection is closed, its close count goes up by one, and nothing else changes. |
| Wire.Dialer.Dial | internal/client/client.go:67-70 | Dialing consumes one scripted outcome. It returns no connection iff that outcome is a refusal, otherwise a fresh open connection with the scripted reads and writes. |
| Wire.EncodeRune | internal/server/handler.go:68 | A character takes one to four bytes. It takes one byte iff it is below 0x80, and that byte is its code point. |
| Wire.EncodeUtf8 | internal/server/handler.go:68 | A string of n characters encodes to between n and 4n bytes. |
| Wire.EncodeAscii | internal/client/client.go:79 | An ASCII string encodes to one byte per character, equal to its code point. |
| Client.ChallengeRequestIsUtf8 | internal/client/client.go:79 | The request constant is exactly `[]byte("challenge")`. |
| Client.QuoteClient.GetQuote | internal/client/client.go:64-102 | The result is `Attempt` of the environment the next dial meets, and the dial script advances by one. The event log grows by exactly the attempt's trace: the dial, the steps after it, and a close iff the dial succeeded. A refused dial opens no connection. Otherwise a fresh connection gets exactly the payloads the steps wrote and is closed once. |
| Client.QuoteClient.Exchange | internal/client/client.go:78-101 | After the dial: the result of the first failing step, or the second frame read. The event log grows by the steps after the dial. The connection gets exactly the payloads the steps wrote and is left open. |
| Client.Plan | internal/client/client.go:64-102 | The six steps of an attempt in the order `GetQuote` takes them, each with the environment's answer. |
| Client.Executed | internal/client/client.go:64-102 | The steps an attempt takes, by its five early returns. `ExecutedIsRun` proves they are the plan cut after its first failing step. |
| Client.Attempt | internal/client/client.go:64-102 | What `GetQuote` returns: the error of the first failing step, or the quote frame's payload. The partner lemma is `ResultOfLastStep`. |
| Client.Trace | internal/client/client.go:67-76 | One attempt's full record: its steps, then the deferred close exactly when the dial opened a connection. `ClosedOnceIfDialed` is its partner lemma. |
| Client.Attempts | internal/client/client.go:47-50 | The number of attempts `Start` makes, in closed form: none for `count <= 0`, otherwise `count` or the number of polls before the cancellation point, whichever is smaller. `QuoteClient.Start` is proved to make exactly this many. |
| Client.StartErr | internal/client/client.go:48-60 | What `Start` returns: the context's error when it stopped before `count` attempts, otherwise nil. |
| Client.ExecutedIsRun | internal/client/client.go:64-102 | An attempt takes its fixed six-step plan, cut just after the first failing step, or all six when none fails. |
| Client.ResultOfLastStep | internal/client/client.go:64-102 | The attempt fails iff its last step failed, with that step's error, and no earlier step failed. It succeeds iff all six steps ran, and then the result is the payload of the quote frame. |
| Client.NotDialed | internal/client/client.go:67-70 | A refused dial is the only step, and nothing is written. |
| Client.RequestUnsent | internal/client/client.go:78-81 | When the request cannot be written, nothing is written and the send-request error is returned. |
| Client.NoChallenge | internal/client/client.go:83-87 | When no challenge frame comes back, only the request was written and the receive-challenge error is returned. |
| Client.SolutionUnsent | internal/client/client.go:89-93 | When the solution cannot be written, only the request was written and the send-solution error is returned. |
| Client.QuoteRead | internal/client/client.go:95-101 | With both messages out, the result is the quote frame's payload, or the receive-quote error. |
| Client.MessagesWritten | internal/client/client.go:79-91 | At most two messages are written. The first is always the challenge request. The second, if any, is the solver applied to the challenge frame received. A successful attempt wrote both. |
| Client.SolutionSolvesReceivedChallenge | internal/client/client.go:84-91 | The solution sent is the solver applied to exactly the challenge bytes received in the step before. |
| Client.ClosedOnceIfDialed | internal/client/client.go:67-76 | A refused dial closes nothing. Otherwise the connection is closed exactly once, as the last event. |
| Client.Context.Err | internal/client/client.go:48-49 | `ctx.Err()` answers the cancellation cause once its poll index reaches the cancellation point, and nil before. |
| Client.Context.ErrStaysSet | internal/client/client.go:48-49 | Once an `Err` call reports the cancellation, every later call reports the same cause. So the two calls at lines 48 and 49 agree. |
| Client.QuoteClient.Start | internal/client/client.go:46-61 | The loop makes exactly `Attempts` attempts and logs each result, an error or a quote, in order. It consumes one dial per attempt and returns the context's error iff it stopped early, otherwise nil. It polls `ctx.Err()` once per attempt, plus twice more when it stops early. The event record grows by each attempt's `Trace`, in order (`Traces`). |
| Client.TracesCloseEachConnection | internal/client/client.go:47-76 | Over any number of attempts, the closes recorded equal the dials that opened a connection: every opened connection is closed once. |
| Client.Results | internal/client/client.go:52-57 | The i-th logged result is the result of the attempt against the i-th dial outcome. |
| Client.AttemptsAtMostCount | internal/client/client.go:47 | At most `count` attempts are made, and none when `count <= 0`. |
| Client.AttemptsStopAtCancellation | internal/client/client.go:47-50 | Every attempt starts while the context is not cancelled. Stopping before `count` attempts means the context was seen cancelled, and exactly then `Start` returns the context's error. |
| Client.NeverCancelledRunsAll | internal/client/client.go:46-61 | A context that is never cancelled lets all `count` attempts run, whatever they return, and `Start` returns nil. |
| Client.AttemptsStep | internal/client/client.go:47-52 | One loop iteration: a cancellation seen now ends the loop here, otherwise the attempt counts toward `Attempts`. |
| Client.After | internal/client/client.go:67 | After n dials, the remaining script is the original shifted by n. |
| Steps.Run | internal/server/handler.go:40-72 | The steps run are a prefix of the plan, no step before the last failed, and a plan cut short ends at a failing step. |
| QuoteFile.IsSpace | internal/repository/file/quote.go:25 | Go's `unicode.IsSpace`: the six Latin-1 space characters plus U+0085 and U+00A0, then the Unicode White_Space characters above Latin-1. |
| QuoteFile.TrimLeft | internal/repository/file/quote.go:25 | Dropping leading white space gives a suffix that does not start with white space. |
| QuoteFile.TrimRight | internal/repository/file/quote.go:25 | Dropping trailing white space gives a prefix that does not end with white space. |
| QuoteFile.TrimLeftDropsSpace | internal/repository/file/quote.go:25 | Everything `TrimLeft` drops is white space. |
| QuoteFile.TrimRightDropsSpace | internal/repository/file/quote.go:25 | Everything `TrimRight` drops is white space. |
| QuoteFile.TrimSpace | internal/repository/file/quote.go:25 | The trimmed line has white space at neither end. |
| QuoteFile.TrimSpaceIsInfix | internal/repository/file/quote.go:25 | The trimmed line is a contiguous piece of the line with only white space before and after it. |
| QuoteFile.TrimSpaceEmpty | internal/repository/file/quote.go:25 | A line trims to the empty string iff it is all white space. |
| QuoteFile.TrimSpaceIdempotent | internal/repository/file/quote.go:25 | Trimming twice is trimming once. |
| QuoteFile.IndexOfNewline | internal/repository/file/quote.go:24 | The index found holds the first line feed, and none is found only when there is no line feed. |
| QuoteFile.DropCR | internal/repository/file/quote.go:24 | A trailing carriage return is removed, exactly one. A line without one is unchanged. |
| QuoteFile.NextLine | internal/repository/file/quote.go:24 | One scan: with a line feed in the input, the token is the text before the first one minus a trailing carriage return, and the rest starts right after it. Without one, the token is the whole input minus a trailing carriage return, and nothing remains. |
| QuoteFile.SplitLines | internal/repository/file/quote.go:22-24 | There are no more lines than characters. |
| QuoteFile.SplitLinesCover | internal/repository/file/quote.go:22-24 | For any text, CRLF line ends and a last line without a line feed included: the text is its raw pieces joined by line feeds, or that followed by a non-empty last piece without one. So the number of lines is fixed: a text ending in a line feed has no extra empty line. Each line yielded is its piece minus one trailing carriage return. |
| QuoteFile.SplitJoin | internal/repository/file/quote.go:22-24 | Scanning the text made of plain lines, each ending in a line feed, gives back those lines. |
| QuoteFile.Quotes | internal/repository/file/quote.go:24-28 | There are no more quotes than lines. |
| QuoteFile.QuotesAreTrimmed | internal/repository/file/quote.go:25-26 | Every kept quote is non-empty and has white space at neither end. |
| QuoteFile.QuotesAppend | internal/repository/file/quote.go:24-28 | The quotes of consecutive pieces come out consecutively, in order. |
| QuoteFile.QuotesOfLine | internal/repository/file/quote.go:25-26 | A blank line yields nothing, and any other line yields its trimmed text. |
| QuoteFile.ScanStep | internal/repository/file/quote.go:24-27 | One scan contributes the first line's quote, if any, ahead of those of the rest. |
| QuoteFile.ScanInvariant | internal/repository/file/quote.go:24-28 | The scanning loop keeps its invariant: the kept quotes, then those of the unscanned input, are the quotes of the whole text. |
| QuoteFile.QuoteRepo.NewQuote | internal/repository/file/quote.go:18-31 | The stored quotes are exactly the trimmed non-blank lines of the corpus, in order, and every one is non-empty and trimmed. |
| QuoteFile.QuoteRepo.GetQuote | internal/repository/file/quote.go:33-35 | For an index in range, the quote at that index, which is non-empty and trimmed, with a nil error. |
| ZapLevels.GetLoggerLevel | pkg/logger/zap/zap.go:34-41 | The level whose name is the string, or the debug level when no level has that name. It is defined on every string. |
| ZapLevels.TableIsNames | pkg/logger/zap/zap.go:19-27 | The keys of `loggerLevelMap` (`LoggerLevelMap`) are exactly the seven level names, each mapped to the level it names. |
| ZapLevels.NamesSelectTheirLevel | pkg/logger/zap/zap.go:19-41 | Every level's own name selects that level. |
| ZapLevels.TableInjective | pkg/logger/zap/zap.go:19-27 | Distinct names in the table map to distinct levels. |
| ZapLevels.OtherSpellingsMeanDebug | pkg/logger/zap/zap.go:34-41 | Names match exactly. Upper case, mixed case, the empty string and a leading space all fall back to debug. |
| ZapLevels.ZapLogger.NewZapLogger | pkg/logger/zap/zap.go:30-32 | The configuration is stored as given and the underlying logger is not built yet. |
| ZapLevels.ZapLogger.ConfiguredLevel | pkg/logger/zap/zap.go:44-45 | The level the logger will use is the level the configured name names, or debug exactly when it names no level. |

## Left out

- The length-prefixed framing (`utils.ReadMessage` and `utils.WriteMessage`) is not part of this model. A framed read is one scripted outcome: a whole frame, or a failure standing for end of stream, timeout or an oversized frame.
- Sockets, connection deadlines and `SetDeadline` are not modelled. A timeout is one of the scripted read or write failures.
- The hashcash algorithm and its challenge encoding are not part of this model. `Pow.Verifier.Verify` is a given verdict on (challenge, solution), and the client's solver is a given function.
- Verification depends on the clock, through the challenge's freshness window. The verdict `accepts` is a constant of the verifier, fixed for its whole lifetime. Expiry, whether within one exchange or between exchanges, is not captured.
- The challenge's time stamp and random seed stand behind the given minting function `mint(n)`.
- `Server.handleConnections`, the rest of `internal/server/server.go` and the admission queue are not modelled. Handlers run concurrently there; here one handler runs at a time, and the wait-group counter is a plain integer.
- Panics inside the handler are not modelled. The deferred close and `wg.Done` are proved for every return path.
- The logger calls on close errors and handler errors are not modelled. Close never fails in the model.
- `Client.Start` logs each result. The model records the result (error or quote), not the log line's text.
- `Client.QuoteClient.Start` calls `ctx.Err()` a second time to build its return value, as the source does. Both calls see the same cancellation, since cancellation is permanent.
- `Client.QuoteClient.Start`: `count` is an unbounded integer rather than Go's `int`. The loop never reaches the 64-bit bound.
- `GetQuote` does not pass its context to the dial in this model. Cancellation is seen only by the loop's `ctx.Err()` check, and a dial the context interrupts is a refused dial.
- `QuoteFile.QuoteRepo.NewQuote` takes the corpus text as a parameter. The embedded `quotes.txt` is not part of this model.
- `QuoteFile.QuoteRepo.NewQuote` does not model the 64 KiB token limit of `bufio.Scanner`. A longer line stops the scan in Go, and the source never checks `s.Err()` afterwards.
- The corpus is a string of characters, so invalid UTF-8 is not modelled. `strings.TrimSpace` treats invalid bytes as non-space.
- `QuoteFile.QuoteRepo.GetQuote` requires a non-empty corpus and an index in range. `rand.Intn` draws the index, which is a parameter here, and it panics on an empty corpus.
- `ZapLogger.InitLogger` and the logging wrappers (`Debug`, `Info`, `Error`, ...) are not modelled, because they build and call the zap library. `ZapLevels.ZapLogger.ConfiguredLevel` gives only the level that `InitLogger` selects.
- Configuration loading (`config/config.go`), the programs under `cmd/` and the repository interface are not modelled. Only `LoggerConfig` is kept, as a value.
