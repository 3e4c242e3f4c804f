/**
 * The stream connection as the protocol code sees it.  The length-prefixed framing
 * (`utils.ReadMessage` / `utils.WriteMessage`) and the sockets themselves are not part
 * of this model: a connection is a script of what its successive framed reads and
 * writes will yield, and a log of what was delivered.
 */
module Wire {

  /** An octet, as Go's `byte`. */
  newtype byte = x: int | 0 <= x < 0x100

  type Bytes = seq<byte>

  /** What one framed read yields: a whole frame, or an error (end of stream, timeout,
      oversized frame, ...).  A partial frame is never delivered. */
  datatype ReadOutcome = Frame(payload: Bytes) | ReadFailed

  /** The payload of a frame, or the empty message when the read failed. */
  function PayloadOf(r: ReadOutcome): Bytes
  {
    if r.Frame? then r.payload else []
  }

  /** Outcome of the k-th read of a script; past its end the peer has hung up. */
  function ReadAt(incoming: seq<ReadOutcome>, k: nat): ReadOutcome
  {
    if k < |incoming| then incoming[k] else ReadFailed
  }

  /** Outcome of the k-th write of a script; past its end writes fail. */
  function AckAt(acks: seq<bool>, k: nat): bool
  {
    k < |acks| && acks[k]
  }

  /** One established connection (Go's `net.Conn` together with the framing codec). */
  class Conn {
    var incoming: seq<ReadOutcome>  // what the next framed reads yield, in order
    var acks: seq<bool>             // whether the next framed writes succeed, in order
    var sent: seq<Bytes>            // payloads of the writes that succeeded, in order
    var closed: bool
    var closes: nat                 // how many times Close was called

    constructor (incoming: seq<ReadOutcome>, acks: seq<bool>)
      ensures this.incoming == incoming && this.acks == acks
      ensures sent == [] && !closed && closes == 0
    {
      this.incoming := incoming;
      this.acks := acks;
      sent := [];
      closed := false;
      closes := 0;
    }

    /** What the k-th read from now yields, provided the reads before it delivered frames. */
    function NextRead(k: nat): ReadOutcome
      reads this
    {
      if closed then ReadFailed else ReadAt(incoming, k)
    }

    /** Whether the k-th write from now succeeds, provided the writes before it did. */
    function NextAck(k: nat): bool
      reads this
    {
      !closed && AckAt(acks, k)
    }

    /** `utils.ReadMessage(conn)`: one whole frame or an error. */
    method ReadMessage() returns (r: ReadOutcome)
      modifies this
      ensures r == old(NextRead(0))
      ensures r.Frame? ==> incoming == old(incoming[1..])
      ensures r.ReadFailed? ==> incoming == old(incoming)
      ensures acks == old(acks) && sent == old(sent)
      ensures closed == old(closed) && closes == old(closes)
    {
      if closed || incoming == [] {
        r := ReadFailed;
      } else {
        r := incoming[0];
        if r.Frame? {
          incoming := incoming[1..];
        }
      }
    }

    /** `utils.WriteMessage(conn, payload)`: delivers the whole frame or fails. */
    method WriteMessage(payload: Bytes) returns (ok: bool)
      modifies this
      ensures ok == old(NextAck(0))
      ensures sent == if ok then old(sent) + [payload] else old(sent)
      ensures ok ==> acks == old(acks[1..])
      ensures !ok ==> acks == old(acks)
      ensures incoming == old(incoming)
      ensures closed == old(closed) && closes == old(closes)
    {
      ok := !closed && acks != [] && acks[0];
      if ok {
        sent := sent + [payload];
        acks := acks[1..];
      }
    }

    /** `conn.Close()`; the connection refuses all I/O afterwards. */
    method Close()
      modifies this
      ensures closed && closes == old(closes) + 1
      ensures incoming == old(incoming) && acks == old(acks) && sent == old(sent)
    {
      closed := true;
      closes := closes + 1;
    }
  }

  /** How one dial ends: refused, or a connection that will behave as scripted. */
  datatype Session = Refused | Accepted(incoming: seq<ReadOutcome>, acks: seq<bool>)

  /** The network as seen by `net.Dialer.DialContext`: the outcomes of successive dials;
      once the script is used up, dials are refused. */
  class Dialer {
    var sessions: seq<Session>

    constructor (sessions: seq<Session>)
      ensures this.sessions == sessions
    {
      this.sessions := sessions;
    }

    /** The outcome of the next dial. */
    function Next(): Session
      reads this
    {
      SessionAt(sessions, 0)
    }

    method Dial() returns (c: Conn?)
      modifies this
      ensures sessions == Rest(old(sessions))
      ensures c == null <==> old(Next()).Refused?
      ensures c != null ==> fresh(c) && c.incoming == old(Next()).incoming && c.acks == old(Next()).acks
      ensures c != null ==> c.sent == [] && !c.closed && c.closes == 0
    {
      var s := Next();
      sessions := Rest(sessions);
      if s.Refused? {
        c := null;
      } else {
        c := new Conn(s.incoming, s.acks);
      }
    }
  }

  /** The k-th dial outcome of a script. */
  function SessionAt(sessions: seq<Session>, k: nat): Session
  {
    if k < |sessions| then sessions[k] else Refused
  }

  /** The script left after one dial. */
  function Rest(sessions: seq<Session>): (rest: seq<Session>)
    ensures forall k: nat :: SessionAt(rest, k) == SessionAt(sessions, k + 1)
  {
    if sessions == [] then [] else sessions[1..]
  }

  /** A UTF-8 continuation byte carrying the low six bits of `n`. */
  function Continuation(n: nat): (b: byte)
    ensures 0x80 <= b as int < 0xC0
  {
    (0x80 + n % 0x40) as byte
  }

  /** UTF-8 encoding of one Unicode scalar value (Go's `[]byte(string)` per rune). */
  function EncodeRune(c: char): (b: Bytes)
    ensures 1 <= |b| <= 4
    ensures (c as int < 0x80) <==> |b| == 1
    ensures |b| == 1 ==> b[0] as int == c as int
  {
    var n := c as int;
    if n < 0x80 then [n as byte]
    else if n < 0x800 then [(0xC0 + n / 0x40) as byte, Continuation(n)]
    else if n < 0x1_0000 then [(0xE0 + n / 0x1000) as byte, Continuation(n / 0x40), Continuation(n)]
    else [(0xF0 + n / 0x4_0000) as byte, Continuation(n / 0x1000), Continuation(n / 0x40), Continuation(n)]
  }

  /** UTF-8 encoding of a string: the bytes `[]byte(s)` holds. */
  function EncodeUtf8(s: string): (b: Bytes)
    ensures |s| <= |b| <= 4 * |s|
  {
    if s == [] then [] else EncodeRune(s[0]) + EncodeUtf8(s[1..])
  }

  /** A string of ASCII characters encodes to one byte per character, equal to its
      code point. */
  lemma {:induction false} EncodeAscii(s: string)
    requires forall i :: 0 <= i < |s| ==> s[i] as int < 0x80
    ensures |EncodeUtf8(s)| == |s|
    ensures forall i :: 0 <= i < |s| ==> EncodeUtf8(s)[i] as int == s[i] as int
  {
    if s != [] {
      EncodeAscii(s[1..]);
      assert EncodeUtf8(s) == EncodeRune(s[0]) + EncodeUtf8(s[1..]);
    }
  }
}
