/** The radio service's serial transport: the `read` and `write` callbacks it hands to the
    communications engine. One serial port is shared, behind a lock, by the reader thread and
    any number of writers. A message has no delimiter on the wire: `read` takes chunks of at
    most MAX_READ bytes and ends the message at the first short chunk, or at a read timeout
    once some bytes are buffered.

    The port is a script of replies to successive read attempts plus a log of the bytes it
    accepted. The lock is a ghost trace of Acquire, Release and Sleep entries. */
module RadioService {

  import opened Wrappers

  /** Largest number of bytes a single read asks for. */
  const MAX_READ: nat := 48
  /** Read timeout configured on the port, in milliseconds (not otherwise modelled). */
  const TIMEOUT_MS: nat := 100
  /** Back-off between read attempts that found nothing, in milliseconds (not otherwise modelled). */
  const BACKOFF_MS: nat := 10

  /** The I/O error kinds the transport distinguishes; only TimedOut gets special treatment. */
  datatype ErrorKind = TimedOut | Interrupted | WouldBlock | BrokenPipe | OtherKind

  /** What the port does for one read attempt: `Chunk(data)` is `Ok(num)` with `data` the first
      `num` bytes of the buffer; `Failed(kind)` is an `Err` of that kind. */
  datatype ReadEvent = Chunk(data: seq<bv8>) | Failed(kind: ErrorKind)

  /** What the port reports for one write: `Wrote(count)` is `Ok(count)`. */
  datatype WriteReply = Wrote(count: nat) | WriteError(kind: ErrorKind)

  /** The value `read` returns. `Exhausted` is the model's own: the script of port replies ran
      out before a message was complete (a real port never runs out). */
  datatype ReadResult = Received(message: seq<bv8>) | ReadFailed(kind: ErrorKind) | Exhausted

  datatype WriteResult = Written | WriteFailed(kind: ErrorKind)

  datatype LockEvent = Acquire | Release | Sleep

  /** The port never returns more bytes than the buffer it was given holds. */
  predicate WellFormed(script: seq<ReadEvent>) {
    forall i :: 0 <= i < |script| ==> script[i].Chunk? ==> |script[i].data| <= MAX_READ
  }

  predicate IsFullChunk(e: ReadEvent) {
    e.Chunk? && |e.data| == MAX_READ
  }

  /** A read event after which `read` returns the message `m` it has assembled. */
  predicate EndsMessage(e: ReadEvent, m: seq<bv8>) {
    (e.Chunk? && |e.data| < MAX_READ) || (e == Failed(TimedOut) && m != [])
  }

  /** The bytes carried by the chunks of a run of read events, in order. */
  function Payload(evs: seq<ReadEvent>): seq<bv8> {
    if evs == [] then []
    else (if evs[0].Chunk? then evs[0].data else []) + Payload(evs[1..])
  }

  // ---------------------------------------------------------------------------
  // Lock discipline

  /** Replays a lock trace from a free lock: Some(held) after it, or None once an entry breaks
      the discipline (acquiring a held lock, releasing a free one, sleeping while holding it). */
  function LockState(log: seq<LockEvent>): Option<bool> {
    if log == [] then Some(false)
    else
      match LockState(log[..|log| - 1])
      case None => None
      case Some(held) =>
        match log[|log| - 1]
        case Acquire => if held then None else Some(true)
        case Release => if held then Some(false) else None
        case Sleep => if held then None else Some(false)
  }

  /** Every entry is legal and the lock is free at the end. */
  predicate Disciplined(log: seq<LockEvent>) {
    LockState(log) == Some(false)
  }

  /** After a trace that leaves the lock free, a further trace replays as if from the start. */
  lemma {:induction false} LockStateAppend(a: seq<LockEvent>, b: seq<LockEvent>)
    requires Disciplined(a)
    ensures LockState(a + b) == LockState(b)
  {
    if b == [] {
      assert a + b == a;
    } else {
      var b' := b[..|b| - 1];
      assert (a + b)[..|a + b| - 1] == a + b';
      assert (a + b)[|a + b| - 1] == b[|b| - 1];
      LockStateAppend(a, b');
    }
  }

  lemma DisciplinedAppend(a: seq<LockEvent>, b: seq<LockEvent>)
    requires Disciplined(a) && Disciplined(b)
    ensures Disciplined(a + b)
  {
    LockStateAppend(a, b);
  }

  lemma RoundsDisciplined()
    ensures Disciplined([Acquire, Release])
    ensures Disciplined([Acquire, Release, Sleep])
  {
    assert [Acquire, Release, Sleep][..2] == [Acquire, Release];
    assert [Acquire, Release][..1] == [Acquire];
    assert [Acquire][..0] == [];
  }

  /** `j` rounds of acquire, nothing to read, release, back off. */
  function Backoffs(j: nat): seq<LockEvent> {
    if j == 0 then [] else Backoffs(j - 1) + [Acquire, Release, Sleep]
  }

  lemma {:induction false} BackoffsDisciplined(j: nat)
    ensures Disciplined(Backoffs(j))
    ensures Disciplined(Backoffs(j) + [Acquire, Release])
  {
    RoundsDisciplined();
    if j > 0 {
      BackoffsDisciplined(j - 1);
      DisciplinedAppend(Backoffs(j - 1), [Acquire, Release, Sleep]);
      DisciplinedAppend(Backoffs(j), [Acquire, Release]);
    } else {
      assert Backoffs(j) + [Acquire, Release] == [Acquire, Release];
    }
  }

  // ---------------------------------------------------------------------------
  // Specification of `read`

  /** How one holding of the lock ends: `read` returns, or the lock is released to retry. */
  datatype AttemptEnd = Finished(result: ReadResult, rest: seq<ReadEvent>) | Retry(rest: seq<ReadEvent>)

  /** The inner loop of `read`: with the lock held and `packet` assembled so far, consume read
      events until the message ends, an error occurs, or a timeout finds nothing buffered. */
  function Attempt(evs: seq<ReadEvent>, packet: seq<bv8>): (r: AttemptEnd)
    ensures |r.rest| <= |evs|
    ensures evs != [] ==> |r.rest| < |evs|
    ensures r.Retry? ==> evs != [] && packet == [] && evs[0] == Failed(TimedOut) && r.rest == evs[1..]
    decreases |evs|
  {
    if evs == [] then Finished(Exhausted, [])
    else
      match evs[0]
      case Chunk(data) =>
        if |data| < MAX_READ then Finished(Received(packet + data), evs[1..])
        else Attempt(evs[1..], packet + data)
      case Failed(kind) =>
        if kind == TimedOut then
          if |packet| > 0 then Finished(Received(packet), evs[1..]) else Retry(evs[1..])
        else Finished(ReadFailed(kind), evs[1..])
  }

  /** What one call of `read` does: its result, the read events it left unconsumed and the lock
      trace it produced. */
  datatype ReadOutcome = ReadOutcome(result: ReadResult, rest: seq<ReadEvent>, log: seq<LockEvent>)

  function Prefixed(log: seq<LockEvent>, o: ReadOutcome): ReadOutcome {
    ReadOutcome(o.result, o.rest, log + o.log)
  }

  /** The outer loop of `read`: take the lock, run one attempt, and if it found nothing release
      the lock, sleep and go round again. The packet starts empty on every holding. */
  function ReadSpec(evs: seq<ReadEvent>): ReadOutcome
    decreases |evs|
  {
    match Attempt(evs, [])
    case Finished(r, rest) => ReadOutcome(r, rest, [Acquire, Release])
    case Retry(rest) => Prefixed([Acquire, Release, Sleep], ReadSpec(rest))
  }

  lemma ReadSpecFinished(evs: seq<ReadEvent>, r: ReadResult, rest: seq<ReadEvent>)
    requires Attempt(evs, []) == Finished(r, rest)
    ensures ReadSpec(evs) == ReadOutcome(r, rest, [Acquire, Release])
  {
  }

  lemma ReadSpecRetry(evs: seq<ReadEvent>, rest: seq<ReadEvent>)
    requires Attempt(evs, []) == Retry(rest)
    ensures ReadSpec(evs) == Prefixed([Acquire, Release, Sleep], ReadSpec(rest))
  {
  }

  /** One more round of backing off keeps the outer loop's accounting. */
  lemma RetryStep(whole: seq<ReadEvent>, start: seq<ReadEvent>, rest: seq<ReadEvent>, rounds: nat)
    requires ReadSpec(whole) == Prefixed(Backoffs(rounds), ReadSpec(start))
    requires Attempt(start, []) == Retry(rest)
    ensures ReadSpec(whole) == Prefixed(Backoffs(rounds + 1), ReadSpec(rest))
  {
    ReadSpecRetry(start, rest);
    var o := ReadSpec(rest);
    assert Backoffs(rounds) + ([Acquire, Release, Sleep] + o.log)
      == Backoffs(rounds + 1) + o.log;
  }

  /** The holding that ends `read` completes the outer loop's accounting. */
  lemma FinishStep(t0: seq<LockEvent>, whole: seq<ReadEvent>, start: seq<ReadEvent>, r: ReadResult,
                   rest: seq<ReadEvent>, rounds: nat)
    requires Disciplined(t0)
    requires ReadSpec(whole) == Prefixed(Backoffs(rounds), ReadSpec(start))
    requires Attempt(start, []) == Finished(r, rest)
    ensures r == ReadSpec(whole).result && rest == ReadSpec(whole).rest
    ensures t0 + Backoffs(rounds) + [Acquire, Release] == t0 + ReadSpec(whole).log
    ensures Disciplined(t0 + Backoffs(rounds) + [Acquire, Release])
  {
    ReadSpecFinished(start, r, rest);
    BackoffsDisciplined(rounds);
    DisciplinedAppend(t0, Backoffs(rounds) + [Acquire, Release]);
    assert t0 + Backoffs(rounds) + [Acquire, Release] == t0 + (Backoffs(rounds) + [Acquire, Release]);
  }

  lemma TraceStep(t0: seq<LockEvent>, rounds: nat)
    ensures t0 + Backoffs(rounds) + [Acquire, Release] + [Sleep] == t0 + Backoffs(rounds + 1)
  {
    assert Backoffs(rounds + 1) == Backoffs(rounds) + [Acquire, Release, Sleep];
  }

  // ---------------------------------------------------------------------------
  // The shared port

  class Channel {
    /** The port's replies to the read attempts still to come. */
    var script: seq<ReadEvent>
    /** Every byte the port has accepted from writes, in order. */
    var written: seq<bv8>
    /** Lock operations so far. */
    ghost var trace: seq<LockEvent>

    ghost predicate Valid()
      reads this
    {
      WellFormed(script) && Disciplined(trace)
    }

    constructor (script: seq<ReadEvent>)
      requires WellFormed(script)
      ensures Valid()
      ensures this.script == script && written == [] && trace == []
    {
      this.script := script;
      written := [];
      trace := [];
    }

    /** `write`: take the lock, hand the whole message to the port in one call, release the
        lock. A port error is returned; the count the port reports is not looked at. */
    method Write(msg: seq<bv8>, reply: WriteReply) returns (r: WriteResult)
      requires Valid()
      requires reply.Wrote? ==> reply.count <= |msg|
      modifies this
      ensures Valid()
      ensures script == old(script)
      ensures trace == old(trace) + [Acquire, Release]
      ensures written == old(written) + Accepted(msg, reply)
      ensures r == (if reply.Wrote? then Written else WriteFailed(reply.kind))
    {
      trace := trace + [Acquire];
      match reply {
        case Wrote(count) =>
          written := written + msg[..count];
          r := Written;
        case WriteError(kind) =>
          r := WriteFailed(kind);
      }
      trace := trace + [Release];
      assert trace == old(trace) + [Acquire, Release];
      RoundsDisciplined();
      DisciplinedAppend(old(trace), [Acquire, Release]);
    }

    /** `read`: assemble one message from the port. */
    method Read() returns (r: ReadResult)
      requires Valid()
      modifies this
      ensures Valid()
      ensures written == old(written)
      ensures r == ReadSpec(old(script)).result
      ensures script == ReadSpec(old(script)).rest
      ensures trace == old(trace) + ReadSpec(old(script)).log
    {
      ghost var rounds: nat := 0;
      while true
        invariant WellFormed(script) && written == old(written)
        invariant trace == old(trace) + Backoffs(rounds)
        invariant ReadSpec(old(script)) == Prefixed(Backoffs(rounds), ReadSpec(script))
        decreases |script|
      {
        ghost var start := script;
        var finished;
        finished, r := HoldAndRead();
        if finished {
          FinishStep(old(trace), old(script), start, r, script, rounds);
          return;
        }
        RetryStep(old(script), start, script, rounds);
        // back off so that writers waiting for the port can take it
        trace := trace + [Sleep];
        TraceStep(old(trace), rounds);
        rounds := rounds + 1;
      }
    }

    /** The block of `read` that holds the port: the packet starts empty, chunks are appended
        until the message ends or fails; `finished` is false when a timeout found nothing. The
        guard releases the port whichever way the block is left. */
    method HoldAndRead() returns (finished: bool, r: ReadResult)
      requires WellFormed(script)
      modifies this
      ensures WellFormed(script) && written == old(written)
      ensures trace == old(trace) + [Acquire, Release]
      ensures Attempt(old(script), []) == if finished then Finished(r, script) else Retry(script)
    {
      trace := trace + [Acquire];
      var packet: seq<bv8> := [];
      finished := true;
      while true
        invariant WellFormed(script) && written == old(written)
        invariant packet == [] ==> script == old(script)
        invariant Attempt(old(script), []) == Attempt(script, packet)
        invariant trace == old(trace) + [Acquire]
        decreases |script|
      {
        if script == [] {
          r := Exhausted;
          break;
        }
        var ev := script[0];
        script := script[1..];
        if ev.Chunk? {
          packet := packet + ev.data;
          if |ev.data| < MAX_READ {
            r := Received(packet);
            break;
          }
        } else if ev.kind == TimedOut {
          if |packet| > 0 {
            r := Received(packet);
          } else {
            finished, r := false, Exhausted;
          }
          break;
        } else {
          r := ReadFailed(ev.kind);
          break;
        }
      }
      trace := trace + [Release];
    }
  }

  /** The bytes a write leaves on the wire: the prefix the port reports having taken. */
  function Accepted(msg: seq<bv8>, reply: WriteReply): seq<bv8>
    requires reply.Wrote? ==> reply.count <= |msg|
  {
    if reply.Wrote? then msg[..reply.count] else []
  }

  /** The bytes a run of write calls leaves on the wire, call by call. */
  function Wire(msgs: seq<seq<bv8>>, replies: seq<WriteReply>): seq<bv8>
    requires |msgs| == |replies|
    requires forall i :: 0 <= i < |msgs| ==> replies[i].Wrote? ==> replies[i].count <= |msgs[i]|
  {
    if msgs == [] then [] else Accepted(msgs[0], replies[0]) + Wire(msgs[1..], replies[1..])
  }

  function Concat(msgs: seq<seq<bv8>>): seq<bv8> {
    if msgs == [] then [] else msgs[0] + Concat(msgs[1..])
  }

  // ---------------------------------------------------------------------------
  // Properties of the transport

  /** Writes taken one after another under the lock, each accepted in full, leave exactly the
      messages on the wire, in call order and without interleaving. */
  lemma {:induction false} FullWritesConcatenate(msgs: seq<seq<bv8>>, replies: seq<WriteReply>)
    requires |msgs| == |replies|
    requires forall i :: 0 <= i < |msgs| ==> replies[i] == Wrote(|msgs[i]|)
    ensures Wire(msgs, replies) == Concat(msgs)
  {
    if msgs != [] {
      assert msgs[0][..|msgs[0]|] == msgs[0];
      FullWritesConcatenate(msgs[1..], replies[1..]);
    }
  }

  /** The messages of a run of writes that the port took in full, in call order. */
  function FullyWritten(msgs: seq<seq<bv8>>, replies: seq<WriteReply>): seq<seq<bv8>>
    requires |msgs| == |replies|
  {
    if msgs == [] then []
    else (if replies[0] == Wrote(|msgs[0]|) then [msgs[0]] else []) + FullyWritten(msgs[1..], replies[1..])
  }

  /** Writes the port either takes in full or rejects leave on the wire exactly the messages
      it took, in call order: a rejected write adds no bytes and splits no other message. */
  lemma {:induction false} MixedWritesConcatenate(msgs: seq<seq<bv8>>, replies: seq<WriteReply>)
    requires |msgs| == |replies|
    requires forall i :: 0 <= i < |msgs| ==> replies[i] == Wrote(|msgs[i]|) || replies[i].WriteError?
    ensures Wire(msgs, replies) == Concat(FullyWritten(msgs, replies))
  {
    if msgs != [] {
      assert msgs[0][..|msgs[0]|] == msgs[0];
      MixedWritesConcatenate(msgs[1..], replies[1..]);
      var tail := FullyWritten(msgs[1..], replies[1..]);
      if replies[0] == Wrote(|msgs[0]|) {
        assert ([msgs[0]] + tail)[1..] == tail;
      } else {
        assert [] + tail == tail;
      }
    }
  }

  function LeadingTimeouts(evs: seq<ReadEvent>): (j: nat)
    ensures j <= |evs|
    ensures forall i :: 0 <= i < j ==> evs[i] == Failed(TimedOut)
    ensures j < |evs| ==> evs[j] != Failed(TimedOut)
  {
    if evs != [] && evs[0] == Failed(TimedOut) then 1 + LeadingTimeouts(evs[1..]) else 0
  }

  lemma {:induction false} BackoffsCons(j: nat)
    requires j > 0
    ensures [Acquire, Release, Sleep] + Backoffs(j - 1) == Backoffs(j)
  {
    if j > 1 {
      BackoffsCons(j - 1);
    }
  }

  /** Shape of one `read`: every leading timeout costs one round of acquire, release and
      sleep; the read then ends inside the next holding of the lock, which starts with an empty
      packet and decides the result alone. So no message spans two holdings of the lock. */
  lemma {:induction false} ReadSpecShape(evs: seq<ReadEvent>)
    ensures var j := LeadingTimeouts(evs);
      && Attempt(evs[j..], []).Finished?
      && ReadSpec(evs) == ReadOutcome(Attempt(evs[j..], []).result, Attempt(evs[j..], []).rest,
                                     Backoffs(j) + [Acquire, Release])
  {
    var j := LeadingTimeouts(evs);
    if j == 0 {
      assert evs[j..] == evs;
    } else {
      assert Attempt(evs, []) == Retry(evs[1..]);
      ReadSpecShape(evs[1..]);
      assert evs[1..][j - 1..] == evs[j..];
      BackoffsCons(j);
    }
  }

  /** Every lock trace `read` produces keeps the discipline: the lock is never taken twice,
      never slept on, and is free again when `read` returns. */
  lemma ReadLogDisciplined(evs: seq<ReadEvent>)
    ensures Disciplined(ReadSpec(evs).log)
  {
    ReadSpecShape(evs);
    BackoffsDisciplined(LeadingTimeouts(evs));
  }

  /** `m` is what one holding of the lock returns from `evs` with `packet` assembled, leaving
      `rest`: the packet followed by the bytes of the chunks it consumed, in order, every chunk
      but the last full, and the last event a short chunk or a timeout with bytes buffered. */
  predicate ReceivedFrom(evs: seq<ReadEvent>, packet: seq<bv8>, m: seq<bv8>, rest: seq<ReadEvent>) {
    var n := |evs| - |rest|;
    && 0 < n && evs == evs[..n] + rest
    && m == packet + Payload(evs[..n])
    && (forall i :: 0 <= i < n - 1 ==> IsFullChunk(evs[i]))
    && EndsMessage(evs[n - 1], m)
  }

  /** A message that ends at the first event. */
  lemma ReceivedHere(evs: seq<ReadEvent>, packet: seq<bv8>, m: seq<bv8>)
    requires evs != [] && m == packet + Payload([evs[0]]) && EndsMessage(evs[0], m)
    ensures ReceivedFrom(evs, packet, m, evs[1..])
  {
    assert evs[..1] == [evs[0]];
  }

  /** A full chunk in front of a message is part of it. */
  lemma ReceivedCons(e: ReadEvent, tail: seq<ReadEvent>, packet: seq<bv8>, m: seq<bv8>, rest: seq<ReadEvent>)
    requires IsFullChunk(e) && ReceivedFrom(tail, packet + e.data, m, rest)
    ensures ReceivedFrom([e] + tail, packet, m, rest)
  {
    var evs := [e] + tail;
    var k := |tail| - |rest|;
    assert evs[..k + 1] == [e] + tail[..k];
    assert ([e] + tail[..k])[1..] == tail[..k];
    assert Payload([e] + tail[..k]) == e.data + Payload(tail[..k]);
    assert forall i :: 1 <= i < k ==> evs[i] == tail[i - 1];
    assert evs[k] == tail[k - 1];
  }

  /** A message returned from one holding of the lock is the packet it started with followed
      by the bytes of the chunks it consumed, in order: every chunk but the last was full, and
      the last event was a short chunk or a timeout with bytes buffered. */
  lemma {:induction false} AttemptReceived(evs: seq<ReadEvent>, packet: seq<bv8>, m: seq<bv8>, rest: seq<ReadEvent>)
    requires WellFormed(evs)
    requires Attempt(evs, packet) == Finished(Received(m), rest)
    ensures ReceivedFrom(evs, packet, m, rest)
  {
    match evs[0]
    case Chunk(data) =>
      if |data| < MAX_READ {
        assert Payload([evs[0]]) == data + Payload([]);
        ReceivedHere(evs, packet, m);
      } else {
        AttemptReceived(evs[1..], packet + data, m, rest);
        assert evs == [evs[0]] + evs[1..];
        ReceivedCons(evs[0], evs[1..], packet, m, rest);
      }
    case Failed(kind) =>
      assert Payload([evs[0]]) == [] + Payload([]);
      ReceivedHere(evs, packet, m);
  }

  /** The message one `read` returns is the bytes of the chunks consumed after the last
      back-off, in order; the events before them were all empty timeouts. */
  lemma ReadReceived(evs: seq<ReadEvent>, m: seq<bv8>)
    requires WellFormed(evs)
    requires ReadSpec(evs).result == Received(m)
    ensures var j := LeadingTimeouts(evs); var n := |evs| - |ReadSpec(evs).rest|;
      && j < n && evs == evs[..n] + ReadSpec(evs).rest
      && m == Payload(evs[j..n])
      && (forall i :: j <= i < n - 1 ==> IsFullChunk(evs[i]))
      && EndsMessage(evs[n - 1], m)
  {
    var j := LeadingTimeouts(evs);
    var o := ReadSpec(evs);
    ReadSpecShape(evs);
    assert Attempt(evs[j..], []) == Finished(Received(m), o.rest);
    ReceivedAfter(evs, j, m, o.rest);
  }

  /** AttemptReceived for a holding that starts at position `j` of `evs`. */
  lemma ReceivedAfter(evs: seq<ReadEvent>, j: nat, m: seq<bv8>, rest: seq<ReadEvent>)
    requires WellFormed(evs) && j <= |evs|
    requires Attempt(evs[j..], []) == Finished(Received(m), rest)
    ensures var n := |evs| - |rest|;
      && j < n && evs == evs[..n] + rest
      && m == Payload(evs[j..n])
      && (forall i :: j <= i < n - 1 ==> IsFullChunk(evs[i]))
      && EndsMessage(evs[n - 1], m)
  {
    WellFormedSuffix(evs, j);
    AttemptReceived(evs[j..], [], m, rest);
    ShiftReceived(evs, j, m, rest);
  }

  lemma WellFormedSuffix(evs: seq<ReadEvent>, j: nat)
    requires WellFormed(evs) && j <= |evs|
    ensures WellFormed(evs[j..])
  {
    var tail := evs[j..];
    forall i | 0 <= i < |tail| ensures tail[i] == evs[j + i] { }
  }

  /** A message read from the suffix of `evs` that starts at `j`, in terms of `evs`. */
  lemma ShiftReceived(evs: seq<ReadEvent>, j: nat, m: seq<bv8>, rest: seq<ReadEvent>)
    requires j <= |evs| && ReceivedFrom(evs[j..], [], m, rest)
    ensures var n := |evs| - |rest|;
      && j < n && evs == evs[..n] + rest
      && m == Payload(evs[j..n])
      && (forall i :: j <= i < n - 1 ==> IsFullChunk(evs[i]))
      && EndsMessage(evs[n - 1], m)
  {
    var tail := evs[j..];
    var n := |evs| - |rest|;
    var k := |tail| - |rest|;
    assert [] + Payload(tail[..k]) == Payload(tail[..k]);
    assert tail[..k] == evs[j..n];
    forall i | j <= i < n - 1 ensures IsFullChunk(evs[i]) {
      assert evs[i] == tail[i - j];
    }
    assert evs[n - 1] == tail[k - 1];
    SliceJoin(evs, j, n, rest);
  }

  lemma SliceJoin(evs: seq<ReadEvent>, j: nat, n: nat, rest: seq<ReadEvent>)
    requires j <= n <= |evs| && evs[j..] == evs[j..n] + rest
    ensures evs == evs[..n] + rest
  {
    assert evs == evs[..j] + evs[j..];
    assert evs[..j] + evs[j..n] == evs[..n];
  }

  /** A hard error reached after full chunks ends the holding with that error, consuming
      nothing further: a non-timeout failure is never turned into a message. */
  lemma {:induction false} FailureSurfaces(evs: seq<ReadEvent>, packet: seq<bv8>, i: nat)
    requires i < |evs| && evs[i].Failed? && evs[i].kind != TimedOut
    requires forall t :: 0 <= t < i ==> IsFullChunk(evs[t])
    ensures Attempt(evs, packet) == Finished(ReadFailed(evs[i].kind), evs[i + 1..])
  {
    if i > 0 {
      FailureSurfaces(evs[1..], packet + evs[0].data, i - 1);
    }
  }

  /** Conversely, `read` fails only at a hard error of the port, after full chunks. */
  lemma {:induction false} AttemptFailed(evs: seq<ReadEvent>, packet: seq<bv8>, k: ErrorKind, rest: seq<ReadEvent>)
    requires WellFormed(evs)
    requires Attempt(evs, packet) == Finished(ReadFailed(k), rest)
    ensures var n := |evs| - |rest|;
      && 0 < n && k != TimedOut && evs[n - 1] == Failed(k)
      && (forall t :: 0 <= t < n - 1 ==> IsFullChunk(evs[t]))
      && evs == evs[..n] + rest
  {
    if evs[0].Chunk? {
      AttemptFailed(evs[1..], packet + evs[0].data, k, rest);
      var n := |evs| - |rest|;
      assert forall t :: 1 <= t < n - 1 ==> evs[t] == evs[1..][t - 1];
    }
  }

  /** At the level of `read`: a hard error after the leading timeouts and full chunks is
      returned as that error, and the events after it are left unread. */
  lemma ReadFailureSurfaces(evs: seq<ReadEvent>, i: nat)
    requires LeadingTimeouts(evs) <= i < |evs| && evs[i].Failed? && evs[i].kind != TimedOut
    requires forall t :: LeadingTimeouts(evs) <= t < i ==> IsFullChunk(evs[t])
    ensures ReadSpec(evs).result == ReadFailed(evs[i].kind)
    ensures ReadSpec(evs).rest == evs[i + 1..]
  {
    ReadSpecShape(evs);
    FailureAfter(evs, LeadingTimeouts(evs), i);
  }

  /** FailureSurfaces for a holding that starts at position `j` of `evs`. */
  lemma FailureAfter(evs: seq<ReadEvent>, j: nat, i: nat)
    requires j <= i < |evs| && evs[i].Failed? && evs[i].kind != TimedOut
    requires forall t :: j <= t < i ==> IsFullChunk(evs[t])
    ensures Attempt(evs[j..], []) == Finished(ReadFailed(evs[i].kind), evs[i + 1..])
  {
    var tail := evs[j..];
    assert forall t :: 0 <= t < i - j ==> tail[t] == evs[j + t];
    assert tail[i - j] == evs[i];
    FailureSurfaces(tail, [], i - j);
    assert tail[i - j + 1..] == evs[i + 1..];
  }

  /** A chunk that exactly fills MAX_READ is not a boundary: a full chunk followed by a short
      one is read as a single message holding both. */
  lemma FullChunkIsNotABoundary(a: seq<bv8>, b: seq<bv8>, rest: seq<ReadEvent>)
    requires |a| == MAX_READ && |b| < MAX_READ
    ensures ReadSpec([Chunk(a), Chunk(b)] + rest) == ReadOutcome(Received(a + b), rest, [Acquire, Release])
  {
    var evs := [Chunk(a), Chunk(b)] + rest;
    var t := evs[1..];
    assert t == [Chunk(b)] + rest && t[0] == Chunk(b) && t[1..] == rest;
    assert [] + a == a;
    assert t != [] && Attempt(t, a) == Finished(Received(a + b), rest);
    assert Attempt(evs, []) == Finished(Received(a + b), rest);
  }

  /** The bytes 0x01 to 0x30 in one chunk, then 0x31 and 0x32: read as one 50-byte message. */
  lemma FiftyByteMessage()
    ensures var first := seq(48, i requires 0 <= i < 48 => (i + 1) as bv8);
      ReadSpec([Chunk(first), Chunk([0x31, 0x32])]).result == Received(seq(50, i requires 0 <= i < 50 => (i + 1) as bv8))
  {
    var first := seq(48, i requires 0 <= i < 48 => (i + 1) as bv8);
    FullChunkIsNotABoundary(first, [0x31, 0x32], []);
    assert [Chunk(first), Chunk([0x31, 0x32])] + [] == [Chunk(first), Chunk([0x31, 0x32])];
    assert first + [0x31, 0x32] == seq(50, i requires 0 <= i < 50 => (i + 1) as bv8);
  }

  /** A timeout with bytes buffered returns them as they are and reads nothing more. */
  lemma TimeoutFlushesBuffer(packet: seq<bv8>, rest: seq<ReadEvent>)
    requires packet != []
    ensures Attempt([Failed(TimedOut)] + rest, packet) == Finished(Received(packet), rest)
  {
    assert ([Failed(TimedOut)] + rest)[1..] == rest;
  }

  /** Conversely to AttemptReceived: full chunks followed by an event that ends the message
      are always read, by one holding of the lock, as the packet followed by their bytes. */
  lemma {:induction false} ReceivedAttempt(full: seq<ReadEvent>, last: ReadEvent, packet: seq<bv8>,
                                           rest: seq<ReadEvent>)
    requires forall i :: 0 <= i < |full| ==> IsFullChunk(full[i])
    requires EndsMessage(last, packet + Payload(full + [last]))
    ensures Attempt(full + [last] + rest, packet) == Finished(Received(packet + Payload(full + [last])), rest)
  {
    var evs := full + [last] + rest;
    if full == [] {
      assert evs == [last] + rest && evs[1..] == rest;
      assert Payload([last]) == (if last.Chunk? then last.data else []) + Payload([]);
      assert Payload(full + [last]) == Payload([last]);
      if last.Chunk? {
        assert packet + Payload([last]) == packet + last.data;
      } else {
        assert packet + Payload([last]) == packet;
      }
    } else {
      var e := full[0];
      var more := packet + e.data;
      assert evs[0] == e && evs[1..] == full[1..] + [last] + rest;
      assert (full + [last])[1..] == full[1..] + [last];
      assert Payload(full + [last]) == e.data + Payload(full[1..] + [last]);
      assert more + Payload(full[1..] + [last]) == packet + Payload(full + [last]);
      ReceivedAttempt(full[1..], last, more, rest);
      assert Attempt(evs, packet) == Attempt(evs[1..], more);
    }
  }

  /** `j` read timeouts in a row. */
  function Timeouts(j: nat): (evs: seq<ReadEvent>)
    ensures |evs| == j
  {
    if j == 0 then [] else [Failed(TimedOut)] + Timeouts(j - 1)
  }

  /** Conversely to ReadReceived: empty timeouts, then full chunks, then an event that ends the
      message, make one `read` back off once per timeout and return exactly those bytes. */
  lemma {:induction false} ReadOfMessage(j: nat, full: seq<ReadEvent>, last: ReadEvent, rest: seq<ReadEvent>)
    requires forall i :: 0 <= i < |full| ==> IsFullChunk(full[i])
    requires EndsMessage(last, Payload(full + [last]))
    ensures ReadSpec(Timeouts(j) + (full + [last] + rest))
      == ReadOutcome(Received(Payload(full + [last])), rest, Backoffs(j) + [Acquire, Release])
  {
    var msg := full + [last] + rest;
    if j == 0 {
      assert Timeouts(0) + msg == msg;
      ReceivedAttempt(full, last, [], rest);
      assert [] + Payload(full + [last]) == Payload(full + [last]);
    } else {
      var evs := Timeouts(j) + msg;
      assert evs[0] == Failed(TimedOut) && evs[1..] == Timeouts(j - 1) + msg;
      ReadOfMessage(j - 1, full, last, rest);
      BackoffsCons(j);
    }
  }

  /** A timeout with nothing buffered does not return: the lock is released, the reader
      sleeps, takes the lock again and starts over with the next event. */
  lemma EmptyTimeoutBacksOff(rest: seq<ReadEvent>)
    ensures ReadSpec([Failed(TimedOut)] + rest) == Prefixed([Acquire, Release, Sleep], ReadSpec(rest))
  {
    assert ([Failed(TimedOut)] + rest)[1..] == rest;
  }

  /** `Ok(0)` counts as a short read (0 < MAX_READ): it ends the message at once, even when
      nothing has been read, so `read` can return an empty message. */
  lemma ZeroByteReadEndsMessage(packet: seq<bv8>, rest: seq<ReadEvent>)
    ensures Attempt([Chunk([])] + rest, packet) == Finished(Received(packet), rest)
    ensures ReadSpec([Chunk([])] + rest).result == Received([])
  {
    assert ([Chunk([])] + rest)[1..] == rest;
    assert packet + [] == packet;
  }
}
