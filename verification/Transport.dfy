/** Messages between replicas: the sending and receiving socket callbacks over arbitrary chunking. */
module Transport {
  import opened Common
  import opened LengthPrefix

  // ---------------------------------------------------------------- the byte stream

  /** The payloads a session hands on from a stream; a size of zero ends it. */
  function Received(stream: Bytes): (r: seq<Bytes>)
    decreases |stream|
  {
    if |stream| < WORD then []
    else
      var n := Number(stream[..WORD]);
      if n == 0 || |stream| < WORD + n then []
      else [stream[WORD..WORD + n]] + Received(stream[WORD + n..])
  }

  predicate Sendable(m: Bytes) { m != [] && |m| < LIMIT }

  ghost predicate AllSendable(ms: seq<Bytes>) { forall i :: 0 <= i < |ms| ==> Sendable(ms[i]) }

  lemma FrameReceived(m: Bytes, rest: Bytes)
    requires Sendable(m)
    ensures Received(Frame(m) + rest) == [m] + Received(rest)
  {
    var s := Frame(m) + rest;
    WordRoundTrip(|m|);
    assert s[..WORD] == Word(|m|) && s[WORD..WORD + |m|] == m && s[WORD + |m|..] == rest;
  }

  lemma PartReceived(m: Bytes, k: nat)
    requires Sendable(m) && k < |Frame(m)|
    ensures Received(Frame(m)[..k]) == []
  {
    var s := Frame(m)[..k];
    if k >= WORD {
      WordRoundTrip(|m|);
      assert s[..WORD] == Word(|m|);
    }
  }

  /** A stream of whole frames and part of another is received as exactly the whole ones. */
  lemma {:induction false} StreamReceived(ms: seq<Bytes>, m: Bytes, k: nat)
    requires AllSendable(ms) && Sendable(m) && k < |Frame(m)|
    ensures Received(Frames(ms) + Frame(m)[..k]) == ms
  {
    if ms == [] {
      PartReceived(m, k);
      assert Frames(ms) + Frame(m)[..k] == Frame(m)[..k];
    } else {
      var rest := Frames(ms[1..]) + Frame(m)[..k];
      assert Frames(ms) + Frame(m)[..k] == Frame(ms[0]) + rest;
      FrameReceived(ms[0], rest);
      StreamReceived(ms[1..], m, k);
    }
  }

  /** However much of the stream has arrived, what was received is a prefix of what was completed. */
  lemma {:induction false} PrefixReceived(ms: seq<Bytes>, m: Bytes, k: nat, n: nat)
    requires AllSendable(ms) && Sendable(m) && k < |Frame(m)| && n <= |Frames(ms)| + k
    ensures Received((Frames(ms) + Frame(m)[..k])[..n]) <= ms
  {
    var stream := Frames(ms) + Frame(m)[..k];
    if ms == [] {
      PartReceived(m, n);
      assert stream[..n] == Frame(m)[..n];
    } else if n < |Frame(ms[0])| {
      PartReceived(ms[0], n);
      assert stream[..n] == Frame(ms[0])[..n];
    } else {
      var rest, left := Frames(ms[1..]) + Frame(m)[..k], n - |Frame(ms[0])|;
      assert stream[..n] == Frame(ms[0]) + rest[..left];
      FrameReceived(ms[0], rest[..left]);
      PrefixReceived(ms[1..], m, k, left);
      assert ms == [ms[0]] + ms[1..];
    }
  }

  // ---------------------------------------------------------------- the receiver

  /** What a session has consumed since the last payload. */
  ghost function Partial(status: int, size: nat, buffer: Bytes): Bytes {
    if status == 0 then buffer else Word(size) + buffer
  }

  class Session {
    var status: int
    var size: nat
    var need: nat
    var buffer: Bytes
    var closed: bool
    var delivered: seq<Bytes>
    ghost var consumed: Bytes

    /** The session stands inside one frame, everything before it handed on. */
    ghost predicate Valid()
      reads this
    {
      && AllSendable(delivered) && consumed == Frames(delivered) + Partial(status, size, buffer)
      && (status == 0 ==> need == WORD && |buffer| < WORD)
      && (status != 0 ==> status == 1 && need == size < LIMIT && (|buffer| < size || (size == 0 && buffer == [])))
    }

    constructor ()
      ensures Valid() && consumed == [] && delivered == [] && !closed
    {
      status, size, need, buffer, closed, delivered, consumed := 0, 0, WORD, [], false, [], [];
    }

    method StartRead()
      modifies this`need, this`buffer, this`size
      ensures buffer == []
      ensures if status == 0 then need == WORD && size == 0 else need == size == old(size)
    {
      if status == 0 { size, need := 0, WORD; } else { need := size; }
      buffer := [];
    }

    method ReadDone()
      requires |buffer| == need && AllSendable(delivered)
      requires (status == 0 && need == WORD) || (status == 1 && need == size && Sendable(buffer))
      requires consumed == Frames(delivered) + Partial(status, size, buffer)
      modifies this`status, this`size, this`need, this`buffer, this`delivered
      ensures Valid()
    {
      if status == 1 {
        FramesAppend(delivered, [buffer]);
        FramesOfOneAndTwo(buffer, buffer);
        delivered := delivered + [buffer];
        assert consumed == Frames(delivered) + [];
      } else {
        size := Number(buffer);
        NumberInverse(buffer);
      }
      status := 1 - status;
      StartRead();
    }

    /** The read callback: any non-empty chunk that fits, or the end of the connection. */
    method OnRead(chunk: Bytes)
      requires Valid() && !closed && |buffer| + |chunk| <= need
      modifies this
      ensures Valid() && consumed == old(consumed) + chunk && (closed <==> chunk == [])
    {
      hide Frames, Word, AllSendable;
      if chunk == [] {
        closed := true;
        return;
      }
      buffer := buffer + chunk;
      consumed := consumed + chunk;
      if |buffer| >= need { ReadDone(); }
    }

    /** The callback has been given exactly the payloads of the bytes read, however they were cut. */
    lemma Delivered()
      requires Valid()
      ensures delivered == Received(consumed)
    {
      if status == 0 || size == 0 {
        FramesThen(delivered, Partial(status, size, buffer));
        if status != 0 {
          WordRoundTrip(0);
          assert (Word(size) + buffer)[..WORD] == Word(size);
        }
      } else {
        var m := buffer + seq(size - |buffer|, _ => 0);
        assert Frame(m)[..WORD + |buffer|] == Word(size) + buffer;
        StreamReceived(delivered, m, WORD + |buffer|);
      }
    }
  }

  lemma {:induction false} FramesThen(ms: seq<Bytes>, rest: Bytes)
    requires AllSendable(ms) && Received(rest) == []
    ensures Received(Frames(ms) + rest) == ms
  {
    if ms == [] {
      assert Frames(ms) + rest == rest;
    } else {
      assert Frames(ms) + rest == Frame(ms[0]) + (Frames(ms[1..]) + rest);
      FrameReceived(ms[0], Frames(ms[1..]) + rest);
      FramesThen(ms[1..], rest);
    }
  }

  lemma {:induction false} NumberInverseK(s: Bytes)
    ensures LittleEndian(Number(s), |s|) == s && Number(s) < Pow256(|s|)
  {
    if s != [] {
      NumberInverseK(s[1..]);
      assert Number(s) / 256 == Number(s[1..]) && Number(s) % 256 == s[0];
      assert s == [s[0]] + s[1..];
    }
  }

  /** Eight bytes are the word of the number they spell. */
  lemma NumberInverse(s: Bytes)
    requires |s| == WORD
    ensures Word(Number(s)) == s && Number(s) < LIMIT
  {
    NumberInverseK(s);
    assert Pow256(8) == 256 * (256 * (256 * (256 * Pow256(4))));
    assert Pow256(4) == 256 * (256 * (256 * (256 * Pow256(0))));
  }

  // ---------------------------------------------------------------- the sender

  function NonEmpty(ms: seq<Bytes>): seq<Bytes> {
    if ms == [] then [] else (if ms[0] == [] then [] else [ms[0]]) + NonEmpty(ms[1..])
  }

  lemma {:induction false} NonEmptyAppend(a: seq<Bytes>, b: seq<Bytes>)
    ensures NonEmpty(a + b) == NonEmpty(a) + NonEmpty(b)
  {
    if a == [] {
      assert a + b == b;
    } else {
      assert (a + b)[1..] == a[1..] + b;
      NonEmptyAppend(a[1..], b);
    }
  }

  function Flatten<T>(batches: seq<seq<T>>): seq<T> {
    if batches == [] then [] else batches[0] + Flatten(batches[1..])
  }

  lemma {:induction false} FlattenAppend<T>(a: seq<seq<T>>, b: seq<seq<T>>)
    ensures Flatten(a + b) == Flatten(a) + Flatten(b)
  {
    if a == [] {
      assert a + b == b;
    } else {
      assert (a + b)[1..] == a[1..] + b;
      FlattenAppend(a[1..], b);
    }
  }

  lemma FlattenLast<T>(batches: seq<seq<T>>)
    requires batches != []
    ensures Flatten(batches) == Flatten(batches[..|batches| - 1]) + batches[|batches| - 1]
  {
    var init, last := batches[..|batches| - 1], batches[|batches| - 1];
    FlattenAppend(init, [last]);
    assert batches == init + [last] && Flatten([last]) == last + [];
  }

  /** Whole frames of the completed messages, then less than the whole frame of m. */
  ghost predicate CutAt(wire: Bytes, done: seq<Bytes>, m: Bytes, k: nat) {
    Sendable(m) && k < |Frame(m)| && wire == Frames(done) + Frame(m)[..k]
  }

  ghost predicate Cut(wire: Bytes, done: seq<Bytes>) {
    AllSendable(done) && exists m, k :: CutAt(wire, done, m, k)
  }

  /** Every non-empty message is completed, being sent or queued, each once and in order. */
  ghost predicate Accounted(sent: seq<Bytes>, completed: seq<Bytes>, current: seq<Bytes>, queue: seq<Bytes>) {
    NonEmpty(sent) == completed + current + NonEmpty(queue)
  }

  lemma AccountPush(sent: seq<Bytes>, completed: seq<Bytes>, current: seq<Bytes>, queue: seq<Bytes>, data: Bytes)
    requires Accounted(sent, completed, current, queue)
    ensures Accounted(sent + [data], completed, current, queue + [data])
  {
    NonEmptyAppend(sent, [data]);
    NonEmptyAppend(queue, [data]);
  }

  lemma AccountPop(sent: seq<Bytes>, completed: seq<Bytes>, queue: seq<Bytes>)
    requires Accounted(sent, completed, [], queue) && queue != []
    ensures Accounted(sent, completed, if queue[0] == [] then [] else [queue[0]], queue[1..])
  {
    var first := if queue[0] == [] then [] else [queue[0]];
    assert completed + [] + (first + NonEmpty(queue[1..])) == completed + first + NonEmpty(queue[1..]);
  }

  lemma AccountDone(sent: seq<Bytes>, before: seq<Bytes>, done: seq<Bytes>, m: Bytes, queue: seq<Bytes>)
    requires Accounted(sent, before + done, [m], queue)
    ensures Accounted(sent, before + (done + [m]), [], queue)
  {
    assert before + (done + [m]) + [] == before + done + [m];
  }

  lemma AccountFailure(before: seq<seq<Bytes>>, done: seq<Bytes>)
    ensures Flatten(before + [done]) + [] == Flatten(before) + done
  {
    FlattenAppend(before, [done]);
    assert Flatten([done]) == done + [];
  }

  ghost predicate AllCut(wires: seq<Bytes>, done: seq<seq<Bytes>>) {
    |done| == |wires| && forall c :: 0 <= c < |wires| ==> Cut(wires[c], done[c])
  }

  /** The open connection carries the frames of its messages and k bytes of the frame of m. */
  ghost predicate Carries(wire: Bytes, done: seq<Bytes>, m: Bytes, k: nat) {
    AllSendable(done) && k <= |Frame(m)| && wire == Frames(done) + Frame(m)[..k]
  }

  lemma CarryMore(wire: Bytes, done: seq<Bytes>, m: Bytes, k: nat, n: nat)
    requires Carries(wire, done, m, k) && k + n <= |Frame(m)|
    ensures Carries(wire + Frame(m)[k..k + n], done, m, k + n)
  {
    assert Frame(m)[..k] + Frame(m)[k..k + n] == Frame(m)[..k + n];
  }

  lemma CarryDone(wire: Bytes, done: seq<Bytes>, m: Bytes)
    requires Carries(wire, done, m, |Frame(m)|) && Sendable(m)
    ensures wire == Frames(done + [m]) && AllSendable(done + [m])
  {
    FramesAppend(done, [m]);
    FramesOfOneAndTwo(m, m);
    assert Frame(m)[..|Frame(m)|] == Frame(m);
  }

  lemma CarryNone(done: seq<Bytes>, m: Bytes)
    requires AllSendable(done)
    ensures Carries(Frames(done), done, m, 0)
  {
    assert Frames(done) + Frame(m)[..0] == Frames(done);
  }

  lemma CutMore(wires: seq<Bytes>, before: seq<seq<Bytes>>, wire: Bytes, done: seq<Bytes>, m: Bytes, k: nat)
    requires AllCut(wires, before) && Carries(wire, done, m, k) && Sendable(m) && k < |Frame(m)|
    ensures AllCut(wires + [wire], before + [done])
  {
    assert CutAt(wire, done, m, k);
  }

  lemma CarryRestart(wire: Bytes, done: seq<Bytes>, m: Bytes, next: Bytes)
    requires Carries(wire, done, m, 0)
    ensures Carries(wire, done, next, 0)
  {
    assert Frame(m)[..0] == Frame(next)[..0];
  }

  /** The bytes a buffer sends next are the next bytes of the frame. */
  lemma FrameChunk(m: Bytes, status: int, idx: nat, n: nat)
    requires status == 1 || status == 2
    requires idx + n <= if status == 1 then WORD else |m|
    ensures status == 1 ==> Frame(m)[idx..idx + n] == Word(|m|)[idx..idx + n]
    ensures status == 2 ==> Frame(m)[WORD + idx..WORD + idx + n] == m[idx..idx + n]
  {}

  /** Who runs the sending side: nobody, a thread about to pop or to let go, or the write callbacks. */
  datatype Phase = Idle | Popping | Releasing | Sending

  /** Each method is one atomic step; callers and socket callbacks interleave between them. */
  class AsyncReplicaClient {
    var queue: seq<Bytes>
    var inProcess: bool
    var pending: Bytes
    var status: int
    var sending: Bytes
    var idx: nat
    /** What the open connection has carried, and what each failed one had. The socket is not connected
        at first, so the first write fails and leaves an empty connection behind. */
    var wire: Bytes
    var failed: seq<Bytes>
    ghost var phase: Phase
    ghost var sent: seq<Bytes>
    ghost var done: seq<Bytes>
    ghost var doneBefore: seq<seq<Bytes>>

    ghost function Written(): nat
      reads this
    {
      if phase != Sending then 0 else if status == 1 then idx else WORD + idx
    }

    ghost function Completed(): seq<Bytes>
      reads this
    {
      Flatten(doneBefore) + done
    }

    ghost predicate BufferOk()
      reads this
    {
      phase == Sending ==>
        && Sendable(pending) && idx < |sending|
        && ((status == 1 && sending == Word(|pending|)) || (status == 2 && sending == pending))
    }

    ghost predicate Valid()
      reads this
    {
      && (inProcess <==> phase != Idle) && (forall i :: 0 <= i < |queue| ==> |queue[i]| < LIMIT)
      && BufferOk() && AllCut(failed, doneBefore) && Carries(wire, done, pending, Written())
      && Accounted(sent, Completed(), if phase == Sending then [pending] else [], queue)
    }

    constructor ()
      ensures Valid() && sent == [] && wire == [] && failed == [] && phase == Idle
    {
      queue, inProcess, pending, status, sending, idx := [], false, [], 0, [], 0;
      wire, failed, phase, sent, done, doneBefore := [], [], Idle, [], [], [];
      new;
      CarryNone(done, pending);
    }

    method Push(data: Bytes)
      requires Valid() && |data| < LIMIT
      modifies this`queue, this`sent
      ensures Valid() && sent == old(sent) + [data] && queue == old(queue) + [data]
    {
      AccountPush(sent, Completed(), if phase == Sending then [pending] else [], queue, data);
      queue := queue + [data];
      sent := sent + [data];
    }

    /** compare_exchange: one caller takes over an idle sender. */
    method TryStart() returns (started: bool)
      requires Valid()
      modifies this`inProcess, this`phase
      ensures Valid() && started == !old(inProcess) && phase == if started then Popping else old(phase)
    {
      started := !inProcess;
      if started { inProcess, phase := true, Popping; }
    }

    /** An empty message is taken off the queue and sends the sender to rest. */
    method OnSendNewMessage()
      requires Valid() && phase == Popping
      modifies this`queue, this`pending, this`status, this`sending, this`idx, this`phase
      ensures Valid() && queue == if old(queue) == [] then [] else old(queue)[1..]
      ensures phase == if old(queue) == [] || old(queue)[0] == [] then Releasing else Sending
      ensures phase == Sending ==> pending == old(queue)[0]
    {
      hide AllCut, Accounted, Carries, Flatten, Word;
      if queue == [] {
        phase := Releasing;
        return;
      }
      AccountPop(sent, Completed(), queue);
      var data := queue[0];
      queue := queue[1..];
      if data == [] {
        phase := Releasing;
        return;
      }
      CarryRestart(wire, done, pending, data);
      pending, status, phase := data, 0, Sending;
      OnSendMessage();
    }

    method Release()
      requires Valid() && phase == Releasing
      modifies this`inProcess, this`phase
      ensures Valid() && !inProcess
    {
      inProcess, phase := false, Idle;
    }

    /** Moves on to the size, the payload or the next message. */
    method OnSendMessage()
      requires status == 0 || status == 1 || status == 2
      modifies this`status, this`sending, this`idx, this`phase
      ensures status == (old(status) + 1) % 3
      ensures old(status) == 2 ==> phase == Popping
      ensures old(status) != 2 ==>
              phase == old(phase) && idx == 0 && sending == if status == 1 then Word(|pending|) else pending
    {
      if status == 0 {
        sending, idx, status := Word(|pending|), 0, 1;
      } else if status == 1 {
        sending, idx, status := pending, 0, 2;
      } else {
        status, phase := 0, Popping;
      }
    }

    /** The write callback: the socket took any n of the remaining bytes. */
    method OnSend(n: nat)
      requires Valid() && phase == Sending && idx + n <= |sending|
      modifies this`status, this`sending, this`idx, this`phase, this`wire, this`done
      ensures Valid() && wire == old(wire) + old(sending)[old(idx)..old(idx) + n]
    {
      hide AllCut, Accounted, Carries, Flatten, Word;
      FrameChunk(pending, status, idx, n);
      CarryMore(wire, done, pending, Written(), n);
      wire := wire + sending[idx..idx + n];
      idx := idx + n;
      if idx >= |sending| { BufferSent(); }
    }

    /** A whole buffer is on the wire; after the payload the message is completed. */
    method BufferSent()
      requires inProcess && phase == Sending && idx == |sending| && Sendable(pending)
      requires (status == 1 && sending == Word(|pending|)) || (status == 2 && sending == pending)
      requires forall i :: 0 <= i < |queue| ==> |queue[i]| < LIMIT
      requires AllCut(failed, doneBefore) && Carries(wire, done, pending, Written())
      requires Accounted(sent, Completed(), [pending], queue)
      modifies this`status, this`sending, this`idx, this`phase, this`done
      ensures Valid() && done == old(done) + (if old(status) == 2 then [pending] else [])
    {
      hide AllCut, Accounted, Flatten, Word;
      if status == 2 {
        CarryDone(wire, done, pending);
        CarryNone(done + [pending], pending);
        AccountDone(sent, Flatten(doneBefore), done, pending, queue);
        done := done + [pending];
      }
      OnSendMessage();
    }

    /** A failed write: reconnect, and send the pending message from its start. */
    method ReConnect()
      requires Valid() && phase == Sending
      modifies this`status, this`sending, this`idx, this`phase, this`wire, this`failed, this`done, this`doneBefore
      ensures Valid() && phase == Sending && status == 1 && idx == 0
      ensures wire == [] && failed == old(failed) + [old(wire)] && Completed() == old(Completed())
    {
      hide AllCut, Accounted, Carries, Flatten, Word;
      AccountFailure(doneBefore, done);
      CutMore(failed, doneBefore, wire, done, pending, Written());
      CarryNone([], pending);
      failed, doneBefore, wire, done := failed + [wire], doneBefore + [done], [], [];
      status := 0;
      OnSendMessage();
    }

    /** What a session received of the open connection is a prefix of what was completed on it. */
    lemma ReceivedIsPrefix(n: nat)
      requires Valid() && n <= |wire|
      ensures Received(wire[..n]) <= done && Received(wire) == done
    {
      if phase == Sending {
        PrefixReceived(done, pending, Written(), n);
        StreamReceived(done, pending, Written());
      } else {
        assert Frame(pending)[..0] == Frame([0])[..0];
        PrefixReceived(done, [0], 0, n);
        StreamReceived(done, [0], 0);
      }
    }

    /**
     * Behind the messages completed on earlier connections, what is received of the open one continues the
     * messages sent.
     */
    lemma DeliversPrefix(n: nat)
      requires Valid() && n <= |wire|
      ensures Flatten(doneBefore) + Received(wire[..n]) <= NonEmpty(sent)
    {
      ReceivedIsPrefix(n);
    }
  }

  /** What the sessions of several connections have handed on, one after the other. */
  ghost function AllDelivered(sessions: seq<Session>): seq<Bytes>
    reads sessions
  {
    if sessions == [] then [] else AllDelivered(sessions[..|sessions| - 1]) + sessions[|sessions| - 1].delivered
  }

  /** Some part of each connection arrived at its session, in whatever pieces. */
  ghost predicate Arrived(sessions: seq<Session>, wires: seq<Bytes>)
    reads sessions
  {
    |sessions| == |wires| && forall c :: 0 <= c < |sessions| ==> sessions[c].Valid() && sessions[c].consumed <= wires[c]
  }

  lemma SessionIsPart(session: Session, wire: Bytes, done: seq<Bytes>)
    requires session.Valid() && session.consumed <= wire && Cut(wire, done)
    ensures Sub(session.delivered, done)
  {
    hide Received, Frames, Frame;
    session.Delivered();
    var n := |session.consumed|;
    assert session.consumed == wire[..n];
    var m, k :| CutAt(wire, done, m, k);
    PrefixReceived(done, m, k, n);
    SubPrefix(session.delivered, done);
  }

  lemma {:induction false} ArrivedIsPart(sessions: seq<Session>, wires: seq<Bytes>, done: seq<seq<Bytes>>)
    requires Arrived(sessions, wires) && AllCut(wires, done)
    ensures Sub(AllDelivered(sessions), Flatten(done))
  {
    hide Cut;
    if sessions != [] {
      var k := |sessions| - 1;
      ArrivedIsPart(sessions[..k], wires[..k], done[..k]);
      SessionIsPart(sessions[k], wires[k], done[k]);
      FlattenLast(done);
      SubConcat(AllDelivered(sessions[..k]), Flatten(done[..k]), sessions[k].delivered, done[k]);
    }
  }

  /**
   * End to end, over any number of connections of which any parts arrive in any pieces: behind what
   * was completed before, the open connection's session has handed on exactly the next messages; and
   * all sessions together have handed on non-empty messages in the order they were sent, none twice.
   */
  lemma EndToEnd(client: AsyncReplicaClient, sessions: seq<Session>, last: Session)
    requires client.Valid() && Arrived(sessions, client.failed) && last.Valid() && last.consumed <= client.wire
    ensures Flatten(client.doneBefore) + last.delivered <= NonEmpty(client.sent)
    ensures Sub(AllDelivered(sessions) + last.delivered, NonEmpty(client.sent))
  {
    var n := |last.consumed|;
    last.Delivered();
    client.DeliversPrefix(n);
    client.ReceivedIsPrefix(n);
    assert last.consumed == client.wire[..n];
    ArrivedIsPart(sessions, client.failed, client.doneBefore);
    var all := NonEmpty(client.sent);
    SubPrefix(last.delivered, all[|Flatten(client.doneBefore)|..]);
    SubConcat(AllDelivered(sessions), Flatten(client.doneBefore), last.delivered, all[|Flatten(client.doneBefore)|..]);
    assert Flatten(client.doneBefore) + all[|Flatten(client.doneBefore)|..] == all;
  }

  // ---------------------------------------------------------------- batches

  lemma FlattenOne<T>(batches: seq<seq<T>>, x: T)
    ensures Flatten(batches + [[x]]) == Flatten(batches) + [x]
  {
    FlattenLast(batches + [[x]]);
    assert (batches + [[x]])[..|batches|] == batches;
  }

  lemma FlattenGrow<T>(batches: seq<seq<T>>, x: T)
    requires batches != []
    ensures Flatten(batches[|batches| - 1 := batches[|batches| - 1] + [x]]) == Flatten(batches) + [x]
  {
    var k := |batches| - 1;
    var more := batches[k := batches[k] + [x]];
    FlattenLast(batches);
    FlattenLast(more);
    assert more[..k] == batches[..k];
  }

  class BatchQueue<T> {
    const batchSize: nat
    var queue: seq<seq<T>>

    /** A size of zero still puts one element in each batch. */
    function Full(): nat { if batchSize == 0 then 1 else batchSize }

    ghost predicate Valid()
      reads this
    {
      && (forall b :: 0 <= b < |queue| ==> 0 < |queue[b]| <= Full())
      && (forall b :: 0 <= b < |queue| - 1 ==> |queue[b]| == Full())
    }

    constructor (batchSize: nat)
      ensures Valid() && queue == [] && this.batchSize == batchSize
    {
      this.batchSize, queue := batchSize, [];
    }

    method Push(data: T)
      requires Valid()
      modifies this
      ensures Valid() && Flatten(queue) == Flatten(old(queue)) + [data]
    {
      if queue == [] || |queue[|queue| - 1]| >= batchSize {
        FlattenOne(queue, data);
        queue := queue + [[data]];
      } else {
        FlattenGrow(queue, data);
        queue := queue[|queue| - 1 := queue[|queue| - 1] + [data]];
      }
    }

    /** Hands out the oldest batch, which is full unless it was the only one. */
    method Pop() returns (batch: seq<T>)
      requires Valid()
      modifies this
      ensures Valid() && batch + Flatten(queue) == Flatten(old(queue))
      ensures batch == [] <==> old(queue) == []
      ensures queue != [] ==> |batch| == Full()
    {
      if queue == [] { return []; }
      batch := queue[0];
      queue := queue[1..];
    }
  }
}
