/** One netlink request and its replies: how datagrams are cut into messages (RFC 3549, section 2.3.2) and
    what each message does to the transaction. */
module WifiExchange {
  import opened Bytes
  import opened WifiAttributes

  const HEADER: nat := 16
  const GENERIC: nat := 4
  const MAX_BYTES: nat := 1024 * 1024
  const MAX_MESSAGES: nat := 1024
  const ERROR: nat := 2
  const DONE: nat := 3
  const OVERRUN: nat := 4
  const INTERRUPTED: nat := 4

  datatype Message = Message(kind: u16, flags: u16, sequence: u32, payload: seq<byte>)

  /** The request a reply must belong to. */
  datatype Query = Query(family: u16, response: byte, dump: bool, sequence: u32)

  /** What the handler says about the payloads delivered so far, the last one being new. */
  type Handler = seq<seq<byte>> -> bool

  /** A transaction after some messages: still waiting, complete, refused by the kernel, or failed. */
  datatype Verdict = Waiting | Complete | Refused(errno: nat) | Failed
  datatype Status = Status(verdict: Verdict, delivered: seq<seq<byte>>)

  // ---- Messages ------------------------------------------------------------------------------------------

  predicate Framed(data: seq<byte>, p: nat) {
    p + HEADER <= |data| && HEADER <= U32(data[p..p + 4]) && p + Aligned(U32(data[p..p + 4])) <= |data|
  }

  function MessageAt(data: seq<byte>, p: nat): Message
    requires Framed(data, p)
  {
    Message(U16(data[p + 4..p + 6]), U16(data[p + 6..p + 8]), U32(data[p + 8..p + 12]), data[p + HEADER..p + U32(data[p..p + 4])])
  }

  function Next(data: seq<byte>, p: nat): (q: nat)
    requires Framed(data, p)
    ensures p < q <= |data|
  {
    p + Aligned(U32(data[p..p + 4]))
  }

  /** The messages of a datagram, if aligned messages tile it. */
  function Messages(data: seq<byte>, p: nat): Option<seq<Message>>
    requires p <= |data|
    decreases |data| - p
  {
    if p == |data| then Some([])
    else if !Framed(data, p) then None
    else
      var rest := Messages(data, Next(data, p));
      if rest.None? then None else Some([MessageAt(data, p)] + rest.value)
  }

  /** The error number of an acknowledgement or of the end of a dump, as a 32-bit signed value. */
  function ErrorOf(payload: seq<byte>): Option<int> {
    if payload == [] then Some(0)
    else if |payload| < 4 then None
    else
      var v := U32(payload[..4]);
      Some(if v >= 0x8000_0000 then v - 0x1_0000_0000 else v)
  }

  /** What one message does. */
  function Step(s: Status, m: Message, q: Query, handler: Handler): Status {
    if m.sequence != q.sequence then s
    else if Bit(m.flags, INTERRUPTED) then s.(verdict := Failed)
    else if m.kind == ERROR || m.kind == DONE then
      var error := ErrorOf(m.payload);
      if error.None? || error.value > 0 || error.value == -0x8000_0000 then s.(verdict := Failed)
      else if error.value < 0 then s.(verdict := Refused(-error.value))
      else if m.kind == DONE && !q.dump then s.(verdict := Failed)
      else if m.kind == DONE then s.(verdict := Complete) else s
    else if m.kind == OVERRUN || m.kind != q.family || |m.payload| < GENERIC || m.payload[0] != q.response then
      s.(verdict := Failed)
    else
      var delivered := s.delivered + [m.payload[GENERIC..]];
      Status(if !handler(delivered) then Failed else if q.dump then Waiting else Complete, delivered)
  }

  function Run(s: Status, ms: seq<Message>, q: Query, handler: Handler): Status
    decreases |ms|
  {
    if ms == [] || !s.verdict.Waiting? then s else Run(Step(s, ms[0], q, handler), ms[1..], q, handler)
  }

  lemma {:induction false} RunSplit(s: Status, a: seq<Message>, b: seq<Message>, q: Query, handler: Handler)
    ensures Run(s, a + b, q, handler) == Run(Run(s, a, q, handler), b, q, handler)
    decreases |a|
  {
    if a == [] {
      assert a + b == b;
    } else if s.verdict.Waiting? {
      assert (a + b)[1..] == a[1..] + b;
      RunSplit(Step(s, a[0], q, handler), a[1..], b, q, handler);
    }
  }

  predicate Data(m: Message, q: Query) {
    m.sequence == q.sequence && !Bit(m.flags, INTERRUPTED) && m.kind !in {ERROR, DONE, OVERRUN} && m.kind == q.family
    && |m.payload| >= GENERIC && m.payload[0] == q.response
  }

  /** What a transaction that completed has delivered: the payloads of its own data messages, in order. */
  function Payloads(ms: seq<Message>, q: Query): seq<seq<byte>> {
    if ms == [] then []
    else (if Data(ms[0], q) then [ms[0].payload[GENERIC..]] else []) + Payloads(ms[1..], q)
  }

  predicate Ignored(m: Message, q: Query) {
    m.sequence != q.sequence || (!Bit(m.flags, INTERRUPTED) && m.kind == ERROR && ErrorOf(m.payload) == Some(0))
  }

  predicate Ends(m: Message, q: Query) {
    m.sequence == q.sequence && !Bit(m.flags, INTERRUPTED) && m.kind == DONE && ErrorOf(m.payload) == Some(0)
  }

  /** Every prefix of the new payloads is accepted by the handler. */
  predicate AllAccepted(before: seq<seq<byte>>, new_: seq<seq<byte>>, handler: Handler) {
    forall n :: 0 < n <= |new_| ==> handler(before + new_[..n])
  }

  /** A dump completes exactly when, up to some end marker without an error, there is nothing but its own data
      messages, each accepted, and messages to be ignored; all those payloads have then been delivered, in
      order and once each. */
  ghost predicate Dumped(s: Status, ms: seq<Message>, q: Query, handler: Handler, n: nat) {
    n < |ms| && Ends(ms[n], q) && (forall k :: 0 <= k < n ==> Data(ms[k], q) || Ignored(ms[k], q))
    && AllAccepted(s.delivered, Payloads(ms[..n], q), handler)
  }

  lemma PayloadsFirst(ms: seq<Message>, n: nat, q: Query)
    requires 0 < n <= |ms|
    ensures Payloads(ms[..n], q) == (if Data(ms[0], q) then [ms[0].payload[GENERIC..]] else []) + Payloads(ms[1..][..n - 1], q)
  {
    assert ms[..n][1..] == ms[1..][..n - 1];
  }

  /** Acceptance of a list is acceptance of its first payload and of the rest after it. */
  lemma AcceptedCons(before: seq<seq<byte>>, x: seq<byte>, rest: seq<seq<byte>>, handler: Handler)
    ensures AllAccepted(before, [x] + rest, handler) <==> handler(before + [x]) && AllAccepted(before + [x], rest, handler)
  {
    var all := [x] + rest;
    assert all[..1] == [x];
    forall n | 0 < n <= |rest| ensures before + [x] + rest[..n] == before + all[..n + 1] {
      assert all[..n + 1] == [x] + rest[..n];
    }
    if handler(before + [x]) && AllAccepted(before + [x], rest, handler) {
      forall n | 0 < n <= |all| ensures handler(before + all[..n]) {
        if n > 1 {
          assert before + [x] + rest[..n - 1] == before + all[..n];
        }
      }
    }
    if AllAccepted(before, all, handler) {
      forall n | 0 < n <= |rest| ensures handler(before + [x] + rest[..n]) {
        assert before + [x] + rest[..n] == before + all[..n + 1];
      }
    }
  }

  /** One message that does not end the dump moves the question to the rest. */
  lemma DumpedNext(s: Status, ms: seq<Message>, q: Query, handler: Handler, n: nat)
    requires ms != [] && q.dump && s.verdict.Waiting? && (Data(ms[0], q) || Ignored(ms[0], q))
    ensures var next := Step(s, ms[0], q, handler);
      Dumped(s, ms, q, handler, n + 1) <==> (next.verdict.Waiting? && Dumped(next, ms[1..], q, handler, n))
    ensures Step(s, ms[0], q, handler).delivered == s.delivered + if Data(ms[0], q) then [ms[0].payload[GENERIC..]] else []
  {
    hide ErrorOf, Payloads;
    var (m, rest) := (ms[0], ms[1..]);
    assert s.delivered + [] == s.delivered;
    if n < |rest| {
      PayloadsFirst(ms, n + 1, q);
      var tail := Payloads(rest[..n], q);
      if Data(m, q) {
        AcceptedCons(s.delivered, m.payload[GENERIC..], tail, handler);
      } else {
        assert [] + tail == tail;
      }
      assert rest[n] == ms[n + 1];
      assert forall k :: 0 <= k < n ==> rest[k] == ms[k + 1];
      assert (forall k :: 0 <= k < n + 1 ==> Data(ms[k], q) || Ignored(ms[k], q)) <==>
        (forall k :: 0 <= k < n ==> Data(rest[k], q) || Ignored(rest[k], q)) by {
        if forall k :: 0 <= k < n ==> Data(rest[k], q) || Ignored(rest[k], q) {
          forall k | 0 <= k < n + 1 ensures Data(ms[k], q) || Ignored(ms[k], q) {
            if k > 0 {
              assert ms[k] == rest[k - 1];
            }
          }
        }
        if forall k :: 0 <= k < n + 1 ==> Data(ms[k], q) || Ignored(ms[k], q) {
          forall k | 0 <= k < n ensures Data(rest[k], q) || Ignored(rest[k], q) {
            assert rest[k] == ms[k + 1];
          }
        }
      }
    }
  }

  /** An end marker without an error completes the dump. */
  lemma EndCompletes(s: Status, ms: seq<Message>, q: Query, handler: Handler)
    requires q.dump && s.verdict.Waiting? && ms != [] && Ends(ms[0], q)
    ensures Run(s, ms, q, handler) == Status(Complete, s.delivered)
  {
    assert Step(s, ms[0], q, handler) == Status(Complete, s.delivered);
    assert Run(Step(s, ms[0], q, handler), ms[1..], q, handler) == Step(s, ms[0], q, handler);
  }

  lemma {:induction false} DumpedCompletes(s: Status, ms: seq<Message>, q: Query, handler: Handler, n: nat)
    requires q.dump && s.verdict.Waiting? && Dumped(s, ms, q, handler, n)
    ensures Run(s, ms, q, handler) == Status(Complete, s.delivered + Payloads(ms[..n], q))
    decreases n
  {
    hide ErrorOf, Step, Data, Ignored, Ends, AllAccepted;
    if n == 0 {
      assert ms[..0] == [] && s.delivered + [] == s.delivered;
      EndCompletes(s, ms, q, handler);
    } else {
      assert Data(ms[0], q) || Ignored(ms[0], q);
      DumpedNext(s, ms, q, handler, n - 1);
      DumpedCompletes(Step(s, ms[0], q, handler), ms[1..], q, handler, n - 1);
      PayloadsFirst(ms, n, q);
    }
  }

  lemma {:induction false} CompletedAt(s: Status, ms: seq<Message>, q: Query, handler: Handler) returns (n: nat)
    requires q.dump && s.verdict.Waiting? && Run(s, ms, q, handler).verdict.Complete?
    ensures Dumped(s, ms, q, handler, n)
    decreases |ms|
  {
    hide ErrorOf;
    if Data(ms[0], q) || Ignored(ms[0], q) {
      var next := Step(s, ms[0], q, handler);
      n := CompletedAt(next, ms[1..], q, handler);
      DumpedNext(s, ms, q, handler, n);
      n := n + 1;
    } else {
      n := 0;
      assert ms[..0] == [];
    }
  }

  lemma DumpComplete(s: Status, ms: seq<Message>, q: Query, handler: Handler)
    requires q.dump && s.verdict.Waiting?
    ensures Run(s, ms, q, handler).verdict.Complete? <==> exists n: nat :: Dumped(s, ms, q, handler, n)
    ensures forall n: nat :: Dumped(s, ms, q, handler, n) ==>
      Run(s, ms, q, handler) == Status(Complete, s.delivered + Payloads(ms[..n], q))
  {
    hide Run, Payloads, AllAccepted, Data, Ignored, Ends;
    if Run(s, ms, q, handler).verdict.Complete? {
      var n := CompletedAt(s, ms, q, handler);
    }
    forall n: nat | Dumped(s, ms, q, handler, n)
      ensures Run(s, ms, q, handler) == Status(Complete, s.delivered + Payloads(ms[..n], q)) {
      DumpedCompletes(s, ms, q, handler, n);
    }
  }

  // ---- Datagrams -----------------------------------------------------------------------------------------

  /** What one receive call brought; trusted means complete and sent by the kernel. */
  datatype Datagram = Datagram(data: seq<byte>, trusted: bool)

  /** One datagram, message by message; nothing behind the message that decides is looked at. */
  function Walk(data: seq<byte>, p: nat, s: Status, count: nat, q: Query, handler: Handler): (Status, nat)
    requires p <= |data|
    decreases |data| - p
  {
    if p == |data| || !s.verdict.Waiting? then (s, count)
    else if count + 1 > MAX_MESSAGES || !Framed(data, p) then (s.(verdict := Failed), count + 1)
    else Walk(data, Next(data, p), Step(s, MessageAt(data, p), q, handler), count + 1, q, handler)
  }

  /** The datagrams still to come, and what the query has used up of its limits. */
  datatype Socket = Socket(queue: seq<Datagram>, bytes: nat, count: nat)

  /** All datagrams until one decides; running out of them is the deadline. */
  function RunAll(s: Status, k: Socket, q: Query, handler: Handler): (Status, Socket)
    decreases |k.queue|
  {
    if !s.verdict.Waiting? then (s, k)
    else if k.queue == [] || !k.queue[0].trusted || k.queue[0].data == [] || k.bytes + |k.queue[0].data| > MAX_BYTES then
      (s.(verdict := Failed), k)
    else
      var (next, seen) := Walk(k.queue[0].data, 0, s, k.count, q, handler);
      RunAll(next, Socket(k.queue[1..], k.bytes + |k.queue[0].data|, seen), q, handler)
  }

  const START := Status(Waiting, [])

  method Receive(data: seq<byte>, start: Status, before: nat, q: Query, handler: Handler) returns (s: Status, count: nat)
    ensures (s, count) == Walk(data, 0, start, before, q, handler)
  {
    var offset: nat := 0;
    s, count := start, before;
    while offset < |data| && s.verdict.Waiting?
      invariant offset <= |data| && Walk(data, 0, start, before, q, handler) == Walk(data, offset, s, count, q, handler)
      decreases |data| - offset
    {
      count := count + 1;
      if count > MAX_MESSAGES || !Framed(data, offset) {
        s := s.(verdict := Failed);
        return;
      }
      var m := MessageAt(data, offset);
      offset := Next(data, offset);
      s := Step(s, m, q, handler);
    }
  }

  /** The receiving loop. */
  method Exchange(k: Socket, q: Query, handler: Handler) returns (s: Status, rest: Socket)
    ensures (s, rest) == RunAll(START, k, q, handler)
  {
    hide Step, Framed;
    s, rest := START, k;
    while s.verdict.Waiting?
      invariant RunAll(START, k, q, handler) == RunAll(s, rest, q, handler)
      decreases |rest.queue|, s.verdict.Waiting?
    {
      if rest.queue == [] || !rest.queue[0].trusted || rest.queue[0].data == [] {
        s := s.(verdict := Failed);
        return;
      }
      var data := rest.queue[0].data;
      if rest.bytes + |data| > MAX_BYTES {
        s := s.(verdict := Failed);
        return;
      }
      var count;
      s, count := Receive(data, s, rest.count, q, handler);
      rest := Socket(rest.queue[1..], rest.bytes + |data|, count);
    }
  }

  lemma {:induction false} WalkRuns(data: seq<byte>, p: nat, s: Status, count: nat, q: Query, handler: Handler)
    requires p <= |data| && Messages(data, p).Some? && count + |Messages(data, p).value| <= MAX_MESSAGES
    ensures var ms := Messages(data, p).value;
      var (end, seen) := Walk(data, p, s, count, q, handler);
      end == Run(s, ms, q, handler) && seen <= count + |ms|
    decreases |data| - p
  {
    hide Step, Framed, MessageAt;
    if p < |data| && s.verdict.Waiting? {
      var (m, rest) := (MessageAt(data, p), Messages(data, Next(data, p)).value);
      assert ([m] + rest)[1..] == rest;
      WalkRuns(data, Next(data, p), Step(s, m, q, handler), count + 1, q, handler);
    }
  }

  /** All messages of a list of datagrams, if every datagram is tiled by messages. */
  function AllMessages(ds: seq<Datagram>): Option<seq<Message>> {
    if ds == [] then Some([])
    else
      var (a, b) := (Messages(ds[0].data, 0), AllMessages(ds[1..]));
      if a.None? || b.None? then None else Some(a.value + b.value)
  }

  function Size(ds: seq<Datagram>): nat {
    if ds == [] then 0 else |ds[0].data| + Size(ds[1..])
  }

  predicate Received(ds: seq<Datagram>) {
    forall k :: 0 <= k < |ds| ==> ds[k].trusted && ds[k].data != []
  }

  /** Within the limits of the transaction it does not matter how the kernel packs messages into datagrams:
      the outcome is that of the plain list of messages. */
  lemma {:induction false} PackingDoesNotMatter(s: Status, ds: seq<Datagram>, bytes: nat, count: nat, q: Query, handler: Handler)
    requires Received(ds) && AllMessages(ds).Some?
    requires bytes + Size(ds) <= MAX_BYTES && count + |AllMessages(ds).value| <= MAX_MESSAGES
    ensures var (end, run) := (RunAll(s, Socket(ds, bytes, count), q, handler).0, Run(s, AllMessages(ds).value, q, handler));
      end == if run.verdict.Waiting? then run.(verdict := Failed) else run
    decreases |ds|
  {
    hide Step;
    if ds != [] && s.verdict.Waiting? {
      var (a, b) := (Messages(ds[0].data, 0).value, AllMessages(ds[1..]).value);
      WalkRuns(ds[0].data, 0, s, count, q, handler);
      RunSplit(s, a, b, q, handler);
      var (next, seen) := Walk(ds[0].data, 0, s, count, q, handler);
      PackingDoesNotMatter(next, ds[1..], bytes + |ds[0].data|, seen, q, handler);
    }
  }

  // ---- What a handler has agreed to ----------------------------------------------------------------------

  /** Unless the exchange failed, every payload was accepted when it came. */
  predicate Agreed(s: Status, handler: Handler) {
    s.verdict.Failed? || AllAccepted([], s.delivered, handler)
  }

  lemma StepAgreed(s: Status, m: Message, q: Query, handler: Handler)
    requires Agreed(s, handler) && s.verdict.Waiting?
    ensures Agreed(Step(s, m, q, handler), handler)
    ensures !q.dump && Step(s, m, q, handler).verdict.Complete? ==>
      |Step(s, m, q, handler).delivered| == |s.delivered| + 1
    ensures Step(s, m, q, handler).verdict.Waiting? && !q.dump ==> Step(s, m, q, handler).delivered == s.delivered
  {
    var next := Step(s, m, q, handler);
    if !next.verdict.Failed? && next.delivered != s.delivered {
      forall n | 0 < n <= |next.delivered| ensures handler([] + next.delivered[..n]) {
        assert [] + next.delivered[..n] == next.delivered[..n];
        if n <= |s.delivered| {
          assert next.delivered[..n] == s.delivered[..n] == [] + s.delivered[..n];
        } else {
          assert next.delivered[..n] == next.delivered;
        }
      }
    }
  }

  lemma FailedAgreed(s: Status, handler: Handler)
    ensures Agreed(s.(verdict := Failed), handler)
  {}

  lemma {:induction false} WalkAgreed(data: seq<byte>, p: nat, s: Status, count: nat, q: Query, handler: Handler)
    requires p <= |data| && Agreed(s, handler) && (!q.dump ==> s == START)
    ensures var next := Walk(data, p, s, count, q, handler).0;
      Agreed(next, handler) && (!q.dump && next.verdict.Complete? ==> |next.delivered| == 1)
      && (!q.dump && next.verdict.Waiting? ==> next == START)
    decreases |data| - p
  {
    hide Step, Agreed, MessageAt, Framed;
    if p < |data| && s.verdict.Waiting? && count + 1 <= MAX_MESSAGES && Framed(data, p) {
      var next := Step(s, MessageAt(data, p), q, handler);
      StepAgreed(s, MessageAt(data, p), q, handler);
      if next.verdict.Waiting? {
        WalkAgreed(data, Next(data, p), next, count + 1, q, handler);
      }
    } else if p < |data| && s.verdict.Waiting? {
      assert Agreed(s.(verdict := Failed), handler) by { FailedAgreed(s, handler); }
    }
  }

  /** However an exchange ends, short of failing, the handler has accepted what was delivered; a single reply
      that completes is one payload. */
  lemma {:induction false} ExchangeAgreed(s: Status, k: Socket, q: Query, handler: Handler)
    requires Agreed(s, handler) && (!q.dump ==> s == START)
    ensures Agreed(RunAll(s, k, q, handler).0, handler) && !RunAll(s, k, q, handler).0.verdict.Waiting?
    ensures !q.dump && RunAll(s, k, q, handler).0.verdict.Complete? ==> |RunAll(s, k, q, handler).0.delivered| == 1
    decreases |k.queue|
  {
    hide Walk, Agreed;
    FailedAgreed(s, handler);
    if s.verdict.Waiting? && k.queue != [] && k.queue[0].trusted && k.queue[0].data != []
      && k.bytes + |k.queue[0].data| <= MAX_BYTES {
      WalkAgreed(k.queue[0].data, 0, s, k.count, q, handler);
      var (next, seen) := Walk(k.queue[0].data, 0, s, k.count, q, handler);
      if next.verdict.Waiting? {
        ExchangeAgreed(next, Socket(k.queue[1..], k.bytes + |k.queue[0].data|, seen), q, handler);
      }
    }
  }

  // ---- What messages look like and do --------------------------------------------------------------------------

  /** A message as the kernel sends it, with the sender's port and whatever the padding holds. */
  datatype Sent = Sent(message: Message, port: u32, pad: seq<byte>)
  {
    function Size(): nat { 16 + |message.payload| }

    predicate Fits() { Size() < 0x1_0000_0000 && Size() + |pad| == Aligned(Size()) }

    function Wire(): seq<byte> {
      ToLE(Size(), 4) + ToLE(message.kind, 2) + ToLE(message.flags, 2) + ToLE(message.sequence, 4) + ToLE(port, 4)
      + message.payload + pad
    }
  }

  function AllWire(sent: seq<Sent>): seq<byte> {
    if sent == [] then [] else sent[0].Wire() + AllWire(sent[1..])
  }

  /** What a message says is read from the places it was written to. */
  lemma SentRead(data: seq<byte>, p: nat, m: Sent)
    requires m.Fits() && p + |m.Wire()| <= |data| && data[p..p + |m.Wire()|] == m.Wire()
    ensures Framed(data, p) && MessageAt(data, p) == m.message && Next(data, p) == p + |m.Wire()|
  {
    hide ToLE, FromLE;
    Widths();
    var (size, kind, flags) := (ToLE(m.Size(), 4), ToLE(m.message.kind, 2), ToLE(m.message.flags, 2));
    var (sequence, port) := (ToLE(m.message.sequence, 4), ToLE(m.port, 4));
    var tail := m.message.payload + m.pad;
    assert m.Wire() == size + (kind + (flags + (sequence + (port + tail))));
    Located(data, p, size, kind + (flags + (sequence + (port + tail))));
    Located(data, p + 4, kind, flags + (sequence + (port + tail)));
    Located(data, p + 6, flags, sequence + (port + tail));
    Located(data, p + 8, sequence, port + tail);
    Located(data, p + 12, port, tail);
    Located(data, p + 16, m.message.payload, m.pad);
    FromToLE(m.Size(), 4);
    FromToLE(m.message.kind, 2);
    FromToLE(m.message.flags, 2);
    FromToLE(m.message.sequence, 4);
  }

  predicate AllFitIn(sent: seq<Sent>) {
    forall i :: 0 <= i < |sent| ==> sent[i].Fits()
  }

  function Contents(sent: seq<Sent>): (ms: seq<Message>)
    ensures |ms| == |sent| && forall i :: 0 <= i < |ms| ==> ms[i] == sent[i].message
  {
    seq(|sent|, i requires 0 <= i < |sent| => sent[i].message)
  }

  /** A datagram of messages written one behind the other is cut into exactly these. */
  lemma {:induction false} MessagesSent(data: seq<byte>, p: nat, sent: seq<Sent>)
    requires AllFitIn(sent) && p <= |data| && data[p..] == AllWire(sent)
    ensures Messages(data, p) == Some(Contents(sent))
    decreases |sent|
  {
    hide Framed, MessageAt, Sent.Wire, Next, Sent.Fits;
    if sent != [] {
      var (m, rest) := (sent[0], sent[1..]);
      var q := p + |m.Wire()|;
      assert data[p..p + |data[p..]|] == data[p..];
      Located(data, p, m.Wire(), AllWire(rest));
      SentRead(data, p, m);
      assert q > p;
      MessagesSent(data, q, rest);
      assert Contents(sent) == [m.message] + Contents(rest);
    }
  }

  /** A signed 32-bit number in four bytes, possibly with more behind it; an empty payload stands for zero. */
  predicate Code(payload: seq<byte>, code: int) {
    -0x8000_0000 <= code < 0x8000_0000
    && if payload == [] then code == 0
      else |payload| >= 4 && payload[..4] == ToLE(if code < 0 then code + 0x1_0000_0000 else code, 4)
  }

  lemma CodeRead(payload: seq<byte>, code: int)
    ensures Code(payload, code) <==> ErrorOf(payload) == Some(code)
    ensures Code(payload, code) ==> -0x8000_0000 <= code < 0x8000_0000
    ensures 0 < |payload| < 4 <==> ErrorOf(payload) == None
  {
    hide ToLE, FromLE;
    Widths();
    if |payload| >= 4 {
      ToFromLE(payload[..4]);
      if -0x8000_0000 <= code < 0x8000_0000 { FromToLE(if code < 0 then code + 0x1_0000_0000 else code, 4); }
    }
  }

  lemma FifthBit(flags: u16)
    ensures Bit(flags, 4) <==> (flags / 16) % 2 == 1
  {
    assert flags / 2 / 2 / 2 / 2 == flags / 16;
    assert Bit(flags, 4) == Bit(flags / 2, 3) == Bit(flags / 4, 2) == Bit(flags / 8, 1);
  }

  /** Messages of other transactions do nothing. An interrupted dump (flag 16) fails. An acknowledgement (kind 2) or
      end of dump (3) carries a code: a negative one refuses, zero ends a dump or acknowledges. */
  lemma ControlMeans(s: Status, m: Message, q: Query, handler: Handler, code: int)
    ensures m.sequence != q.sequence ==> Step(s, m, q, handler) == s
    ensures m.sequence == q.sequence && (m.flags / 16) % 2 == 1 ==> Step(s, m, q, handler) == s.(verdict := Failed)
    ensures m.sequence == q.sequence && (m.flags / 16) % 2 == 0 && m.kind in {2, 3} && Code(m.payload, code) ==>
      Step(s, m, q, handler) == (
        if code == 0 then (if m.kind == 2 then s else s.(verdict := if q.dump then Complete else Failed))
        else s.(verdict := if -0x8000_0000 < code < 0 then Refused(-code) else Failed))
    ensures m.sequence == q.sequence && m.kind in {2, 3} && 0 < |m.payload| < 4 ==>
      Step(s, m, q, handler) == s.(verdict := Failed)
  {
    hide Code, ErrorOf;
    FifthBit(m.flags);
    CodeRead(m.payload, code);
  }

  /** Any other message must be of the family and the response asked for, behind a four-byte header; the handler has
      the last word about what it says. Without a dump the first one completes the transaction. */
  lemma DataMeans(s: Status, m: Message, q: Query, handler: Handler)
    requires m.sequence == q.sequence && (m.flags / 16) % 2 == 0 && m.kind !in {2, 3}
    ensures Step(s, m, q, handler) == (
      if m.kind == 4 || m.kind != q.family || |m.payload| < 4 || m.payload[0] != q.response then s.(verdict := Failed)
      else
        var delivered := s.delivered + [m.payload[4..]];
        if handler(delivered) then Status(if q.dump then Waiting else Complete, delivered) else Status(Failed, delivered))
  {
    FifthBit(m.flags);
  }

  /** The three kinds of message a dump may hold: its data, those without effect, and its end. */
  lemma KindsMean(m: Message, q: Query)
    ensures Data(m, q) <==> (m.sequence == q.sequence && (m.flags / 16) % 2 == 0 && m.kind !in {2, 3, 4}
      && m.kind == q.family && |m.payload| >= 4 && m.payload[0] == q.response)
    ensures Ignored(m, q) <==>
      m.sequence != q.sequence || ((m.flags / 16) % 2 == 0 && m.kind == 2 && Code(m.payload, 0))
    ensures Ends(m, q) <==>
      m.sequence == q.sequence && (m.flags / 16) % 2 == 0 && m.kind == 3 && Code(m.payload, 0)
  {
    hide Code, ErrorOf;
    FifthBit(m.flags);
    CodeRead(m.payload, 0);
  }
}
