/**
 * A writer sending messages with tcp_write_all() and a reader taking them with tcp_read_all(),
 * interleaved one send() or recv() at a time over a byte stream that keeps order.
 */
module TcpStream {
  import opened TcpTransfer
  import opened Timing

  /**
   * The writer is at byte done of message w; the reader has part of its q-th request in its
   * buffer.  wire holds the bytes in between, results what the completed read_all calls gave.
   */
  datatype State = State(
    messages: seq<seq<Byte>>, w: nat, done: nat, writerFailed: bool,
    wire: seq<Byte>,
    requests: seq<nat>, q: nat, part: seq<Byte>, readerFailed: bool, results: seq<seq<Byte>>)

  datatype Action = Send(io: Io) | Recv(io: Io) | Hangup

  function Init(messages: seq<seq<Byte>>, requests: seq<nat>): State {
    State(messages, 0, 0, false, [], requests, 0, [], false, [])
  }

  predicate Writing(s: State) {
    !s.writerFailed && s.w < |s.messages| && s.done <= |s.messages[s.w]|
  }

  predicate Reading(s: State) {
    !s.readerFailed && s.q < |s.requests| && |s.part| <= s.requests[s.q]
  }

  /** One send() in the loop of write_all(); a failing call is the writer's last. */
  function DoSend(s: State, io: Io): State
    requires Writing(s)
  {
    var m := s.messages[s.w];
    if io.Failed? then s.(writerFailed := true)
    else
      AskWithin(|m| - s.done);
      var n := Granted(io.n, Ask(|m| - s.done));
      var s' := s.(wire := s.wire + m[s.done..s.done + n]);
      if s.done + n == |m| then s'.(w := s.w + 1, done := 0) else s'.(done := s.done + n)
  }

  /** One recv() in the loop of read_all(); a call that fails or returns 0 is the reader's last. */
  function DoRecv(s: State, io: Io): State
    requires Reading(s)
  {
    if io.Failed? then s.(readerFailed := true)
    else
      var n := Min(Granted(io.n, Ask(s.requests[s.q] - |s.part|)), |s.wire|);
      var part := s.part + s.wire[..n];
      if n == 0 then s.(readerFailed := true)
      else if |part| == s.requests[s.q]
      then s.(wire := s.wire[n..], part := [], q := s.q + 1, results := s.results + [part])
      else s.(wire := s.wire[n..], part := part)
  }

  /** With nothing on the wire recv() waits, unless the writer has failed or hung up: then it returns 0. */
  function Next(s: State, a: Action): State {
    match a
    case Send(io) => if Writing(s) then DoSend(s, io) else s
    case Recv(io) =>
      if Reading(s) && !(io.Moved? && s.wire == [] && !s.writerFailed && Ask(s.requests[s.q] - |s.part|) > 0)
      then DoRecv(s, io) else s
    case Hangup => s.(writerFailed := true)
  }

  function Run(s: State, schedule: seq<Action>): State {
    if schedule == [] then s else Next(Run(s, schedule[..|schedule| - 1]), schedule[|schedule| - 1])
  }

  function Flat(parts: seq<seq<Byte>>): seq<Byte> {
    if parts == [] then [] else Flat(parts[..|parts| - 1]) + parts[|parts| - 1]
  }

  /** The messages before the w-th, and done bytes of it. */
  function AcceptedAt(messages: seq<seq<Byte>>, w: nat, done: nat): seq<Byte>
    requires w <= |messages| && (w < |messages| ==> done <= |messages[w]|)
  {
    Flat(messages[..w]) + (if w < |messages| then messages[w][..done] else [])
  }

  /** The bytes the network has accepted from the writer. */
  function Accepted(s: State): seq<Byte>
    requires s.w <= |s.messages| && (s.w < |s.messages| ==> s.done <= |s.messages[s.w]|)
  {
    AcceptedAt(s.messages, s.w, s.done)
  }

  /** What the reader has been given, holds in its buffer, and can still take. */
  function Ahead(s: State): seq<Byte> {
    AheadOf(s.results, s.part, s.wire)
  }

  function AheadOf(results: seq<seq<Byte>>, part: seq<Byte>, wire: seq<Byte>): seq<Byte> {
    Flat(results) + part + wire
  }

  /** What the network has accepted is what was delivered, what is in the reader's buffer, and what is on the wire. */
  ghost predicate Conserved(s: State) {
    && s.w <= |s.messages| && (if s.w < |s.messages| then s.done <= |s.messages[s.w]| else s.done == 0)
    && Accepted(s) == Ahead(s)
    && s.q <= |s.requests| && |s.results| == s.q
    && (forall i :: 0 <= i < s.q ==> |s.results[i]| == s.requests[i])
    && (s.q < |s.requests| ==> |s.part| <= s.requests[s.q])
  }

  lemma FlatSnoc(parts: seq<seq<Byte>>, last: seq<Byte>)
    ensures Flat(parts + [last]) == Flat(parts) + last
  {
    assert (parts + [last])[..|parts|] == parts;
  }

  lemma SendAccepts(messages: seq<seq<Byte>>, w: nat, done: nat, n: nat)
    requires w < |messages| && done + n <= |messages[w]|
    ensures done + n < |messages[w]| ==>
      AcceptedAt(messages, w, done + n) == AcceptedAt(messages, w, done) + messages[w][done..done + n]
    ensures done + n == |messages[w]| ==>
      AcceptedAt(messages, w + 1, 0) == AcceptedAt(messages, w, done) + messages[w][done..done + n]
  {
    var m, before := messages[w], Flat(messages[..w]);
    assert before + m[..done] + m[done..done + n] == before + m[..done + n];
    if done + n == |m| {
      assert messages[..w + 1] == messages[..w] + [m];
      FlatSnoc(messages[..w], m);
      assert m[..|m|] == m;
      assert w + 1 < |messages| ==> messages[w + 1][..0] == [];
    }
  }

  /** What send() moves is accepted at one end and can be taken at the other. */
  lemma SendAhead(s: State, io: Io)
    requires Writing(s) && io.Moved?
    ensures var n := Granted(io.n, Ask(|s.messages[s.w]| - s.done));
      && s.done + n <= |s.messages[s.w]|
      && Ahead(DoSend(s, io)) == Ahead(s) + s.messages[s.w][s.done..s.done + n]
  {
    var m := s.messages[s.w];
    AskWithin(|m| - s.done);
    var n := Granted(io.n, Ask(|m| - s.done));
    Associates(Flat(s.results) + s.part, s.wire, m[s.done..s.done + n]);
  }

  lemma SendAccepted(s: State, io: Io)
    requires Writing(s) && io.Moved?
    ensures var n := Granted(io.n, Ask(|s.messages[s.w]| - s.done));
      && s.done + n <= |s.messages[s.w]|
      && Accepted(DoSend(s, io)) == Accepted(s) + s.messages[s.w][s.done..s.done + n]
  {
    AskWithin(|s.messages[s.w]| - s.done);
    SendAccepts(s.messages, s.w, s.done, Granted(io.n, Ask(|s.messages[s.w]| - s.done)));
  }

  lemma SendConserves(s: State, io: Io)
    requires Conserved(s) && Writing(s)
    ensures Conserved(DoSend(s, io))
  {
    if io.Moved? {
      SendAhead(s, io);
      SendAccepted(s, io);
    } else {
      assert Accepted(DoSend(s, io)) == Accepted(s);
    }
  }

  lemma Associates(a: seq<Byte>, b: seq<Byte>, c: seq<Byte>)
    ensures a + b + c == a + (b + c)
  {
  }

  lemma RecvKeepsStream(s: State, io: Io)
    requires Reading(s)
    ensures Ahead(DoRecv(s, io)) == Ahead(s)
  {
    if io.Moved? {
      var n := Min(Granted(io.n, Ask(s.requests[s.q] - |s.part|)), |s.wire|);
      TakenFromWire(s.results, s.part, s.wire, n);
      RecvMoves(s, io, n);
    }
  }

  lemma RecvMoves(s: State, io: Io, n: nat)
    requires Reading(s) && io.Moved? && n == Min(Granted(io.n, Ask(s.requests[s.q] - |s.part|)), |s.wire|)
    ensures var s', part := DoRecv(s, io), s.part + s.wire[..n];
      || (s'.results == s.results && s'.part == s.part && s'.wire == s.wire)
      || (s'.results == s.results && s'.part == part && s'.wire == s.wire[n..])
      || (s'.results == s.results + [part] && s'.part == [] && s'.wire == s.wire[n..])
  {
  }

  /** Bytes that move from the wire to the buffer, and from a full buffer to the results, stay in order. */
  lemma TakenFromWire(results: seq<seq<Byte>>, part: seq<Byte>, wire: seq<Byte>, n: nat)
    requires n <= |wire|
    ensures AheadOf(results, part + wire[..n], wire[n..]) == AheadOf(results, part, wire)
    ensures AheadOf(results + [part + wire[..n]], [], wire[n..]) == AheadOf(results, part, wire)
  {
    MovedToPart(Flat(results), part, wire, n);
    FlatSnoc(results, part + wire[..n]);
    Associates(Flat(results), part, wire[..n]);
  }

  lemma RecvConserves(s: State, io: Io)
    requires Conserved(s) && Reading(s)
    ensures Conserved(DoRecv(s, io))
  {
    RecvKeepsStream(s, io);
    RecvFillsRequests(s, io);
    assert Accepted(DoRecv(s, io)) == Accepted(s);
  }

  lemma RecvFillsRequests(s: State, io: Io)
    requires Reading(s) && |s.results| == s.q && forall i :: 0 <= i < s.q ==> |s.results[i]| == s.requests[i]
    ensures var s' := DoRecv(s, io);
      && s'.q <= |s'.requests| && |s'.results| == s'.q
      && (forall i :: 0 <= i < s'.q ==> |s'.results[i]| == s'.requests[i])
      && (s'.q < |s'.requests| ==> |s'.part| <= s'.requests[s'.q])
      && s'.messages == s.messages && s'.w == s.w && s'.done == s.done
  {
    AskWithin(s.requests[s.q] - |s.part|);
  }

  lemma MovedToPart(given: seq<Byte>, part: seq<Byte>, wire: seq<Byte>, n: nat)
    requires n <= |wire|
    ensures given + part + wire == given + (part + wire[..n]) + wire[n..]
    ensures given + part + wire == given + (part + wire[..n]) + [] + wire[n..]
  {
    assert wire == wire[..n] + wire[n..];
  }

  lemma NextConserves(s: State, a: Action)
    requires Conserved(s)
    ensures Conserved(Next(s, a)) && Next(s, a).messages == s.messages && Next(s, a).requests == s.requests
  {
    match a
    case Send(io) => if Writing(s) { SendConserves(s, io); }
    case Recv(io) => if Reading(s) { RecvConserves(s, io); }
    case Hangup => assert Accepted(s.(writerFailed := true)) == Accepted(s);
  }

  lemma InitConserves(messages: seq<seq<Byte>>, requests: seq<nat>)
    ensures Conserved(Init(messages, requests))
  {
    assert messages != [] ==> messages[0][..0] == [];
    assert messages[..0] == [];
  }

  lemma {:induction false} RunConserves(messages: seq<seq<Byte>>, requests: seq<nat>, schedule: seq<Action>)
    ensures var s := Run(Init(messages, requests), schedule);
      Conserved(s) && s.messages == messages && s.requests == requests
  {
    if schedule == [] {
      InitConserves(messages, requests);
    } else {
      RunConserves(messages, requests, schedule[..|schedule| - 1]);
      NextConserves(Run(Init(messages, requests), schedule[..|schedule| - 1]), schedule[|schedule| - 1]);
    }
  }

  lemma {:induction false} FlatPrefix(parts: seq<seq<Byte>>, k: nat)
    requires k <= |parts|
    ensures Flat(parts[..k]) <= Flat(parts)
  {
    if k < |parts| {
      var n := |parts| - 1;
      FlatPrefix(parts[..n], k);
      assert parts[..n][..k] == parts[..k];
    } else {
      assert parts[..k] == parts;
    }
  }

  /** What the network has accepted is a prefix of the messages put together. */
  lemma AcceptedIsPrefix(s: State)
    requires s.w <= |s.messages| && (if s.w < |s.messages| then s.done <= |s.messages[s.w]| else s.done == 0)
    ensures Accepted(s) <= Flat(s.messages)
  {
    var messages := s.messages;
    FlatPrefix(messages, s.w);
    if s.w < |messages| {
      var m := messages[s.w];
      assert messages[..s.w + 1] == messages[..s.w] + [m];
      FlatSnoc(messages[..s.w], m);
      FlatPrefix(messages, s.w + 1);
      PrefixOfPrefix(Flat(messages[..s.w]) + m[..s.done], Flat(messages[..s.w]) + m, Flat(messages));
    }
  }

  // The two ends of the stream are sockets, and its steps are their transfers.

  /** A writer whose socket has sent what the network accepted makes one step with one transfer. */
  method SendThrough(s: State, socket: Socket, io: Io)
    requires Conserved(s) && Writing(s) && socket.sent == Accepted(s)
    modifies socket`sent, socket`calls, socket`last
    ensures Conserved(DoSend(s, io)) && socket.sent == Accepted(DoSend(s, io))
  {
    var ok, n := socket.Write(s.messages[s.w], s.done, io);
    SendConserves(s, io);
    SendAddsWhatMoved(s, io, n);
  }

  lemma SendAddsWhatMoved(s: State, io: Io, n: nat)
    requires Conserved(s) && Writing(s) && Conserved(DoSend(s, io))
    requires n == if io.Moved? then Granted(io.n, Ask(|s.messages[s.w]| - s.done)) else 0
    ensures s.done + n <= |s.messages[s.w]|
    ensures Accepted(DoSend(s, io)) == Accepted(s) + s.messages[s.w][s.done..s.done + n]
  {
    if io.Moved? {
      SendAccepted(s, io);
    } else {
      assert Accepted(DoSend(s, io)) == Accepted(s);
    }
  }

  /** So does a reader whose socket holds the wire and whose buffer holds the part. */
  method RecvThrough(s: State, socket: Socket, buf: array<Byte>, io: Io)
    requires Conserved(s) && Reading(s) && socket.incoming == s.wire
    requires s.requests[s.q] <= buf.Length && buf[..|s.part|] == s.part
    modifies socket`incoming, socket`calls, socket`last, buf
    ensures Conserved(DoRecv(s, io)) && socket.incoming == DoRecv(s, io).wire
    ensures Lands(s, DoRecv(s, io), buf[..])
  {
    var ok, n := socket.Read(buf, |s.part|, s.requests[s.q], io);
    assert buf[..][..|s.part| + n] == buf[..|s.part| + n];
    RecvIs(s, io, n, buf[..]);
  }

  /** The buffer holds the part, or the whole request just completed. */
  ghost predicate Lands(s: State, s': State, buf: seq<Byte>) {
    if s'.q == s.q then |s'.part| <= |buf| && buf[..|s'.part|] == s'.part
    else s.q < |s'.results| && |s'.results[s.q]| <= |buf| && buf[..|s'.results[s.q]|] == s'.results[s.q]
  }

  lemma RecvLands(s: State, io: Io, n: nat, buf: seq<Byte>)
    requires Reading(s) && |s.results| == s.q && |s.part| + n <= |buf| && n <= |s.wire|
    requires n == if io.Moved? then Min(Granted(io.n, Ask(s.requests[s.q] - |s.part|)), |s.wire|) else 0
    requires buf[..|s.part| + n] == s.part + s.wire[..n]
    ensures DoRecv(s, io).wire == s.wire[n..] && Lands(s, DoRecv(s, io), buf)
  {
    assert |s.part + s.wire[..n]| == |s.part| + n;
  }

  lemma RecvIs(s: State, io: Io, n: nat, buf: seq<Byte>)
    requires Conserved(s) && Reading(s) && |s.part| + n <= |buf| && n <= |s.wire|
    requires n == if io.Moved? then Min(Granted(io.n, Ask(s.requests[s.q] - |s.part|)), |s.wire|) else 0
    requires buf[..|s.part| + n] == s.part + s.wire[..n]
    ensures Conserved(DoRecv(s, io)) && DoRecv(s, io).wire == s.wire[n..] && Lands(s, DoRecv(s, io), buf)
  {
    RecvConserves(s, io);
    RecvLands(s, io, n, buf);
  }

  /**
   * The reader's calls end without success exactly when recv() fails, when the writer's end is
   * closed and nothing is left, or when recv() moves nothing of what is there.
   */
  lemma ReaderEndsIff(s: State, io: Io)
    requires Conserved(s) && Reading(s) && |s.part| < s.requests[s.q] < TWO_32
    ensures Next(s, Recv(io)).readerFailed <==>
      io.Failed? || (s.wire == [] && s.writerFailed) || (s.wire != [] && io.n == 0)
  {
    AskWithin(s.requests[s.q] - |s.part|);
  }

  /**
   * End to end: for any messages, read sizes, segmentation by send() and recv(), interleaving
   * and failures, the bytes that successful read_all calls have delivered are a prefix of the
   * messages put together.
   */
  lemma DeliveredIsPrefix(messages: seq<seq<Byte>>, requests: seq<nat>, schedule: seq<Action>)
    ensures Flat(Run(Init(messages, requests), schedule).results) <= Flat(messages)
  {
    RunConserves(messages, requests, schedule);
    ResultsArePrefix(Run(Init(messages, requests), schedule));
  }

  lemma ResultsArePrefix(s: State)
    requires Conserved(s)
    ensures Flat(s.results) <= Flat(s.messages)
  {
    AcceptedIsPrefix(s);
    Associates(Flat(s.results), s.part, s.wire);
    PrefixOfPrefix(Flat(s.results), Accepted(s), Flat(s.messages));
  }

  lemma PrefixOfPrefix(a: seq<Byte>, b: seq<Byte>, c: seq<Byte>)
    requires a <= b <= c
    ensures a <= c
  {
  }

  /** If the reader asks for the sizes of the messages, each read_all gives exactly one message. */
  lemma MessagesArriveWhole(messages: seq<seq<Byte>>, requests: seq<nat>, schedule: seq<Action>)
    requires |requests| == |messages| && forall i :: 0 <= i < |messages| ==> requests[i] == |messages[i]|
    ensures var s := Run(Init(messages, requests), schedule);
      s.q <= |messages| && s.results == messages[..s.q]
  {
    RunConserves(messages, requests, schedule);
    DeliveredIsPrefix(messages, requests, schedule);
    var s := Run(Init(messages, requests), schedule);
    FlatPrefix(messages, s.q);
    SameCuts(s.results, messages[..s.q], Flat(messages));
  }

  /** Two ways to cut prefixes of one stream into pieces of the same lengths give the same pieces. */
  lemma {:induction false} SameCuts(a: seq<seq<Byte>>, b: seq<seq<Byte>>, stream: seq<Byte>)
    requires |a| == |b| && Flat(a) <= stream && Flat(b) <= stream
    requires forall i :: 0 <= i < |a| ==> |a[i]| == |b[i]|
    ensures a == b && Flat(a) == Flat(b)
  {
    if a != [] {
      var n := |a| - 1;
      assert Flat(a) == Flat(a[..n]) + a[n] && Flat(b) == Flat(b[..n]) + b[n];
      SameCuts(a[..n], b[..n], stream);
      var start := |Flat(a[..n])|;
      assert a[n] == stream[start..start + |a[n]|] == b[n];
      assert a == a[..n] + [a[n]] && b == b[..n] + [b[n]];
    }
  }
}
