/**
 * Progress of the interleaved writer and reader: if every transfer moves something, all that the
 * messages cover is delivered.
 */
module TcpProgress {
  import opened TcpStream
  import opened TcpTransfer
  import opened Timing

  /** One transfer that moves something: by the writer, or by the reader. */
  datatype Turn = Writes(n: nat) | Reads(n: nat)

  function Take(s: State, turn: Turn): State {
    match turn
    case Writes(n) => Next(s, Send(Moved(n + 1)))
    case Reads(n) => Next(s, Recv(Moved(n + 1)))
  }

  function Turns(s: State, turns: seq<Turn>): State
    decreases |turns|
  {
    if turns == [] then s else Turns(Take(s, turns[0]), turns[1..])
  }

  /** Lengths that survive the cast to 32 bits; a read of nothing counts as the end of the stream. */
  predicate Sendable(messages: seq<seq<Byte>>) {
    forall m :: m in messages ==> |m| < TWO_32
  }

  predicate Readable(requests: seq<nat>) {
    forall r :: r in requests ==> 1 <= r < TWO_32
  }

  /** Nothing has failed, and the reader's buffer is never full between calls. */
  ghost predicate Healthy(s: State) {
    && Conserved(s) && !s.writerFailed && !s.readerFailed
    && Sendable(s.messages) && Readable(s.requests)
    && (s.q < |s.requests| ==> |s.part| < s.requests[s.q])
  }

  /** Messages to begin with, bytes to send (each counts twice, for it has to be read too), bytes to read. */
  function Rest(s: State): nat
    requires Conserved(s)
  {
    (|s.messages| - s.w) + 2 * Unsent(s) + |s.wire|
  }

  function Unsent(s: State): nat
    requires Conserved(s)
  {
    AcceptedIsPrefix(s);
    |Flat(s.messages)| - |Accepted(s)|
  }

  lemma SendLowers(s: State, io: Io)
    requires Conserved(s) && Writing(s) && io.Moved? && io.n >= 1 && |s.messages[s.w]| < TWO_32
    requires Conserved(DoSend(s, io)) && DoSend(s, io).messages == s.messages
    ensures Rest(DoSend(s, io)) < Rest(s)
  {
    AskWithin(|s.messages[s.w]| - s.done);
    SendAccepted(s, io);
  }

  lemma WriteMoves(s: State, n: nat)
    requires Healthy(s)
    ensures var s' := Take(s, Writes(n));
      && Healthy(s') && s'.messages == s.messages && s'.requests == s.requests
      && (if s.w < |s.messages| then Rest(s') < Rest(s) else s' == s)
  {
    NextConserves(s, Send(Moved(n + 1)));
    if s.w < |s.messages| {
      assert s.messages[s.w] in s.messages;
      SendLowers(s, Moved(n + 1));
    }
  }

  lemma RecvLowers(s: State, io: Io)
    requires Conserved(s) && Reading(s) && io.Moved? && io.n >= 1 && s.wire != []
    requires 1 <= s.requests[s.q] < TWO_32 && |s.part| < s.requests[s.q]
    requires Conserved(DoRecv(s, io))
    ensures var s' := DoRecv(s, io);
      && Rest(s') < Rest(s) && !s'.readerFailed
      && (s'.q == s.q ==> |s'.part| < s.requests[s.q]) && (s'.q != s.q ==> s'.part == [])
  {
    AskWithin(s.requests[s.q] - |s.part|);
    assert Accepted(DoRecv(s, io)) == Accepted(s);
  }

  lemma ReadIsRecv(s: State, n: nat)
    requires Healthy(s)
    ensures Take(s, Reads(n)) == if s.q < |s.requests| && s.wire != [] then DoRecv(s, Moved(n + 1)) else s
  {
    if s.q < |s.requests| {
      assert s.requests[s.q] in s.requests;
      AskWithin(s.requests[s.q] - |s.part|);
    }
  }

  lemma ReadMoves(s: State, n: nat)
    requires Healthy(s)
    ensures var s' := Take(s, Reads(n));
      && Healthy(s') && s'.messages == s.messages && s'.requests == s.requests
      && (if s.q < |s.requests| && s.wire != [] then Rest(s') < Rest(s) else s' == s)
  {
    ReadIsRecv(s, n);
    if s.q < |s.requests| && s.wire != [] {
      RecvIsHealthy(s, Moved(n + 1));
    }
  }

  lemma RecvIsHealthy(s: State, io: Io)
    requires Healthy(s) && s.q < |s.requests| && s.wire != [] && io.Moved? && io.n >= 1
    ensures var s' := DoRecv(s, io);
      Healthy(s') && s'.messages == s.messages && s'.requests == s.requests && Rest(s') < Rest(s)
  {
    assert s.requests[s.q] in s.requests;
    RecvConserves(s, io);
    RecvLowers(s, io);
    var s' := DoRecv(s, io);
    if s'.q < |s.requests| { assert s.requests[s'.q] in s.requests; }
  }

  /** All that was sent has been taken, or all that was asked for has been given. */
  predicate Over(s: State) {
    (s.w >= |s.messages| && s.wire == []) || s.q >= |s.requests|
  }

  lemma TurnMoves(s: State, turn: Turn)
    requires Healthy(s)
    ensures var s' := Take(s, turn);
      && Healthy(s') && s'.messages == s.messages && s'.requests == s.requests
      && (s' == s || Rest(s') < Rest(s)) && (Over(s) ==> Over(s'))
      && (turn.Writes? && s.w < |s.messages| ==> s' != s)
      && (turn.Reads? && s.q < |s.requests| && s.wire != [] ==> s' != s)
  {
    match turn
    case Writes(n) => WriteMoves(s, n);
    case Reads(n) =>
      ReadMoves(s, n);
      ReadsTake(s, n);
  }

  lemma ReadsTake(s: State, n: nat)
    requires Healthy(s)
    ensures Take(s, Reads(n)).w == s.w && Take(s, Reads(n)).q >= s.q && |Take(s, Reads(n)).wire| <= |s.wire|
  {
  }

  lemma {:induction false} TurnsMove(s: State, turns: seq<Turn>)
    requires Healthy(s)
    ensures var s' := Turns(s, turns);
      && Healthy(s') && s'.messages == s.messages && s'.requests == s.requests
      && Rest(s') <= Rest(s) && (Over(s) ==> Over(s'))
    decreases |turns|
  {
    if turns != [] {
      TurnMoves(s, turns[0]);
      TurnsMove(Take(s, turns[0]), turns[1..]);
    }
  }

  /** In a round the writer and the reader each have at least one turn, in any order. */
  predicate Round(turns: seq<Turn>) {
    && (exists k :: 0 <= k < |turns| && turns[k].Writes?)
    && (exists k :: 0 <= k < |turns| && turns[k].Reads?)
  }

  /** A turn that moves something now still does when it comes, or something else has moved before. */
  lemma {:induction false} HelpComes(s: State, turns: seq<Turn>, k: nat)
    requires Healthy(s) && k < |turns|
    requires if turns[k].Writes? then s.w < |s.messages| else s.q < |s.requests| && s.wire != []
    ensures Healthy(Turns(s, turns)) && Rest(Turns(s, turns)) < Rest(s)
    decreases |turns|
  {
    TurnMoves(s, turns[0]);
    if Take(s, turns[0]) == s {
      assert turns[k] == turns[1..][k - 1];
      HelpComes(s, turns[1..], k - 1);
    } else {
      TurnsMove(Take(s, turns[0]), turns[1..]);
    }
  }

  lemma RoundMoves(s: State, turns: seq<Turn>)
    requires Healthy(s) && Round(turns) && !Over(s)
    ensures Healthy(Turns(s, turns)) && Rest(Turns(s, turns)) < Rest(s)
  {
    var k: nat :| k < |turns| && if s.w < |s.messages| then turns[k].Writes? else turns[k].Reads?;
    HelpComes(s, turns, k);
  }

  function Rounds(s: State, rounds: seq<seq<Turn>>): State
    decreases |rounds|
  {
    if rounds == [] then s else Rounds(Turns(s, rounds[0]), rounds[1..])
  }

  lemma {:induction false} RoundsEnd(s: State, rounds: seq<seq<Turn>>)
    requires Healthy(s) && forall turns :: turns in rounds ==> Round(turns)
    requires Over(s) || |rounds| >= Rest(s)
    ensures var s' := Rounds(s, rounds);
      Healthy(s') && Over(s') && s'.messages == s.messages && s'.requests == s.requests
    decreases |rounds|
  {
    if rounds != [] {
      TurnsMove(s, rounds[0]);
      if !Over(s) { RoundMoves(s, rounds[0]); }
      RoundsEnd(Turns(s, rounds[0]), rounds[1..]);
    }
  }

  /** How many bytes the first k requests ask for. */
  function Asked(requests: seq<nat>, k: nat): nat
    requires k <= |requests|
  {
    if k == 0 then 0 else Asked(requests, k - 1) + requests[k - 1]
  }

  lemma {:induction false} AskedGrows(requests: seq<nat>, j: nat, k: nat)
    requires j <= k <= |requests|
    ensures Asked(requests, j) <= Asked(requests, k)
  {
    if j < k { AskedGrows(requests, j, k - 1); }
  }

  lemma {:induction false} GivenIsAsked(results: seq<seq<Byte>>, requests: seq<nat>)
    requires |results| <= |requests| && forall i :: 0 <= i < |results| ==> |results[i]| == requests[i]
    ensures |Flat(results)| == Asked(requests, |results|)
  {
    if results != [] {
      GivenIsAsked(results[..|results| - 1], requests);
    }
  }

  /** When it is over, every request that the messages cover has been given in full. */
  lemma OverGivesAll(s: State, k: nat)
    requires Healthy(s) && Over(s) && k <= |s.requests| && Asked(s.requests, k) <= |Flat(s.messages)|
    ensures k <= s.q
  {
    if s.q < k {
      GivenIsAsked(s.results, s.requests);
      AllWasTaken(s);
      AskedGrows(s.requests, s.q + 1, k);
    }
  }

  lemma AllWasTaken(s: State)
    requires Conserved(s) && s.w >= |s.messages| && s.wire == []
    ensures |Flat(s.results)| + |s.part| == |Flat(s.messages)|
  {
    assert s.messages[..s.w] == s.messages;
  }

  lemma StartsHealthy(messages: seq<seq<Byte>>, requests: seq<nat>, schedule: seq<Action>)
    requires Sendable(messages) && Readable(requests)
    requires var s := Run(Init(messages, requests), schedule); !s.writerFailed && !s.readerFailed
    ensures Healthy(Run(Init(messages, requests), schedule))
  {
    RunConserves(messages, requests, schedule);
    RunKeepsRoom(messages, requests, schedule);
  }

  lemma {:induction false} RunKeepsRoom(messages: seq<seq<Byte>>, requests: seq<nat>, schedule: seq<Action>)
    requires Readable(requests)
    ensures var s := Run(Init(messages, requests), schedule);
      s.requests == requests && (s.q < |requests| ==> |s.part| < requests[s.q])
  {
    if schedule == [] {
      assert requests != [] ==> requests[0] in requests;
    } else {
      RunKeepsRoom(messages, requests, schedule[..|schedule| - 1]);
      RunConserves(messages, requests, schedule[..|schedule| - 1]);
      NextKeepsRoom(Run(Init(messages, requests), schedule[..|schedule| - 1]), schedule[|schedule| - 1]);
    }
  }

  lemma NextKeepsRoom(s: State, a: Action)
    requires Readable(s.requests) && Conserved(s) && (s.q < |s.requests| ==> |s.part| < s.requests[s.q])
    ensures var s' := Next(s, a); s'.requests == s.requests && (s'.q < |s.requests| ==> |s'.part| < s.requests[s'.q])
  {
    NextConserves(s, a);
    assert forall i :: 0 <= i < |s.requests| ==> s.requests[i] in s.requests;
  }

  /**
   * Progress, end to end: for messages below 2^32 bytes and read sizes from 1 to 2^32 - 1, after
   * any run in which nothing has failed, enough rounds of transfers that move something, in any
   * order, deliver every request whose bytes the messages cover, and what is delivered is what
   * was sent.
   */
  lemma CoveredRequestsAreDelivered(messages: seq<seq<Byte>>, requests: seq<nat>, schedule: seq<Action>,
                                    rounds: seq<seq<Turn>>, k: nat)
    requires Sendable(messages) && Readable(requests) && forall turns :: turns in rounds ==> Round(turns)
    requires var s := Run(Init(messages, requests), schedule); !s.writerFailed && !s.readerFailed
    requires |rounds| >= |messages| + 2 * |Flat(messages)|
    requires k <= |requests| && Asked(requests, k) <= |Flat(messages)|
    ensures var s := Rounds(Run(Init(messages, requests), schedule), rounds);
      && k <= s.q == |s.results| && !s.readerFailed && !s.writerFailed
      && (forall i :: 0 <= i < s.q ==> i < |requests| && |s.results[i]| == requests[i])
      && Flat(s.results) <= Flat(messages)
  {
    var s := Run(Init(messages, requests), schedule);
    StartsHealthy(messages, requests, schedule);
    RunConserves(messages, requests, schedule);
    RestBound(s);
    RoundsEnd(s, rounds);
    var s' := Rounds(s, rounds);
    OverGivesAll(s', k);
    ResultsArePrefix(s');
  }

  lemma RestBound(s: State)
    requires Conserved(s)
    ensures Rest(s) <= |s.messages| + 2 * |Flat(s.messages)|
  {
    AcceptedIsPrefix(s);
  }
}
