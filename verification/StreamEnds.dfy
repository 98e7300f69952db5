/** Every streaming call returns (src/model_provider.rs), once producer and caller have had turns enough. */
module StreamEnds {
  import opened Streaming

  function Count(moves: seq<Move>, m: Move): nat {
    if moves == [] then 0
    else Count(moves[..|moves| - 1], m) + (if moves[|moves| - 1] == m then 1 else 0)
  }

  /** The turns a producer needs before its last message. */
  function Lines(source: Source): nat {
    match source
    case Refusal(_) => 0
    case Verdicts(verdicts, _) => |verdicts|
  }

  ghost predicate ReadsOn(source: Source, p: Pipe, turns: nat) {
    p.producer.Reading? ==> p.producer.next == turns <= Lines(source)
  }

  lemma ReadsOnStep(source: Source, p: Pipe, m: Move, turns: nat)
    requires ReadsOn(source, p, turns)
    ensures ReadsOn(source, Step(source, p, m), turns + if m.ProducerStep? then 1 else 0)
  {
  }

  /** A producer that has not dropped the channel has read one line a turn. */
  lemma {:induction false} ReadingCounts(source: Source, moves: seq<Move>)
    ensures ReadsOn(source, Run(source, moves), Count(moves, ProducerStep))
  {
    if moves != [] {
      var before := moves[..|moves| - 1];
      ReadingCounts(source, before);
      ReadsOnStep(source, Run(source, before), moves[|moves| - 1], Count(before, ProducerStep));
    }
  }

  /** A caller of a producer that is done has made a callback at every receive, or has returned. */
  ghost predicate KeepsReceiving(p: Pipe, receives: nat) {
    p.producer.Dropped? && (p.consumer.Receiving? ==> receives <= |p.calls|)
  }

  lemma KeepsReceivingStep(source: Source, p: Pipe, m: Move, receives: nat)
    requires Flowing(source, p) && KeepsReceiving(p, receives)
    ensures KeepsReceiving(Step(source, p, m), receives + if m.Receive? then 1 else 0)
  {
    if p.consumer.Receiving? {
      NeverDisconnected(source, p);
    }
  }

  lemma {:induction false} CallsGrow(source: Source, moves: seq<Move>, later: seq<Move>)
    requires Run(source, moves).producer.Dropped?
    ensures KeepsReceiving(Run(source, moves + later), Count(later, Receive))
    decreases |later|
  {
    var all := moves + later;
    if later == [] {
      assert all == moves;
    } else {
      var before := later[..|later| - 1];
      assert all[..|all| - 1] == moves + before;
      CallsGrow(source, moves, before);
      EveryScheduleFlows(source, moves + before);
      KeepsReceivingStep(source, Run(source, moves + before), later[|later| - 1], Count(before, Receive));
    }
  }

  /** A caller still receiving from a producer that is done has not had its last message. */
  lemma MoreToReceive(source: Source, p: Pipe)
    requires Flowing(source, p) && p.producer.Dropped? && p.consumer.Receiving?
    ensures |p.calls| < |AllMessages(source)|
  {
    NeverDisconnected(source, p);
    assert |Received(p.calls) + p.channel + []| == |AllMessages(source)|;
  }

  /** For every response and every schedule: after more turns of the producer than there are lines, and then as many
      receives as there are messages, whatever else happens in between, the call has returned. */
  lemma EveryCallReturns(source: Source, moves: seq<Move>, later: seq<Move>)
    requires Count(moves, ProducerStep) > Lines(source) && Count(later, Receive) >= |AllMessages(source)|
    ensures Run(source, moves + later).consumer.Returned?
  {
    ReadingCounts(source, moves);
    CallsGrow(source, moves, later);
    EveryScheduleFlows(source, moves + later);
    if Run(source, moves + later).consumer.Receiving? {
      MoreToReceive(source, Run(source, moves + later));
    }
  }

  /** There are at most as many messages as lines, and one more. */
  lemma {:induction false} MessagesPerLine(verdicts: seq<Verdict>, endOfBody: string)
    ensures |Messages(verdicts, endOfBody)| <= |verdicts| + 1
  {
    if verdicts != [] {
      MessagesPerLine(verdicts[1..], endOfBody);
    }
  }

  function Times(n: nat, m: Move): seq<Move> {
    seq(n, _ => m)
  }

  lemma {:induction false} CountTimes(moves: seq<Move>, n: nat, m: Move)
    ensures Count(moves + Times(n, m), m) == Count(moves, m) + n
  {
    var all := moves + Times(n, m);
    if n == 0 {
      assert all == moves;
    } else {
      CountTimes(moves, n - 1, m);
      assert all[..|all| - 1] == moves + Times(n - 1, m);
    }
  }

  /** Wherever a call stands, it is that many turns from its end at most. */
  lemma NeverStuck(source: Source, moves: seq<Move>)
    ensures var n := Lines(source) + 1;
            Run(source, moves + Times(n, ProducerStep) + Times(n, Receive)).consumer.Returned?
  {
    var n := Lines(source) + 1;
    CountTimes(moves, n, ProducerStep);
    CountTimes([], n, Receive);
    assert [] + Times(n, Receive) == Times(n, Receive);
    if source.Verdicts? {
      MessagesPerLine(source.verdicts, source.endOfBody);
    }
    EveryCallReturns(source, moves + Times(n, ProducerStep), Times(n, Receive));
  }
}
