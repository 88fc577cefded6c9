/** A publisher, a broker that may reorder and duplicate, and a consumer, taken together. */
module SyncEndToEnd {
  import opened SyncSchema
  import opened SyncProtocol
  import opened SyncApply
  import opened SyncRuns
  import opened SyncRegions
  import opened SyncConvergence
  import opened SyncMirror
  import Pub = SyncPublisher

  /** Every delivery carries a row whose number the broker received. */
  predicate FromBroker(run: seq<Delivery>, emitter: string, p: Pub.State) {
    forall i :: 0 <= i < |run| ==> Carries(run[i].message, emitter, p)
  }

  predicate Carries(message: Message, emitter: string, p: Pub.State) {
    && (message.TransactionMessage? || message.AckMessage?)
    && message.seqNo in p.broker && message.seqNo in p.log
    && message == MessageOf(emitter, message.seqNo, p.log[message.seqNo])
  }

  /** At least once: every number the broker received is delivered in the run. */
  predicate AtLeastOnce(run: seq<Delivery>, emitter: string, p: Pub.State) {
    forall q :: q in p.broker ==> DeliveredIn(run, map[emitter := p.log], emitter, q)
  }

  lemma FromBrokerIsGenuine(run: seq<Delivery>, emitter: string, p: Pub.State)
    requires FromBroker(run, emitter, p)
    ensures AllGenuine(map[emitter := p.log], run)
  {
    forall i | 0 <= i < |run| ensures Genuine(map[emitter := p.log], run[i].message) {
      assert Carries(run[i].message, emitter, p);
    }
  }

  /**
    From one end to the other: once the publisher's cursor is past its log, whatever crashes both
    sides went through, at-least-once delivery that is not cut short leaves the consumer with the
    fold of the longest initial run of transactions that each commit after those before; this is all
    of them exactly when they are densely numbered, supported and applicable, and it is the
    emitter's own table if each of its writes up to there is harmless.
  */
  lemma Replicates(emitter: string, self: string, base: Rows, events: seq<Pub.Event>,
      past: seq<Delivery>, clean: seq<Delivery>)
    requires emitter != self && Pub.AllInOrder(Pub.INITIAL, events)
    requires var p := Pub.Run(Pub.INITIAL, events);
      && (forall q :: q in p.log ==> q <= p.cursor)
      && FromBroker(past, emitter, p) && FromBroker(clean, emitter, p)
      && AtLeastOnce(clean, emitter, p)
    requires Uncut(self, SyncRuns.Run(self, Empty(base), past), clean)
    ensures var log := Pub.Run(Pub.INITIAL, events).log;
      var end := SyncRuns.Run(self, Empty(base), past + clean);
      && LastApplied(end, emitter) == GoodPrefix(base, log)
      && end.table == Fold(base, log, GoodPrefix(base, log))
      && (AllApplied(log, end, emitter) <==> DenselyNumbered(log) && EachApplicable(base, log))
      && (Integral(base) && WellFormed(log) && (forall i :: 1 <= i <= GoodPrefix(base, log) ==> HarmlessAt(base, log, i)) ==>
        end.table == Own(base, log, GoodPrefix(base, log)))
  {
    var p := Pub.Run(Pub.INITIAL, events);
    var log := p.log;
    Pub.NothingLost(events);
    FromBrokerIsGenuine(past, emitter, p);
    FromBrokerIsGenuine(clean, emitter, p);
    assert DeliversAll(clean, map[emitter := log], emitter);
    hide Pub.Run, SyncRuns.Run, Uncut, GoodPrefix, Fold, Own, DenselyNumbered, EachApplicable, HarmlessAt, WellFormed, Integral;
    SingleWriterTable(self, log, base, emitter, past, clean);
    AllGoodIff(base, log);
    if Integral(base) && WellFormed(log) {
      MirroredIffHarmless(base, log, GoodPrefix(base, log));
      if MirroredUpTo(base, log, GoodPrefix(base, log)) { MirroredTables(base, log, GoodPrefix(base, log)); }
    }
  }
}
