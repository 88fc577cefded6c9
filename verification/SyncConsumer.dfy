/**
  The receiving side: duplicates are ignored, the expected transaction is applied, anything
  further ahead is shelved, and the shelf is drained in cascade.

  Each call is granted a number of commits. When they run out it is cut short, which stands for a
  lost connection (the message is dropped) and for a process crash alike. A constraint violation
  raises however many are granted, and the message is dropped too.
*/
module SyncConsumer {
  import opened SyncProtocol
  import opened SyncApply

  function Shelve(store: Store, peer: string, seqNo: int, tx: Transaction): Store {
    if (peer, seqNo) in store.shelf then store
    else store.(shelf := store.shelf[(peer, seqNo) := Decodable(tx)])
  }

  function Unshelve(store: Store, peer: string, seqNo: int): Store {
    store.(shelf := store.shelf - {(peer, seqNo)})
  }

  /** Draining the shelf of a peer: apply the next number while it is on the shelf. */
  function Drain(store: Store, left: nat, peer: string): Outcome
    decreases |store.shelf|
  {
    var next := LastApplied(store, peer) + 1;
    if peer !in store.states || (peer, next) !in store.shelf then Outcome(store, left, Finished)
    else
      assert |(store.shelf - {(peer, next)}).Keys| < |store.shelf.Keys| by {
        assert (store.shelf - {(peer, next)}).Keys == store.shelf.Keys - {(peer, next)};
      }
      match store.shelf[(peer, next)]
      case Undecodable =>
        if left == 0 then Outcome(store, 0, Cut)
        else Drain(Unshelve(store, peer, next), left - 1, peer)
      case Decodable(tx) =>
        var applied := Apply(store, left, peer, next, tx);
        if !applied.end.Finished? then applied
        else if applied.left == 0 then Outcome(applied.store, 0, Cut)
        else Drain(Unshelve(applied.store, peer, next), applied.left - 1, peer)
  }

  lemma ApplyKeepsShelf(store: Store, left: nat, peer: string, seqNo: int, tx: Transaction)
    ensures Apply(store, left, peer, seqNo, tx).store.shelf == store.shelf
  {
  }

  function HandleTransaction(store: Store, left: nat, peer: string, seqNo: int, tx: Transaction): Outcome {
    var last := LastApplied(store, peer);
    if seqNo <= last then Outcome(store, left, Finished)
    else if seqNo != last + 1 then
      if left == 0 then Outcome(store, 0, Cut)
      else
        var shelved := Shelve(store, peer, seqNo, tx);
        if left == 1 then Outcome(shelved, 0, Cut)
        else Outcome(shelved.(states := BumpReceived(shelved.states, peer, seqNo)), left - 2, Finished)
    else
      var applied := Apply(store, left, peer, seqNo, tx);
      if applied.end.Finished? then Drain(applied.store, applied.left, peer) else applied
  }

  /** One received message: own messages, acks and hellos change nothing. */
  function Handle(self: string, store: Store, left: nat, message: Message): Outcome {
    match message
    case TransactionMessage(emitter, seqNo, tx) =>
      if emitter == self then Outcome(store, left, Finished)
      else HandleTransaction(store, left, emitter, seqNo, tx)
    case _ => Outcome(store, left, Finished)
  }

  class Consumer {
    const instanceId: string
    const db: Database

    constructor (instanceId: string, db: Database)
      ensures this.instanceId == instanceId && this.db == db
    {
      this.instanceId, this.db := instanceId, db;
    }

    method DrainShelf(left: nat, peer: string) returns (remaining: nat, end: End)
      modifies db
      ensures Outcome(db.Stored(), remaining, end) == Drain(old(db.Stored()), left, peer)
    {
      hide Apply;
      remaining := left;
      while true
        invariant Drain(db.Stored(), remaining, peer) == Drain(old(db.Stored()), left, peer)
        decreases |db.shelf|
      {
        if peer !in db.states { return remaining, Finished; }
        var next := db.states[peer].lastApplied + 1;
        if (peer, next) !in db.shelf { return remaining, Finished; }
        var row := db.shelf[(peer, next)];
        ghost var shelf := db.shelf;
        if row.Decodable? {
          ApplyKeepsShelf(db.Stored(), remaining, peer, next, row.tx);
          remaining, end := db.ApplyTransactionInTx(remaining, peer, next, row.tx);
          if !end.Finished? { return; }
        }
        if remaining == 0 { return 0, Cut; }
        db.RemoveShelved(peer, next);
        remaining := remaining - 1;
        assert db.shelf.Keys == shelf.Keys - {(peer, next)};
        assert |db.shelf.Keys| < |shelf.Keys|;
      }
    }

    method HandleOneTransaction(left: nat, peer: string, seqNo: int, tx: Transaction)
      returns (remaining: nat, end: End)
      modifies db
      ensures Outcome(db.Stored(), remaining, end) == HandleTransaction(old(db.Stored()), left, peer, seqNo, tx)
    {
      var last := if peer in db.states then db.states[peer].lastApplied else 0;
      if seqNo <= last { return left, Finished; }
      if seqNo != last + 1 {
        if left == 0 { return 0, Cut; }
        db.ShelveMessage(peer, seqNo, tx);
        if left == 1 { return 0, Cut; }
        db.UpsertReceived(peer, seqNo);
        return left - 2, Finished;
      }
      remaining, end := db.ApplyTransactionInTx(left, peer, seqNo, tx);
      if end.Finished? {
        remaining, end := DrainShelf(remaining, peer);
      }
    }

    /** Exceptions are logged and swallowed here, so the next message is handled as usual. */
    method HandleMessageSafe(left: nat, message: Message) returns (remaining: nat, end: End)
      modifies db
      ensures Outcome(db.Stored(), remaining, end) == Handle(instanceId, old(db.Stored()), left, message)
    {
      match message
      case TransactionMessage(emitter, seqNo, tx) =>
        if emitter == instanceId { return left, Finished; }
        remaining, end := HandleOneTransaction(left, emitter, seqNo, tx);
      case _ =>
        return left, Finished;
    }
  }
}
