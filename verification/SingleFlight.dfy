/** The TypeScript client's wallet-key fetch: concurrent callers share one request. */
module SingleFlight {
  import opened Options

  type Key = seq<int>

  datatype Fetch = InFlight | Succeeded(key: Key) | Failed

  /** `owed` are the fetches whose starting caller has not yet run its `finally`. */
  datatype State = State(walletKey: Option<Key>, promise: Option<int>, fetches: map<int, Fetch>, owed: set<int>, next: int)

  datatype Event =
    | Call
    | Succeed(fetch: int, key: Key)
    | Fail(fetch: int)
    | Resume(fetch: int)

  datatype Output =
    | Returned(key: Key)
    | Awaits(fetch: int)
    | Started(fetch: int)
    | Quiet

  datatype Reply = Reply(state: State, output: Output)

  function Enter(s: State): Reply {
    if s.walletKey.Some? then Reply(s, Returned(s.walletKey.value))
    else if s.promise.Some? then Reply(s, Awaits(s.promise.value))
    else
      Reply(s.(promise := Some(s.next), fetches := s.fetches[s.next := InFlight], owed := s.owed + {s.next}, next := s.next + 1),
        Started(s.next))
  }

  function IsInFlight(s: State, f: int): bool {
    f in s.fetches && s.fetches[f].InFlight?
  }

  /** The response arrives; a key that is not 32 bytes fails the promise. */
  function Arrive(s: State, f: int, key: Key): State {
    if !IsInFlight(s, f) then s
    else if |key| != 32 then s.(fetches := s.fetches[f := Failed])
    else s.(fetches := s.fetches[f := Succeeded(key)], walletKey := Some(key))
  }

  function Break(s: State, f: int): State {
    if !IsInFlight(s, f) then s else s.(fetches := s.fetches[f := Failed])
  }

  /** The starting caller wakes once its promise has settled and clears the field. */
  function Finally(s: State, f: int): State {
    if f !in s.owed || IsInFlight(s, f) then s else s.(promise := None, owed := s.owed - {f})
  }

  function Step(s: State, e: Event): Reply {
    match e
    case Call => Enter(s)
    case Succeed(f, key) => Reply(Arrive(s, f, key), Quiet)
    case Fail(f) => Reply(Break(s, f), Quiet)
    case Resume(f) => Reply(Finally(s, f), Quiet)
  }

  class Client {
    var walletKey: Option<Key>
    var walletKeyPromise: Option<int>
    var fetches: map<int, Fetch>
    var owed: set<int>
    var next: int

    function Now(): State
      reads this
    {
      State(walletKey, walletKeyPromise, fetches, owed, next)
    }

    constructor ()
      ensures Now() == START
    {
      walletKey, walletKeyPromise, fetches, owed, next := None, None, map[], {}, 0;
    }

    method GetWalletKey() returns (output: Output)
      modifies this
      ensures Reply(Now(), output) == Enter(old(Now()))
    {
      if walletKey.Some? { return Returned(walletKey.value); }
      if walletKeyPromise.Some? { return Awaits(walletKeyPromise.value); }
      var f := next;
      walletKeyPromise, fetches, owed, next := Some(f), fetches[f := InFlight], owed + {f}, f + 1;
      return Started(f);
    }

    method GrantArrives(f: int, key: Key)
      modifies this
      ensures Now() == Arrive(old(Now()), f, key)
    {
      if f !in fetches || !fetches[f].InFlight? { return; }
      if |key| != 32 {
        fetches := fetches[f := Failed];
        return;
      }
      walletKey, fetches := Some(key), fetches[f := Succeeded(key)];
    }

    method RunFinally(f: int)
      modifies this
      ensures Now() == Finally(old(Now()), f)
    {
      if f in owed && !(f in fetches && fetches[f].InFlight?) {
        walletKeyPromise := None;
        owed := owed - {f};
      }
    }
  }

  // ─── Every interleaving ───────────────────────────────────────────────────

  const START := State(None, None, map[], {}, 0)

  datatype History = History(state: State, trace: seq<Output>)

  function Run(events: seq<Event>): (past: History)
    ensures |past.trace| == |events|
  {
    if events == [] then History(START, [])
    else
      var before := Run(events[..|events| - 1]);
      var reply := Step(before.state, events[|events| - 1]);
      History(reply.state, before.trace + [reply.output])
  }

  /** The promise is exactly the one unfinished start, and whatever is in flight is that one. */
  ghost predicate Exclusive(s: State) {
    && (forall f :: f in s.fetches ==> f < s.next)
    && (forall f :: f in s.owed <==> s.promise == Some(f))
    && (forall f :: f in s.fetches && s.fetches[f].InFlight? ==> s.promise == Some(f))
    && (forall f :: f in s.fetches && s.fetches[f].Succeeded? ==> s.walletKey == Some(s.fetches[f].key))
    && (s.promise.Some? ==> s.promise.value in s.fetches && (s.walletKey.Some? ==> !IsInFlight(s, s.promise.value)))
  }

  lemma StepStaysExclusive(s: State, e: Event)
    requires Exclusive(s)
    ensures Exclusive(Step(s, e).state)
    ensures s.walletKey.Some? ==> Step(s, e).state.walletKey == s.walletKey && !Step(s, e).output.Started?
  {
    match e
    case Call =>
    case Succeed(_, _) =>
    case Fail(_) =>
    case Resume(_) =>
  }

  lemma {:induction false} RunIsExclusive(events: seq<Event>)
    ensures Exclusive(Run(events).state)
  {
    if events != [] {
      RunIsExclusive(events[..|events| - 1]);
      StepStaysExclusive(Run(events[..|events| - 1]).state, events[|events| - 1]);
    }
  }

  /** Over all interleavings at most one fetch is in flight. */
  lemma AtMostOneFetch(events: seq<Event>, f: int, g: int)
    requires IsInFlight(Run(events).state, f) && IsInFlight(Run(events).state, g)
    ensures f == g
  {
    RunIsExclusive(events);
  }

  /** Once a key has arrived no fetch starts, and every later call returns that key. */
  lemma {:induction false} KeyNeverChanges(past: seq<Event>, more: seq<Event>)
    requires Run(past).state.walletKey.Some?
    ensures Run(past + more).state.walletKey == Run(past).state.walletKey
    ensures forall i :: |past| <= i < |past + more| ==>
      !Run(past + more).trace[i].Started? && (Run(past + more).trace[i].Returned? ==> Run(past + more).trace[i].key == Run(past).state.walletKey.value)
    decreases |more|
  {
    if more == [] {
      assert past + more == past;
    } else {
      var front := more[..|more| - 1];
      KeyNeverChanges(past, front);
      assert (past + more)[..|past + more| - 1] == past + front;
      RunIsExclusive(past + front);
      StepStaysExclusive(Run(past + front).state, more[|more| - 1]);
    }
  }

  /** A caller that finishes clears the promise it started itself, never another's. */
  lemma FinallyClearsOwnPromise(events: seq<Event>, f: int)
    ensures var s := Run(events).state;
      Finally(s, f) != s ==> s.promise == Some(f) && Finally(s, f) == s.(promise := None, owed := {})
  {
    RunIsExclusive(events);
    var s := Run(events).state;
    if Finally(s, f) != s {
      assert f in s.owed;
      assert s.promise == Some(f);
      forall x | x in s.owed ensures x == f { assert s.promise == Some(x); }
      assert s.owed - {f} == {};
    }
  }

  // ─── What a call gets, from the history alone ─────────────────────────────

  predicate Answers(e: Event, f: int) {
    (e.Succeed? || e.Fail?) && e.fetch == f
  }

  /** Some call started the fetch and no response or failure of it came since. */
  predicate Unanswered(trace: seq<Output>, events: seq<Event>, f: int)
    requires |trace| == |events|
  {
    exists j :: 0 <= j < |trace| && trace[j] == Started(f) && forall i :: j < i < |events| ==> !Answers(events[i], f)
  }

  lemma UnansweredSnoc(trace: seq<Output>, events: seq<Event>, o: Output, e: Event, f: int)
    requires |trace| == |events|
    ensures Unanswered(trace + [o], events + [e], f) <==> o == Started(f) || (Unanswered(trace, events, f) && !Answers(e, f))
  {
    var n, after, all := |events|, trace + [o], events + [e];
    assert after[n] == o && all[n] == e;
    if Unanswered(trace, events, f) && !Answers(e, f) {
      var j :| 0 <= j < n && trace[j] == Started(f) && forall i :: j < i < n ==> !Answers(events[i], f);
      assert after[j] == Started(f) && forall i :: j < i < |all| ==> !Answers(all[i], f);
    }
    if Unanswered(after, all, f) && o != Started(f) {
      var j :| 0 <= j < |after| && after[j] == Started(f) && forall i :: j < i < |all| ==> !Answers(all[i], f);
      assert trace[j] == Started(f);
      forall i | j < i < n ensures !Answers(events[i], f) { assert all[i] == events[i]; }
    }
  }

  lemma StepInFlight(s: State, e: Event, f: int)
    requires Exclusive(s)
    ensures IsInFlight(Step(s, e).state, f) <==> Step(s, e).output == Started(f) || (IsInFlight(s, f) && !Answers(e, f))
  {
  }

  /** A fetch is in flight exactly while it is unanswered. */
  lemma {:induction false} InFlightIff(events: seq<Event>, f: int)
    ensures IsInFlight(Run(events).state, f) <==> Unanswered(Run(events).trace, events, f)
  {
    if events != [] {
      var n := |events| - 1;
      var before := Run(events[..n]);
      var reply := Step(before.state, events[n]);
      InFlightIff(events[..n], f);
      RunIsExclusive(events[..n]);
      assert events == events[..n] + [events[n]] && Run(events) == History(reply.state, before.trace + [reply.output]);
      hide Step, Exclusive, Unanswered, Answers, IsInFlight, Run;
      UnansweredSnoc(before.trace, events[..n], reply.output, events[n], f);
      StepInFlight(before.state, events[n], f);
    }
  }

  /** A response with a 32-byte key to a fetch that was still in flight when it came. */
  predicate Delivers(events: seq<Event>, i: nat)
    requires i < |events|
  {
    events[i].Succeed? && |events[i].key| == 32 && IsInFlight(Run(events[..i]).state, events[i].fetch)
  }

  /** The client has a key if and only if such a response came, and the key is that response's. */
  lemma {:induction false} KeyIff(events: seq<Event>)
    ensures Run(events).state.walletKey.Some? <==> exists i: nat :: i < |events| && Delivers(events, i)
    ensures forall i: nat :: i < |events| && Delivers(events, i) ==> Run(events).state.walletKey == Some(events[i].key)
  {
    if events != [] {
      var n := |events| - 1;
      var front, e := events[..n], events[n];
      KeyIff(front);
      RunIsExclusive(front);
      StepStaysExclusive(Run(front).state, e);
      forall i: nat | i < n ensures Delivers(events, i) <==> Delivers(front, i) { assert events[..i] == front[..i]; }
      var s := Run(front).state;
      assert Run(events).state.walletKey == (if Delivers(events, n) then Some(e.key) else s.walletKey);
      assert Delivers(events, n) ==> s.walletKey.None?;
      hide Run, Delivers, Step;
    }
  }

  lemma OwedIsPromise(s: State)
    requires Exclusive(s)
    ensures s.owed == (if s.promise.Some? then {s.promise.value} else {})
  {
    forall x | x in s.owed ensures s.promise == Some(x) {}
    if s.promise.Some? {
      var v := s.promise.value;
      assert s.promise == Some(v) && v in s.owed;
    }
  }

  /**
    After every run a call gets the key if there is one, else the promise of the one fetch whose
    starter has not finished, else it starts a fetch that no call has started before.
  */
  lemma CallIff(events: seq<Event>)
    ensures var s := Run(events).state; var o := Step(s, Call).output;
      && (forall key :: o == Returned(key) <==> s.walletKey == Some(key))
      && (forall f :: o == Awaits(f) <==> s.walletKey.None? && f in s.owed)
      && (o.Started? <==> s.walletKey.None? && s.owed == {})
      && (o.Started? ==> o.fetch !in s.fetches && Step(s, Call).state.owed == {o.fetch} && IsInFlight(Step(s, Call).state, o.fetch))
  {
    RunIsExclusive(events);
    OwedIsPromise(Run(events).state);
  }

  /** The caller that started the fetch has not run its `finally`, which it does after an answer. */
  predicate Unfinished(trace: seq<Output>, events: seq<Event>, f: int)
    requires |trace| == |events|
  {
    exists j :: 0 <= j < |trace| && trace[j] == Started(f)
      && !exists a, b :: j < a < b < |events| && Answers(events[a], f) && events[b] == Resume(f)
  }

  lemma UnfinishedSnoc(trace: seq<Output>, events: seq<Event>, o: Output, e: Event, f: int)
    requires |trace| == |events|
    requires forall i, j :: 0 <= i < j < |trace| ==> !(trace[i] == Started(f) && trace[j] == Started(f))
    requires o == Started(f) ==> !exists j :: 0 <= j < |trace| && trace[j] == Started(f)
    ensures Unfinished(trace + [o], events + [e], f)
      <==> o == Started(f) || (Unfinished(trace, events, f) && (e == Resume(f) ==> Unanswered(trace, events, f)))
  {
    var n, after, all := |events|, trace + [o], events + [e];
    assert after[n] == o && all[n] == e;
    if o == Started(f) {
    } else if j :| 0 <= j < n && trace[j] == Started(f) {
      assert after[j] == Started(f);
      assert forall i :: 0 <= i < |after| && after[i] == Started(f) ==> i == j;
      assert forall i :: 0 <= i < n ==> all[i] == events[i];
      if e == Resume(f) && !Unanswered(trace, events, f) {
        var a :| j < a < n && Answers(events[a], f);
        assert Answers(all[a], f) && all[n] == Resume(f);
      }
    }
  }

  lemma StartIsNext(s: State, e: Event, f: int)
    ensures s.next <= Step(s, e).state.next
    ensures Step(s, e).output == Started(f) ==> f == s.next && f < Step(s, e).state.next
  {
  }

  lemma {:induction false} StartedBelow(events: seq<Event>, f: int, j: nat)
    requires j < |events| && Run(events).trace[j] == Started(f)
    ensures f < Run(events).state.next
  {
    var n := |events| - 1;
    StartIsNext(Run(events[..n]).state, events[n], f);
    if j < n { StartedBelow(events[..n], f, j); }
  }

  lemma {:induction false} StartsOnce(events: seq<Event>, f: int, i: nat, j: nat)
    requires i < j < |events| && Run(events).trace[i] == Started(f)
    ensures Run(events).trace[j] != Started(f)
  {
    var n := |events| - 1;
    if j < n {
      StartsOnce(events[..n], f, i, j);
    } else {
      StartedBelow(events[..n], f, i);
      StartIsNext(Run(events[..n]).state, events[n], f);
    }
  }

  lemma StepOwed(s: State, e: Event, f: int)
    requires Exclusive(s)
    ensures f in Step(s, e).state.owed <==>
      Step(s, e).output == Started(f) || (f in s.owed && (e == Resume(f) ==> IsInFlight(s, f)))
    ensures Step(s, e).output == Started(f) ==> f == s.next
  {
  }

  /** The promise is there exactly until its starter has finished. */
  lemma {:induction false} PromiseIff(events: seq<Event>, f: int)
    ensures f in Run(events).state.owed <==> Unfinished(Run(events).trace, events, f)
    ensures f in Run(events).state.owed <==> Run(events).state.promise == Some(f)
  {
    RunIsExclusive(events);
    if events != [] {
      var n := |events| - 1;
      var before := Run(events[..n]);
      var reply := Step(before.state, events[n]);
      PromiseIff(events[..n], f);
      RunIsExclusive(events[..n]);
      forall i, j | 0 <= i < j < n ensures !(before.trace[i] == Started(f) && before.trace[j] == Started(f)) {
        if before.trace[i] == Started(f) { StartsOnce(events[..n], f, i, j); }
      }
      forall j | 0 <= j < n && before.trace[j] == Started(f) ensures f < before.state.next { StartedBelow(events[..n], f, j); }
      InFlightIff(events[..n], f);
      assert events == events[..n] + [events[n]] && Run(events) == History(reply.state, before.trace + [reply.output]);
      hide Step, Unfinished, Unanswered, IsInFlight, Run;
      StepOwed(before.state, events[n], f);
      UnfinishedSnoc(before.trace, events[..n], reply.output, events[n], f);
    }
  }
}
