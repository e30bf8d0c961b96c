/**
 The Kafka worker (`_process_message` and the poll loop of `run_worker`) on one assigned partition whose offsets have no
 gaps.
*/
module Worker {
  // ---------------------------------------------------------------- one message

  /** How an attempt to process a message ends inside the pipeline, or before it is reached. */
  datatype Outcome =
    | NotADictionary
    | NoEvidenceId
    | NoSession
    | Processed
    | OperationalError
    | IntegrityError(rollbackFails: bool)
    | AlreadyRunning
    | AlreadySucceeded
    | OtherValueError
    | OtherError

  /** What the loop sees: the return value of `_process_message`, or an exception that escapes it. */
  datatype Result = Returned(ok: bool) | Escaped

  /** A session was opened, which has to be closed whatever happens. */
  predicate OpensSession(o: Outcome) { !o.NotADictionary? && !o.NoEvidenceId? && !o.NoSession? }

  /**
   A message is handed back for a retry if and only if the database failed or another worker holds the job; an exception
   escapes if and only if it happens outside the handlers, the one that closing the session raises after any outcome included.
  */
  method ProcessMessage(o: Outcome, closeFails: bool) returns (r: Result)
    ensures r == Returned(false) <==> (o.OperationalError? || o.AlreadyRunning?) && !closeFails
    ensures r == Escaped <==> o.NotADictionary? || o.NoSession? || (o.IntegrityError? && o.rollbackFails) || (closeFails && OpensSession(o))
  {
    match o {
      case NotADictionary => return Escaped;
      case NoEvidenceId => return Returned(true);
      case NoSession => return Escaped;
      case Processed => r := Returned(true);
      case OperationalError => r := Returned(false);
      case IntegrityError(rollbackFails) => r := if rollbackFails then Escaped else Returned(true);
      case AlreadyRunning => r := Returned(false);
      case AlreadySucceeded => r := Returned(true);
      case OtherValueError => r := Returned(true);
      case OtherError => r := Returned(true);
    }
    if closeFails {
      r := Escaped;
    }
  }

  // ---------------------------------------------------------------- the partition

  /** The next offset to fetch, the committed offset, and the offsets whose processing has returned True. */
  datatype State = State(position: nat, committed: nat, acked: set<nat>)

  /**
   A turn of the loop fetches a batch, with the result each message would have and whether the broker accepts the commit or
   seek that follows. A restart or rebalance goes back to the committed offset.
  */
  datatype Action = PollFails | Turn(results: seq<Result>, brokerAnswers: bool) | Restart

  /** How many messages of a batch return True before the first that does not. */
  function Good(results: seq<Result>): (n: nat)
    ensures n <= |results| && (forall i | 0 <= i < n :: results[i] == Returned(true))
    ensures n < |results| ==> results[n] != Returned(true)
  {
    if results != [] && results[0] == Returned(true) then 1 + Good(results[1..]) else 0
  }

  function Span(from: nat, to: nat): (s: set<nat>)
    ensures forall o: nat :: o in s <==> from <= o < to
  {
    if from >= to then {} else Span(from, to - 1) + {to - 1}
  }

  predicate Commits(a: Action) { a.Turn? && a.results != [] && Good(a.results) == |a.results| && a.brokerAnswers }

  /** The turn hands the batch back. */
  predicate SeeksBack(a: Action) {
    a.Turn? && Good(a.results) < |a.results| && a.results[Good(a.results)].Returned? && a.brokerAnswers
  }

  /** The turn leaves a message behind that has not returned True: an exception escaped, or the seek failed. */
  predicate Abandons(a: Action) { a.Turn? && Good(a.results) < |a.results| && !SeeksBack(a) }

  function Next(s: State, a: Action): State {
    match a
    case PollFails => s
    case Restart => s.(position := s.committed)
    case Turn(results, _) =>
      State(if SeeksBack(a) then s.position else s.position + |results|,
            if Commits(a) then s.position + |results| else s.committed,
            s.acked + Span(s.position, s.position + Good(results)))
  }

  /** The first `n` results are all True. */
  predicate AllTrue(results: seq<Result>, n: nat) { n <= |results| && forall i | 0 <= i < n :: results[i] == Returned(true) }

  /** The first result that is not True hands the message back. */
  predicate HandsBack(results: seq<Result>) {
    exists n: nat :: n < |results| && AllTrue(results, n) && results[n] == Returned(false)
  }

  /**
   One turn in plain terms: only a batch that is True throughout is committed, only one whose first other result is False is
   fetched again, either if the broker answers, and only what comes before the first other result counts as processed.
  */
  ghost predicate TurnInColumns(s: State, results: seq<Result>, brokerAnswers: bool, t: State) {
    && t.committed == (if brokerAnswers && results != [] && AllTrue(results, |results|) then s.position + |results| else s.committed)
    && t.position == (if brokerAnswers && HandsBack(results) then s.position else s.position + |results|)
    && (forall o :: o in t.acked <==> o in s.acked || (s.position <= o < s.position + |results| && AllTrue(results, o - s.position + 1)))
  }

  lemma NextInColumns(s: State, results: seq<Result>, brokerAnswers: bool)
    ensures TurnInColumns(s, results, brokerAnswers, Next(s, Turn(results, brokerAnswers)))
  {
    var n := Good(results);
    assert AllTrue(results, n);
    assert AllTrue(results, |results|) <==> n == |results|;
    if n < |results| && results[n].Returned? {
      assert results[n] == Returned(false);
    }
    if HandsBack(results) {
      var m: nat :| m < |results| && AllTrue(results, m) && results[m] == Returned(false);
      assert m == n;
    }
  }

  // ---------------------------------------------------------------- the program

  class Consumer {
    var position: nat
    var committed: nat
    ghost var acked: set<nat>

    ghost function Now(): State
      reads this
    {
      State(position, committed, acked)
    }

    constructor (start: nat)
      ensures Now() == State(start, start, {})
    {
      position, committed, acked := start, start, {};
    }

    /** The messages of a fetched batch, until one does not return True. */
    method Deliver(results: seq<Result>, first: nat) returns (good: nat)
      modifies this`acked
      ensures good == Good(results)
      ensures acked == old(acked) + Span(first, first + Good(results))
    {
      good := 0;
      while good < |results| && results[good] == Returned(true)
        invariant good <= |results| && good + Good(results[good..]) == Good(results)
        invariant acked == old(acked) + Span(first, first + good)
      {
        assert results[good..][1..] == results[good + 1..];
        assert Span(first, first + good + 1) == Span(first, first + good) + {first + good};
        acked := acked + {first + good};
        good := good + 1;
      }
    }

    /** One turn of the poll loop, with every exception it swallows. */
    method PollTurn(results: seq<Result>, brokerAnswers: bool)
      modifies this
      ensures Now() == Next(old(Now()), Turn(results, brokerAnswers))
      ensures TurnInColumns(old(Now()), results, brokerAnswers, Now())
    {
      NextInColumns(Now(), results, brokerAnswers);
      var first := position;
      position := position + |results|;
      if results != [] {
        var good := Deliver(results, first);
        if good == |results| {
          if brokerAnswers {
            committed := position;
          }
        } else if results[good].Returned? {
          if brokerAnswers {
            position := first;
          }
        }
      }
    }

    /** A restart or rebalance. */
    method Reassign()
      modifies this
      ensures Now() == Next(old(Now()), Restart) && position == committed == old(committed) && acked == old(acked)
    {
      position := committed;
    }

    /** The loop of `run_worker`, for whatever happens in its turns; `states` lists where it came through. */
    method Play(actions: seq<Action>) returns (ghost states: seq<State>)
      modifies this
      ensures Steps(states, actions) && states[0] == old(Now()) && states[|actions|] == Now()
      ensures IsRun(states, actions) ==> (Safe(Now()) <==> !Loses(states, actions))
    {
      states := [Now()];
      for i := 0 to |actions|
        invariant Steps(states, actions[..i]) && states[0] == old(Now()) && states[i] == Now()
      {
        match actions[i] {
          case PollFails =>
          case Turn(results, brokerAnswers) => PollTurn(results, brokerAnswers);
          case Restart => Reassign();
        }
        states := states + [Now()];
      }
      assert actions[..|actions|] == actions;
      if IsRun(states, actions) {
        SafeIffNothingAbandonedIsPassed(states, actions);
      }
    }
  }

  // ---------------------------------------------------------------- runs

  /** Every turn leads from one state to the next. */
  ghost predicate Steps(states: seq<State>, actions: seq<Action>) {
    |states| == |actions| + 1 && forall k | 0 <= k < |actions| :: states[k + 1] == Next(states[k], actions[k])
  }

  ghost predicate IsRun(states: seq<State>, actions: seq<Action>) {
    && |states| == |actions| + 1
    && states[0].position == states[0].committed
    && (forall o | 0 <= o < states[0].committed :: o in states[0].acked)
    && Steps(states, actions)
  }

  /** Nothing below the committed offset still waits for a successful processing. */
  ghost predicate Safe(s: State) {
    forall o | 0 <= o < s.committed :: o in s.acked
  }

  /** Turn `i` leaves offset `o` of its batch behind, and no restart up to state `k` brings it back. */
  ghost predicate LeftBehind(states: seq<State>, actions: seq<Action>, i: nat, o: nat, k: nat)
    requires IsRun(states, actions) && k < |states|
  {
    && i < k && Abandons(actions[i])
    && states[i].position <= o < states[i].position + |actions[i].results| && o !in states[i + 1].acked
    && forall j | i < j < k :: actions[j] != Restart
  }

  /** A turn abandons a message, and a later turn commits without a restart in between. */
  ghost predicate Loses(states: seq<State>, actions: seq<Action>)
    requires IsRun(states, actions)
  {
    exists i: nat, o: nat, k: nat :: k < |actions| && LeftBehind(states, actions, i, o, k) && Commits(actions[k])
  }

  lemma {:induction false} Basics(states: seq<State>, actions: seq<Action>, i: nat, k: nat)
    requires IsRun(states, actions) && i <= k < |states|
    ensures states[i].acked <= states[k].acked && states[i].committed <= states[k].committed <= states[k].position
    ensures (forall j | i <= j < k :: actions[j] != Restart) ==> states[i].position <= states[k].position
    decreases k
  {
    if k > 0 {
      Basics(states, actions, k - 1, k - 1);
      if i < k { Basics(states, actions, i, k - 1); }
    }
  }

  /** An offset is acknowledged only by a turn that starts at or below it. */
  lemma {:induction false} NotAckedAbove(states: seq<State>, actions: seq<Action>, i: nat, k: nat, o: nat)
    requires IsRun(states, actions) && i <= k < |states| && o !in states[i].acked
    requires forall j | i <= j < k :: o < states[j].position
    ensures o !in states[k].acked
    decreases k
  {
    if i < k {
      NotAckedAbove(states, actions, i, k - 1, o);
      assert o < states[k - 1].position;
    }
  }

  /** What is left behind and then passed by a commit is never processed again. */
  lemma LostForever(states: seq<State>, actions: seq<Action>, i: nat, o: nat, k: nat)
    requires IsRun(states, actions) && k < |actions| && LeftBehind(states, actions, i, o, k) && Commits(actions[k])
    ensures o < states[|actions|].committed && o !in states[|actions|].acked
  {
    Basics(states, actions, k + 1, |actions|);
    forall j | i + 1 <= j < |actions| ensures o < states[j].position {
      if j <= k {
        Basics(states, actions, i + 1, j);
      } else {
        Basics(states, actions, i + 1, k);
        Basics(states, actions, k + 1, j);
      }
    }
    NotAckedAbove(states, actions, i + 1, |actions|, o);
  }

  /** An offset that was fetched but neither committed nor acknowledged was left behind. */
  lemma {:induction false} FindGap(states: seq<State>, actions: seq<Action>, k: nat, o: nat) returns (i: nat)
    requires IsRun(states, actions) && k < |states|
    requires states[k].committed <= o < states[k].position && o !in states[k].acked
    ensures LeftBehind(states, actions, i, o, k)
    decreases k
  {
    Basics(states, actions, k - 1, k);
    if o < states[k - 1].position {
      i := FindGap(states, actions, k - 1, o);
    } else {
      i := k - 1;
    }
  }

  lemma {:induction false} FindLoss(states: seq<State>, actions: seq<Action>, k: nat, o: nat)
    requires IsRun(states, actions) && k < |states| && o < states[k].committed && o !in states[k].acked
    ensures Loses(states, actions)
    decreases k
  {
    if k > 0 {
      Basics(states, actions, k - 1, k);
      if o < states[k - 1].committed {
        FindLoss(states, actions, k - 1, o);
      } else {
        assert Commits(actions[k - 1]);
        var i := FindGap(states, actions, k - 1, o);
      }
    }
  }

  /**
   The committed offset never passes a message that did not return True, if and only if no turn commits after a turn that
   abandoned a message and before a restart.
  */
  lemma SafeIffNothingAbandonedIsPassed(states: seq<State>, actions: seq<Action>)
    requires IsRun(states, actions)
    ensures Safe(states[|actions|]) <==> !Loses(states, actions)
  {
    if !Safe(states[|actions|]) {
      var o: nat :| o < states[|actions|].committed && o !in states[|actions|].acked;
      FindLoss(states, actions, |actions|, o);
    }
    if Loses(states, actions) {
      var i: nat, o: nat, k: nat :| k < |actions| && LeftBehind(states, actions, i, o, k) && Commits(actions[k]);
      LostForever(states, actions, i, o, k);
    }
  }

  /** Messages that are only ever handed back for a retry are not lost, and come first in the next batch. */
  lemma RetriesAreSafe(states: seq<State>, actions: seq<Action>)
    requires IsRun(states, actions) && forall k | 0 <= k < |actions| :: !Abandons(actions[k])
    ensures Safe(states[|actions|])
    ensures forall k | 0 <= k < |actions| && SeeksBack(actions[k]) :: states[k + 1].position == states[k].position
  {
    SafeIffNothingAbandonedIsPassed(states, actions);
  }

  /** An escaping exception loses its message as soon as the next batch succeeds. */
  lemma EscapeLosesMessage()
    ensures var actions := [Turn([Escaped], true), Turn([Returned(true)], true)];
            var states := [State(0, 0, {}), State(1, 0, {}), State(2, 2, {1})];
            IsRun(states, actions) && !Safe(states[2])
  {
    var actions := [Turn([Escaped], true), Turn([Returned(true)], true)];
    assert Good([Escaped]) == 0;
    assert [Returned(true)][1..] == [];
    assert Good([Returned(true)]) == 1;
    assert Span(1, 2) == {1};
    assert Span(0, 0) == {};
    var states := [State(0, 0, {}), State(1, 0, {}), State(2, 2, {1})];
    assert states[1] == Next(states[0], actions[0]);
    assert states[2] == Next(states[1], actions[1]);
    assert 0 !in states[2].acked;
  }
}
