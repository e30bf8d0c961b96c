/**
 From human decisions to merged nodes: every sequence of candidate generation and decisions, followed by
 `approved_merges`.
*/
module MergeTheorem {
  import opened Common
  import opened Matching
  import opened Profiles
  import opened Review
  import opened Resolution
  import UF = UnionFind

  /** The candidate rows and the review log of a case. */
  datatype Case = Case(candidates: map<Id, Candidate>, reviews: seq<Entry>)

  datatype Action =
    | Generate(ev: Evidence, ratio: Ratio)
    | OnCandidate(m: Id, decision: Decision, id: Id)
    | OnClaim(c: Id, decision: Decision, id: Id)

  const EMPTY := Case(map[], [])

  ghost predicate Step(s: Case, a: Action, t: Case) {
    match a
    case Generate(ev, ratio) => t.reviews == s.reviews && Generated(ev, ratio, s.candidates, t.candidates)
    case OnCandidate(m, decision, id) => Decided(s.candidates, s.reviews, m, decision, id, t.candidates, t.reviews)
    case OnClaim(c, decision, id) =>
      t.candidates == s.candidates && t.reviews == s.reviews + [Entry(id, CLAIM, c, decision, LastId(LogOf(s.reviews, CLAIM, c)))]
  }

  /** The states a case goes through, from the empty one. */
  ghost predicate IsRun(cases: seq<Case>, actions: seq<Action>) {
    |cases| == |actions| + 1 && cases[0] == EMPTY && forall i | 0 <= i < |actions| :: Step(cases[i], actions[i], cases[i + 1])
  }

  ghost predicate CaseOk(s: Case) { Consistent(s.candidates, s.reviews) && OnePerPair(s.candidates) }

  lemma DecidingKeepsPairs(s: Case, m: Id, decision: Decision, id: Id, t: Case)
    requires OnePerPair(s.candidates) && Step(s, OnCandidate(m, decision, id), t)
    ensures OnePerPair(t.candidates)
  {
    assert forall k | k in s.candidates :: PairOf(t.candidates[k]) == PairOf(s.candidates[k]);
  }

  lemma DecisionStepKeeps(s: Case, m: Id, decision: Decision, id: Id, t: Case)
    requires CaseOk(s) && Step(s, OnCandidate(m, decision, id), t)
    ensures CaseOk(t)
  {
    DecidedKeeps(s.candidates, s.reviews, m, decision, id, t.candidates, t.reviews);
    DecidingKeepsPairs(s, m, decision, id, t);
  }

  lemma ClaimStepKeeps(s: Case, c: Id, decision: Decision, id: Id, t: Case)
    requires CaseOk(s) && Step(s, OnClaim(c, decision, id), t)
    ensures CaseOk(t)
  {
    var r := Entry(id, CLAIM, c, decision, LastId(LogOf(s.reviews, CLAIM, c)));
    AppendKeepsChains(s.reviews, r);
    ClaimReviewKeepsStates(s.candidates, s.reviews, r);
  }

  lemma StepKeeps(s: Case, a: Action, t: Case)
    requires CaseOk(s) && Step(s, a, t)
    ensures CaseOk(t)
  {
    match a
    case Generate(ev, ratio) =>
      var input: Input :| input.ratio == ratio && BuiltFrom(input, ev) && Passed(input, s.candidates, t.candidates, AllPairs(input));
      PassKeepsConsistent(input, s.candidates, t.candidates, s.reviews);
    case OnCandidate(m, decision, id) => DecisionStepKeeps(s, m, decision, id, t);
    case OnClaim(c, decision, id) => ClaimStepKeeps(s, c, decision, id, t);
  }

  lemma {:induction false} RunKeeps(cases: seq<Case>, actions: seq<Action>, i: nat)
    requires IsRun(cases, actions) && i < |cases|
    ensures CaseOk(cases[i])
  {
    if i == 0 {
      assert forall kind, target :: LogOf([], kind, target) == [];
    } else {
      RunKeeps(cases, actions, i - 1);
      StepKeeps(cases[i - 1], actions[i - 1], cases[i]);
    }
  }

  // ---------------------------------------------------------------- merged means approved by people

  /** The latest decision of people on candidate `m` is APPROVE. */
  ghost predicate Approved(s: Case, m: Id) {
    var log := LogOf(s.reviews, MATCH, m);
    m in s.candidates && log != [] && log[|log| - 1].decision == APPROVE
  }

  predicate Joins(c: Candidate, x: Id, y: Id) { (c.left == x && c.right == y) || (c.left == y && c.right == x) }

  /** `x` and `y` are the two entities of a candidate whose latest decision is APPROVE. */
  ghost predicate ApprovedMatch(s: Case, x: Id, y: Id) {
    exists m :: Approved(s, m) && Joins(s.candidates[m], x, y)
  }

  ghost predicate ApprovedChain(s: Case, chain: seq<Id>) {
    chain != [] && forall i | 0 <= i < |chain| - 1 :: ApprovedMatch(s, chain[i], chain[i + 1])
  }

  ghost predicate ConnectedByApproval(s: Case, x: Id, y: Id) {
    exists chain :: ApprovedChain(s, chain) && chain[0] == x && chain[|chain| - 1] == y
  }

  /** `pairs` lists the entities of the rows whose state is APPROVE, in any order the query may return. */
  ghost predicate ListsApproved(s: Case, pairs: seq<UF.Pair>) {
    && (forall m | m in s.candidates && s.candidates[m].state == APPROVE :: (s.candidates[m].left, s.candidates[m].right) in pairs)
    && (forall p | p in pairs :: exists m :: m in s.candidates && s.candidates[m].state == APPROVE && (s.candidates[m].left, s.candidates[m].right) == p)
  }

  lemma StateIsLatestDecision(s: Case, m: Id)
    requires CaseOk(s) && m in s.candidates
    ensures s.candidates[m].state == APPROVE <==> Approved(s, m)
  {
  }

  lemma LinkIsApproved(s: Case, pairs: seq<UF.Pair>, x: Id, y: Id)
    requires CaseOk(s) && ListsApproved(s, pairs)
    ensures ((x, y) in pairs || (y, x) in pairs) <==> ApprovedMatch(s, x, y)
  {
    if (x, y) in pairs {
      var m :| m in s.candidates && s.candidates[m].state == APPROVE && (s.candidates[m].left, s.candidates[m].right) == (x, y);
      StateIsLatestDecision(s, m);
    } else if (y, x) in pairs {
      var m :| m in s.candidates && s.candidates[m].state == APPROVE && (s.candidates[m].left, s.candidates[m].right) == (y, x);
      StateIsLatestDecision(s, m);
    }
    if ApprovedMatch(s, x, y) {
      var m :| Approved(s, m) && Joins(s.candidates[m], x, y);
      StateIsLatestDecision(s, m);
    }
  }

  lemma ChainsAgree(s: Case, pairs: seq<UF.Pair>, c: seq<Id>)
    requires CaseOk(s) && ListsApproved(s, pairs)
    ensures UF.IsChain(pairs, c) <==> ApprovedChain(s, c)
  {
    forall i | 0 <= i < |c| - 1
      ensures ((c[i], c[i + 1]) in pairs || (c[i + 1], c[i]) in pairs) <==> ApprovedMatch(s, c[i], c[i + 1])
    {
      LinkIsApproved(s, pairs, c[i], c[i + 1]);
    }
  }

  /**
   After any run, two entities share a representative in the map `approved_merges` returns if and only if a chain of
   candidates whose latest decision is APPROVE connects them: nothing is merged without approval, and a reversed or
   overruled approval no longer merges.
  */
  lemma MergesFollowDecisions(cases: seq<Case>, actions: seq<Action>, pairs: seq<UF.Pair>, x: Id, y: Id)
    requires IsRun(cases, actions) && ListsApproved(cases[|actions|], pairs)
    ensures UF.Rep(UF.QuickFind(pairs), x) == UF.Rep(UF.QuickFind(pairs), y) <==> ConnectedByApproval(cases[|actions|], x, y)
  {
    var s := cases[|actions|];
    RunKeeps(cases, actions, |actions|);
    UF.SameRepresentativeIffLinked(pairs, x, y);
    forall c: seq<Id> ensures UF.IsChain(pairs, c) <==> ApprovedChain(s, c) {
      ChainsAgree(s, pairs, c);
    }
    if UF.Linked(pairs, x, y) {
      var c :| UF.IsChain(pairs, c) && c[0] == x && c[|c| - 1] == y;
      assert ApprovedChain(s, c);
    }
    if ConnectedByApproval(s, x, y) {
      var c :| ApprovedChain(s, c) && c[0] == x && c[|c| - 1] == y;
      assert UF.IsChain(pairs, c);
    }
  }

  lemma EachSupersedesTheLast(log: seq<Entry>, k: nat)
    requires Linear(log) && k < |log|
    ensures log[k].supersedes == if k == 0 then None else Some(log[k - 1].id)
  {
    assert log[..k] == [] || log[..k][k - 1] == log[k - 1];
  }

  lemma LogsDecide(s: Case, m: Id)
    requires CaseOk(s) && m in s.candidates
    ensures s.candidates[m].state == CandidateState(LogOf(s.reviews, MATCH, m)) && Linear(LogOf(s.reviews, MATCH, m))
    ensures forall n | n in s.candidates && n != m :: PairOf(s.candidates[n]) != PairOf(s.candidates[m])
  {
  }

  /**
   After any run the log of every candidate is one chain of supersessions and its fold is the candidate's state, and
   no two rows propose the same unordered pair.
  */
  lemma LogsDecideStates(cases: seq<Case>, actions: seq<Action>, m: Id)
    requires IsRun(cases, actions) && m in cases[|actions|].candidates
    ensures var s := cases[|actions|]; var log := LogOf(s.reviews, MATCH, m);
            && s.candidates[m].state == CandidateState(log)
            && (forall k | 0 <= k < |log| :: log[k].supersedes == if k == 0 then None else Some(log[k - 1].id))
            && (forall n | n in s.candidates && n != m :: PairOf(s.candidates[n]) != PairOf(s.candidates[m]))
  {
    RunKeeps(cases, actions, |actions|);
    LogsDecide(cases[|actions|], m);
    var log := LogOf(cases[|actions|].reviews, MATCH, m);
    forall k | 0 <= k < |log| ensures log[k].supersedes == if k == 0 then None else Some(log[k - 1].id) {
      EachSupersedesTheLast(log, k);
    }
  }

  lemma GenerationKeepsApprovals(s: Case, ev: Evidence, ratio: Ratio, t: Case, m: Id)
    requires CaseOk(s) && Step(s, Generate(ev, ratio), t)
    ensures Approved(s, m) <==> Approved(t, m)
    ensures m in s.candidates ==> t.candidates[m].left == s.candidates[m].left && t.candidates[m].right == s.candidates[m].right
  {
    if m in s.candidates {
      var input: Input :| input.ratio == ratio && BuiltFrom(input, ev) && Passed(input, s.candidates, t.candidates, AllPairs(input));
      DecisionsSurvive(input, s.candidates, t.candidates, m);
    } else {
      NoLogWithoutReviews(s.reviews, MATCH, m);
    }
  }

  /** Generation never changes what is merged: it neither approves nor withdraws anything. */
  lemma GenerationMergesNothing(s: Case, ev: Evidence, ratio: Ratio, t: Case, x: Id, y: Id)
    requires CaseOk(s) && Step(s, Generate(ev, ratio), t)
    ensures ApprovedMatch(s, x, y) <==> ApprovedMatch(t, x, y)
  {
    if ApprovedMatch(t, x, y) {
      var m :| Approved(t, m) && Joins(t.candidates[m], x, y);
      GenerationKeepsApprovals(s, ev, ratio, t, m);
    }
    if ApprovedMatch(s, x, y) {
      var m :| Approved(s, m) && Joins(s.candidates[m], x, y);
      GenerationKeepsApprovals(s, ev, ratio, t, m);
    }
  }
}
