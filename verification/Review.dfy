/**
 Human decisions (`decide` and `decide_claim` of `review_routes.py`): the append-only review log and the
 states that follow from it.
*/
module Review {
  import opened Common
  import opened Matching

  /** The shared vocabulary of decisions, candidate states and claim states. */
  datatype Word = ALLOWED | REVIEW_REQUIRED | APPROVE | REJECT | DEFER | REVERSE | STALE | CONTRADICTORY

  /** What a request may ask for. */
  type Decision = w: Word | w != ALLOWED && w != REVIEW_REQUIRED witness APPROVE

  datatype Kind = MATCH | CLAIM

  datatype Entry = Entry(id: Id, kind: Kind, target: Id, decision: Decision, supersedes: Option<Id>)

  datatype Answer = Done | NotFound | NothingToReverse | Unprocessable

  // ---------------------------------------------------------------- the log

  /** The reviews of one target, oldest first. */
  function LogOf(reviews: seq<Entry>, kind: Kind, target: Id): seq<Entry> {
    if reviews == [] then []
    else
      var before, r := LogOf(reviews[..|reviews| - 1], kind, target), reviews[|reviews| - 1];
      if r.kind == kind && r.target == target then before + [r] else before
  }

  function LastOf(log: seq<Entry>): Option<Entry> {
    if log == [] then None else Some(log[|log| - 1])
  }

  function LastId(log: seq<Entry>): Option<Id> {
    if log == [] then None else Some(log[|log| - 1].id)
  }

  /** The state of a candidate that its log alone determines. */
  function CandidateState(log: seq<Entry>): Word {
    if log == [] || log[|log| - 1].decision == REVERSE then REVIEW_REQUIRED else log[|log| - 1].decision
  }

  /** Each review of a target supersedes the one before it, and only the first supersedes none. */
  ghost predicate Linear(log: seq<Entry>) {
    forall k :: 0 <= k < |log| ==> log[k].supersedes == LastId(log[..k])
  }

  lemma LinearAppend(log: seq<Entry>, r: Entry)
    requires Linear(log) && r.supersedes == LastId(log)
    ensures Linear(log + [r])
  {
    forall k | 0 <= k < |log + [r]| ensures (log + [r])[k].supersedes == LastId((log + [r])[..k]) {
      assert (log + [r])[..k] == log[..k];
      assert k == |log| ==> log[..k] == log;
    }
  }

  // ---------------------------------------------------------------- candidates

  /** A proposed identity match between two entities. */
  datatype Candidate = Candidate(left: Id, right: Id, state: Word, assessment: Assessment)

  /** Which human answers a candidate's request gets, before anything is written. */
  function CandidateAnswer(known: bool, log: seq<Entry>, decision: Decision): Answer {
    if !known then NotFound
    else if decision == CONTRADICTORY then Unprocessable
    else if decision == REVERSE && (log == [] || log[|log| - 1].decision == REVERSE) then NothingToReverse
    else Done
  }

  // ---------------------------------------------------------------- claims

  /** The part of a claim that reviews and contradiction flags touch. */
  datatype Claim = Claim(source: Id, attribute: Id, isAttribute: bool, value: Option<Id>, state: Word,
          contradicts: seq<Id>)

  function ClaimAnswer(known: bool, log: seq<Entry>, decision: Decision): Answer {
    if !known then NotFound else if decision == REVERSE && log == [] then NothingToReverse else Done
  }

  function ClaimStateAfter(c: Claim, decision: Decision): Word {
    if decision == REVERSE then (if c.contradicts != [] then CONTRADICTORY else ALLOWED)
    else if decision == APPROVE then ALLOWED
    else decision
  }

  /** No review is about a row that does not exist. */
  ghost predicate OnRows(candidates: map<Id, Candidate>, reviews: seq<Entry>) {
    forall r | r in reviews && r.kind == MATCH :: r.target in candidates
  }

  /** Every candidate's state is the fold of its own reviews, and every log is one chain of supersessions. */
  ghost predicate Consistent(candidates: map<Id, Candidate>, reviews: seq<Entry>) {
    && OnRows(candidates, reviews)
    && (forall m | m in candidates :: candidates[m].state == CandidateState(LogOf(reviews, MATCH, m)))
    && (forall kind, target :: Linear(LogOf(reviews, kind, target)))
  }

  /** A candidate decision that has been written. */
  ghost predicate Decided(candidates: map<Id, Candidate>, reviews: seq<Entry>, m: Id, decision: Decision, id: Id,
          candidates': map<Id, Candidate>, reviews': seq<Entry>)
  {
    && CandidateAnswer(m in candidates, LogOf(reviews, MATCH, m), decision) == Done
    && candidates' == candidates[m := candidates[m].(state := if decision == REVERSE then REVIEW_REQUIRED else decision)]
    && reviews' == reviews + [Entry(id, MATCH, m, decision, LastId(LogOf(reviews, MATCH, m)))]
  }

  lemma {:induction false} NoLogWithoutReviews(reviews: seq<Entry>, kind: Kind, target: Id)
    requires forall r | r in reviews :: !(r.kind == kind && r.target == target)
    ensures LogOf(reviews, kind, target) == []
  {
    if reviews != [] {
      assert reviews[|reviews| - 1] in reviews;
      NoLogWithoutReviews(reviews[..|reviews| - 1], kind, target);
    }
  }

  lemma AppendKeepsChains(reviews: seq<Entry>, r: Entry)
    requires forall kind, target :: Linear(LogOf(reviews, kind, target))
    requires r.supersedes == LastId(LogOf(reviews, r.kind, r.target))
    ensures forall kind, target :: Linear(LogOf(reviews + [r], kind, target))
  {
    forall kind, target ensures Linear(LogOf(reviews + [r], kind, target)) {
      if r.kind == kind && r.target == target {
        LinearAppend(LogOf(reviews, kind, target), r);
      }
    }
  }

  /** Decisions keep states and logs consistent. */
  lemma DecidedKeeps(candidates: map<Id, Candidate>, reviews: seq<Entry>, m: Id, decision: Decision, id: Id,
          candidates': map<Id, Candidate>, reviews': seq<Entry>)
    requires Consistent(candidates, reviews)
    requires Decided(candidates, reviews, m, decision, id, candidates', reviews')
    ensures Consistent(candidates', reviews')
  {
    var r := Entry(id, MATCH, m, decision, LastId(LogOf(reviews, MATCH, m)));
    AppendKeepsChains(reviews, r);
    assert candidates'.Keys == candidates.Keys;
    forall k | k in candidates ensures candidates'[k].state == CandidateState(LogOf(reviews', MATCH, k)) {
    }
  }

  // ---------------------------------------------------------------- the program

  class CaseReviews {
    var candidates: map<Id, Candidate>
    var claims: map<Id, Claim>
    var reviews: seq<Entry>

    ghost predicate Valid()
      reads this
    {
      Consistent(candidates, reviews)
    }

    constructor (claims: map<Id, Claim>)
      ensures Valid() && candidates == map[] && reviews == [] && this.claims == claims
    {
      candidates, reviews, this.claims := map[], [], claims;
      new;
      assert forall kind, target :: LogOf([], kind, target) == [];
    }

    /** The latest review of one target. */
    method Last(kind: Kind, target: Id) returns (last: Option<Entry>)
      ensures last == LastOf(LogOf(reviews, kind, target))
    {
      var i := |reviews|;
      assert reviews[..i] == reviews;
      while i > 0
        invariant 0 <= i <= |reviews|
        invariant LogOf(reviews, kind, target) == LogOf(reviews[..i], kind, target)
      {
        i := i - 1;
        assert reviews[..i + 1][..i] == reviews[..i];
        if reviews[i].kind == kind && reviews[i].target == target {
          return Some(reviews[i]);
        }
      }
      return None;
    }

    /** A decision on an identity-match candidate; `newId` is the new review's id. */
    method Decide(m: Id, decision: Decision, newId: Id) returns (answer: Answer)
      requires Valid()
      modifies this`candidates, this`reviews
      ensures Valid()
      ensures answer == CandidateAnswer(m in old(candidates), LogOf(old(reviews), MATCH, m), decision)
      ensures answer == NotFound <==> m !in old(candidates)
      ensures answer == Unprocessable <==> m in old(candidates) && decision == CONTRADICTORY
      ensures answer == NothingToReverse <==>
                && m in old(candidates) && decision == REVERSE
                && (var log := LogOf(old(reviews), MATCH, m); log == [] || log[|log| - 1].decision == REVERSE)
      ensures answer == Done ==> m in candidates && candidates[m].state == if decision == REVERSE then REVIEW_REQUIRED else decision
      ensures answer == Done ==> Decided(old(candidates), old(reviews), m, decision, newId, candidates, reviews)
      ensures answer != Done ==> candidates == old(candidates) && reviews == old(reviews)
    {
      if m !in candidates {
        return NotFound;
      }
      if decision == CONTRADICTORY {
        return Unprocessable;
      }
      var last := Last(MATCH, m);
      var row := candidates[m];
      if decision == REVERSE {
        if last.None? || last.value.decision == REVERSE {
          return NothingToReverse;
        }
        row := row.(state := REVIEW_REQUIRED);
      } else {
        row := row.(state := decision);
      }
      ghost var before, log := candidates, reviews;
      candidates := candidates[m := row];
      reviews := reviews + [Entry(newId, MATCH, m, decision, if last.Some? then Some(last.value.id) else None)];
      assert Decided(before, log, m, decision, newId, candidates, reviews);
      DecidedKeeps(before, log, m, decision, newId, candidates, reviews);
      return Done;
    }

    /** The claim's row and its review. */
    method Record(c: Id, row: Claim, r: Entry)
      requires Valid() && r.kind == CLAIM && r.supersedes == LastId(LogOf(reviews, CLAIM, r.target))
      modifies this`claims, this`reviews
      ensures Valid() && claims == old(claims)[c := row] && reviews == old(reviews) + [r]
    {
      AppendKeepsChains(reviews, r);
      ClaimReviewKeepsStates(candidates, reviews, r);
      claims, reviews := claims[c := row], reviews + [r];
    }

    /** A decision on a claim. Unlike a candidate, a claim can be reversed twice in a row. */
    method DecideClaim(c: Id, decision: Decision, newId: Id) returns (answer: Answer)
      requires Valid()
      modifies this`claims, this`reviews
      ensures Valid()
      ensures answer == ClaimAnswer(c in old(claims), LogOf(old(reviews), CLAIM, c), decision)
      ensures answer == NotFound <==> c !in old(claims)
      ensures answer == NothingToReverse <==> c in old(claims) && decision == REVERSE && LogOf(old(reviews), CLAIM, c) == []
      ensures answer == Done || answer == NotFound || answer == NothingToReverse
      ensures answer == Done ==> c in claims && claims[c] == old(claims)[c].(state := claims[c].state)
      ensures answer == Done ==> claims[c].state == (if decision == APPROVE then ALLOWED
                                                     else if decision != REVERSE then decision
                                                     else if old(claims)[c].contradicts == [] then ALLOWED else CONTRADICTORY)
      ensures answer == Done ==> claims == old(claims)[c := old(claims)[c].(state := ClaimStateAfter(old(claims)[c], decision))]
      ensures answer == Done ==> reviews == old(reviews) + [Entry(newId, CLAIM, c, decision, LastId(LogOf(old(reviews), CLAIM, c)))]
      ensures answer != Done ==> claims == old(claims) && reviews == old(reviews)
    {
      if c !in claims {
        return NotFound;
      }
      var last := Last(CLAIM, c);
      var row := claims[c];
      if decision == REVERSE {
        if last.None? {
          return NothingToReverse;
        }
        row := row.(state := if row.contradicts != [] then CONTRADICTORY else ALLOWED);
      } else {
        row := row.(state := if decision != APPROVE then decision else ALLOWED);
      }
      Record(c, row, Entry(newId, CLAIM, c, decision, if last.Some? then Some(last.value.id) else None));
      return Done;
    }
  }

  lemma ClaimReviewKeepsStates(candidates: map<Id, Candidate>, reviews: seq<Entry>, r: Entry)
    requires OnRows(candidates, reviews) && r.kind == CLAIM
    requires forall m | m in candidates :: candidates[m].state == CandidateState(LogOf(reviews, MATCH, m))
    ensures OnRows(candidates, reviews + [r])
    ensures forall m | m in candidates :: candidates[m].state == CandidateState(LogOf(reviews + [r], MATCH, m))
  {
    forall m | m in candidates ensures LogOf(reviews + [r], MATCH, m) == LogOf(reviews, MATCH, m) {
    }
  }
}
