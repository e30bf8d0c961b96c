/**
 Contradiction flags (`flag_contradictions` of `extract_common.py`): attribute claims of one entity that disagree, found
 group by group after every upload.
*/
module Contradictions {
  import opened Common
  import opened Matching
  import opened Review

  const OWNER: Id := 0
  const DOB: Id := 1
  const ADDRESS: Id := 2

  type Key = (Id, Id)
  type Claims = map<Id, Claim>

  predicate Watched(c: Claim) { c.isAttribute && (c.attribute == OWNER || c.attribute == DOB || c.attribute == ADDRESS) }

  function KeyOf(c: Claim): Key { (c.source, c.attribute) }

  // ---------------------------------------------------------------- what ought to be flagged

  /** Two watched claims give one attribute of one entity different values. */
  predicate Disagree(c: Claim, d: Claim) {
    Watched(c) && Watched(d) && KeyOf(c) == KeyOf(d) && c.value != d.value
  }

  /** The listed claims that disagree with `c`, in order. */
  function Opponents(claims: Claims, order: seq<Id>, c: Claim): seq<Id> {
    if order == [] then []
    else
      var before, o := Opponents(claims, order[..|order| - 1], c), order[|order| - 1];
      if o in claims && Disagree(c, claims[o]) then before + [o] else before
  }

  /** Only claims that no reviewer has decided on, and that are in effect or flagged already, are flagged. */
  predicate Open(c: Claim, id: Id, reviewed: set<Id>) {
    (c.state == ALLOWED || c.state == CONTRADICTORY) && id !in reviewed
  }

  function FlaggedClaim(claims: Claims, order: seq<Id>, reviewed: set<Id>, id: Id): Claim
    requires id in claims
  {
    var c := claims[id];
    var opponents := Opponents(claims, order, c);
    if opponents != [] && Open(c, id, reviewed) then c.(state := CONTRADICTORY, contradicts := opponents) else c
  }

  /** The claims after a run over the listed ones. */
  function Flagged(claims: Claims, order: seq<Id>, reviewed: set<Id>): Claims {
    map id | id in claims :: if id in order then FlaggedClaim(claims, order, reviewed, id) else claims[id]
  }

  // ---------------------------------------------------------------- what follows

  lemma {:induction false} OpponentsDisagree(claims: Claims, order: seq<Id>, c: Claim, o: Id)
    ensures o in Opponents(claims, order, c) <==> o in order && o in claims && Disagree(c, claims[o])
  {
    if order != [] {
      var init, last := order[..|order| - 1], order[|order| - 1];
      OpponentsDisagree(claims, init, c, o);
      assert order == init + [last];
    }
  }

  /** Flags leave sources, attributes and values alone, so who disagrees with whom stays the same. */
  lemma {:induction false} OpponentsStay(claims: Claims, claims': Claims, order: seq<Id>, c: Claim, c': Claim)
    requires claims'.Keys == claims.Keys && c' == c.(state := c'.state, contradicts := c'.contradicts)
    requires forall id | id in claims :: claims'[id] == claims[id].(state := claims'[id].state, contradicts := claims'[id].contradicts)
    ensures Opponents(claims', order, c') == Opponents(claims, order, c)
  {
    if order != [] {
      OpponentsStay(claims, claims', order[..|order| - 1], c, c');
    }
  }

  /** The targets of the case's claim reviews. */
  function ReviewedIds(reviews: seq<Entry>): set<Id> {
    set r | r in reviews && r.kind == CLAIM :: r.target
  }

  lemma {:induction false} LogHasReview(reviews: seq<Entry>, id: Id)
    requires LogOf(reviews, CLAIM, id) != []
    ensures id in ReviewedIds(reviews)
  {
    var init, last := reviews[..|reviews| - 1], reviews[|reviews| - 1];
    assert reviews == init + [last];
    if !(last.kind == CLAIM && last.target == id) {
      LogHasReview(init, id);
    }
  }

  /** A second run changes nothing. */
  lemma SecondRunChangesNothing(claims: Claims, order: seq<Id>, reviewed: set<Id>)
    ensures Flagged(Flagged(claims, order, reviewed), order, reviewed) == Flagged(claims, order, reviewed)
  {
    var once := Flagged(claims, order, reviewed);
    forall id | id in claims && id in order ensures FlaggedClaim(once, order, reviewed, id) == once[id] {
      OpponentsStay(claims, once, order, claims[id], once[id]);
    }
  }

  /** `o` is a listed claim about one attribute of one entity that gives it another value. */
  predicate Opposes(claims: Claims, order: seq<Id>, c: Claim, o: Id) {
    && o in order && o in claims && c.isAttribute && claims[o].isAttribute && claims[o].source == c.source
    && claims[o].attribute == c.attribute && c.attribute in {OWNER, DOB, ADDRESS} && claims[o].value != c.value
  }

  ghost predicate HasOpponent(claims: Claims, order: seq<Id>, c: Claim) { exists o :: Opposes(claims, order, c, o) }

  /**
   A listed claim that is in effect or flagged, that nobody has reviewed and that another one opposes is flagged, with all
   that oppose it; nothing else changes.
  */
  ghost predicate FlaggedInColumns(claims: Claims, order: seq<Id>, reviewed: set<Id>, now: Claims) {
    && now.Keys == claims.Keys
    && forall id | id in claims ::
         var c, c' := claims[id], now[id];
         if id in order && (c.state == ALLOWED || c.state == CONTRADICTORY) && id !in reviewed && HasOpponent(claims, order, c)
         then && c' == c.(state := CONTRADICTORY, contradicts := c'.contradicts)
              && forall o :: o in c'.contradicts <==> Opposes(claims, order, c, o)
         else c' == c
  }

  lemma OpponentsOppose(claims: Claims, order: seq<Id>, c: Claim)
    ensures forall o :: o in Opponents(claims, order, c) <==> Opposes(claims, order, c, o)
    ensures Opponents(claims, order, c) != [] <==> HasOpponent(claims, order, c)
  {
    forall o ensures o in Opponents(claims, order, c) <==> Opposes(claims, order, c, o) {
      OpponentsDisagree(claims, order, c, o);
    }
    if Opponents(claims, order, c) != [] {
      assert Opponents(claims, order, c)[0] in Opponents(claims, order, c);
    }
  }

  lemma FlagsAreExact(claims: Claims, order: seq<Id>, reviewed: set<Id>)
    ensures FlaggedInColumns(claims, order, reviewed, Flagged(claims, order, reviewed))
  {
    forall id | id in claims ensures var opponents := Opponents(claims, order, claims[id]);
      (forall o :: o in opponents <==> Opposes(claims, order, claims[id], o)) && (opponents != [] <==> HasOpponent(claims, order, claims[id]))
    {
      OpponentsOppose(claims, order, claims[id]);
    }
  }

  /** Two open claims that disagree name each other. */
  lemma FlagsAreMutual(claims: Claims, order: seq<Id>, reviewed: set<Id>, a: Id, b: Id)
    requires a in claims && b in claims && a in order && b in order && a !in reviewed && b !in reviewed
    requires Opposes(claims, order, claims[a], b) && claims[a].state in {ALLOWED, CONTRADICTORY} && claims[b].state in {ALLOWED, CONTRADICTORY}
    ensures var after := Flagged(claims, order, reviewed); b in after[a].contradicts && a in after[b].contradicts
  {
    assert Opposes(claims, order, claims[b], a);
    FlagsAreExact(claims, order, reviewed);
  }

  // ---------------------------------------------------------------- uploads and reviews over time

  /** The claims and the review log of a case. */
  datatype CaseClaims = CaseClaims(claims: Claims, reviews: seq<Entry>)

  /**
   An upload adds claims with ids of their own and runs the pass over the case's claims in the order of the query. A decision
   is one on a claim, or one on something else, which only adds to the log.
  */
  datatype Event =
    | Upload(more: Claims, order: seq<Id>)
    | OnClaim(c: Id, decision: Decision, id: Id)
    | OnMatch(m: Id, decision: Decision, id: Id)

  function After(h: CaseClaims, e: Event): CaseClaims {
    match e
    case Upload(more, order) => h.(claims := Flagged(more + h.claims, order, ReviewedIds(h.reviews)))
    case OnMatch(m, decision, id) =>
      h.(reviews := h.reviews + [Entry(id, MATCH, m, decision, LastId(LogOf(h.reviews, MATCH, m)))])
    case OnClaim(c, decision, id) =>
      if ClaimAnswer(c in h.claims, LogOf(h.reviews, CLAIM, c), decision) != Done then h
      else CaseClaims(h.claims[c := h.claims[c].(state := ClaimStateAfter(h.claims[c], decision))],
                      h.reviews + [Entry(id, CLAIM, c, decision, LastId(LogOf(h.reviews, CLAIM, c)))])
  }

  function AfterAll(h: CaseClaims, events: seq<Event>): CaseClaims {
    if events == [] then h else After(AfterAll(h, events[..|events| - 1]), events[|events| - 1])
  }

  lemma LogAppend(reviews: seq<Entry>, r: Entry, id: Id)
    ensures LogOf(reviews + [r], CLAIM, id) == LogOf(reviews, CLAIM, id) + if r.kind == CLAIM && r.target == id then [r] else []
  {
    assert (reviews + [r])[..|reviews|] == reviews;
  }

  lemma EventLeavesReviewed(h: CaseClaims, e: Event, id: Id)
    requires id in h.claims && LogOf(h.reviews, CLAIM, id) != [] && !(e.OnClaim? && e.c == id)
    ensures var t := After(h, e);
            id in t.claims && t.claims[id] == h.claims[id] && LogOf(t.reviews, CLAIM, id) == LogOf(h.reviews, CLAIM, id)
  {
    LogHasReview(h.reviews, id);
    var t := After(h, e);
    if t.reviews != h.reviews {
      assert t.reviews == h.reviews + [t.reviews[|h.reviews|]];
      LogAppend(h.reviews, t.reviews[|h.reviews|], id);
    }
  }

  /**
   A claim that a reviewer has decided on keeps its state and its flags through any number of uploads and of decisions on
   anything else, until its own next review.
  */
  lemma {:induction false} ReviewedClaimStays(h: CaseClaims, events: seq<Event>, id: Id)
    requires id in h.claims && LogOf(h.reviews, CLAIM, id) != []
    requires forall e | e in events :: !(e.OnClaim? && e.c == id)
    ensures var t := AfterAll(h, events);
            id in t.claims && t.claims[id] == h.claims[id] && LogOf(t.reviews, CLAIM, id) == LogOf(h.reviews, CLAIM, id)
  {
    if events != [] {
      var before := events[..|events| - 1];
      ReviewedClaimStays(h, before, id);
      EventLeavesReviewed(AfterAll(h, before), events[|events| - 1], id);
    }
  }

  /** A claim with a review is in the state its latest review gives it. */
  ghost predicate StateFollows(h: CaseClaims, id: Id) {
    var log := LogOf(h.reviews, CLAIM, id);
    log != [] ==>
      && id in h.claims
      && h.claims[id].state == match log[|log| - 1].decision
           case APPROVE => ALLOWED
           case REVERSE => (if h.claims[id].contradicts == [] then ALLOWED else CONTRADICTORY)
           case other => other
  }

  lemma EventKeepsState(h: CaseClaims, e: Event, id: Id)
    requires StateFollows(h, id)
    ensures StateFollows(After(h, e), id)
  {
    var t := After(h, e);
    if e.OnClaim? && e.c == id {
      if t.reviews != h.reviews {
        LogAppend(h.reviews, t.reviews[|h.reviews|], id);
      }
    } else if LogOf(h.reviews, CLAIM, id) != [] {
      EventLeavesReviewed(h, e, id);
    } else if t.reviews != h.reviews {
      LogAppend(h.reviews, t.reviews[|h.reviews|], id);
    }
  }

  /** After any uploads and decisions, from an empty case, every claim with a review is in the state its latest review gives it. */
  lemma {:induction false} ClaimStatesFollowReviews(events: seq<Event>, id: Id)
    ensures StateFollows(AfterAll(CaseClaims(map[], []), events), id)
  {
    if events != [] {
      ClaimStatesFollowReviews(events[..|events| - 1], id);
      EventKeepsState(AfterAll(CaseClaims(map[], []), events[..|events| - 1]), events[|events| - 1], id);
    }
  }

  // ---------------------------------------------------------------- the program

  /** The listed watched claims of one entity and attribute, in order. */
  function GroupOf(claims: Claims, order: seq<Id>, k: Key): seq<Id> {
    if order == [] then []
    else
      var before, o := GroupOf(claims, order[..|order| - 1], k), order[|order| - 1];
      if o in claims && Watched(claims[o]) && KeyOf(claims[o]) == k then before + [o] else before
  }

  /** `others`: a comparison within the group finds every opponent. */
  function OthersIn(claims: Claims, group: seq<Id>, c: Claim): seq<Id> {
    if group == [] then []
    else
      var before, o := OthersIn(claims, group[..|group| - 1], c), group[|group| - 1];
      if o in claims && claims[o].value != c.value then before + [o] else before
  }

  lemma {:induction false} OthersAreOpponents(claims: Claims, order: seq<Id>, c: Claim)
    requires Watched(c)
    ensures OthersIn(claims, GroupOf(claims, order, KeyOf(c)), c) == Opponents(claims, order, c)
  {
    if order != [] {
      var init, o := order[..|order| - 1], order[|order| - 1];
      OthersAreOpponents(claims, init, c);
      var before := GroupOf(claims, init, KeyOf(c));
      assert (before + [o])[..|before|] == before;
    }
  }

  lemma {:induction false} NoOpponentsOfUnwatched(claims: Claims, order: seq<Id>, c: Claim)
    requires !Watched(c)
    ensures Opponents(claims, order, c) == []
  {
    if order != [] { NoOpponentsOfUnwatched(claims, order[..|order| - 1], c); }
  }

  lemma {:induction false} InGroup(claims: Claims, order: seq<Id>, k: Key, o: Id)
    ensures o in GroupOf(claims, order, k) <==> o in order && o in claims && Watched(claims[o]) && KeyOf(claims[o]) == k
  {
    if order != [] {
      var init, last := order[..|order| - 1], order[|order| - 1];
      InGroup(claims, init, k, o);
      assert order == init + [last];
    }
  }

  /** `by_key`: a key has an entry if and only if its group is not empty. */
  ghost predicate GroupsOk(claims: Claims, order: seq<Id>, byKey: map<Key, seq<Id>>) {
    forall k: Key :: GroupOf(claims, order, k) == if k in byKey then byKey[k] else []
  }

  method GroupClaims(claims: Claims, order: seq<Id>) returns (byKey: map<Key, seq<Id>>)
    ensures GroupsOk(claims, order, byKey)
  {
    byKey := map[];
    for i := 0 to |order|
      invariant GroupsOk(claims, order[..i], byKey)
    {
      assert order[..i + 1][..i] == order[..i];
      var o := order[i];
      if o in claims && Watched(claims[o]) {
        var k := KeyOf(claims[o]);
        byKey := byKey[k := (if k in byKey then byKey[k] else []) + [o]];
      }
    }
    assert order[..|order|] == order;
  }

  /** A claim of `finished` is as it ought to be, and all others are untouched. */
  ghost predicate Partly(claims: Claims, order: seq<Id>, reviewed: set<Id>, finished: set<Id>, now: Claims) {
    && now.Keys == claims.Keys
    && forall id | id in claims :: now[id] == if id in finished then FlaggedClaim(claims, order, reviewed, id) else claims[id]
  }

  /** The claims a run flags, whether for the first time or again. */
  function FlaggedIds(claims: Claims, order: seq<Id>, reviewed: set<Id>): set<Id> {
    set id | id in order && id in claims && Open(claims[id], id, reviewed) && Opponents(claims, order, claims[id]) != []
  }

  lemma FlaggedIdsInColumns(claims: Claims, order: seq<Id>, reviewed: set<Id>)
    ensures FlaggedIds(claims, order, reviewed)
         == set id | id in claims && id in order && (claims[id].state == ALLOWED || claims[id].state == CONTRADICTORY)
                     && id !in reviewed && HasOpponent(claims, order, claims[id])
  {
    forall id | id in claims ensures Opponents(claims, order, claims[id]) != [] <==> HasOpponent(claims, order, claims[id]) {
      OpponentsOppose(claims, order, claims[id]);
    }
  }

  lemma {:induction false} OthersByValue(claims: Claims, now: Claims, group: seq<Id>, c: Claim, d: Claim)
    requires now.Keys == claims.Keys && (forall id | id in claims :: now[id].value == claims[id].value) && c.value == d.value
    ensures OthersIn(now, group, c) == OthersIn(claims, group, d)
  {
    if group != [] { OthersByValue(claims, now, group[..|group| - 1], c, d); }
  }

  lemma CountOneMore(all: set<Id>, finished: set<Id>, id: Id)
    requires id !in finished
    ensures |all * (finished + {id})| == |all * finished| + if id in all then 1 else 0
  {
    if id in all {
      assert all * (finished + {id}) == all * finished + {id};
    } else {
      assert all * (finished + {id}) == all * finished;
    }
  }

  /** One claim of a group. */
  method FlagOne(ghost claims: Claims, ghost order: seq<Id>, reviewed: set<Id>, now: Claims, group: seq<Id>, id: Id,
          flagged: nat, ghost finished: set<Id>)
    returns (now': Claims, flagged': nat)
    requires id in claims && id in order && OthersIn(claims, group, claims[id]) == Opponents(claims, order, claims[id]) && id !in finished
    requires Partly(claims, order, reviewed, finished, now) && flagged == |FlaggedIds(claims, order, reviewed) * finished|
    ensures Partly(claims, order, reviewed, finished + {id}, now')
    ensures flagged' == |FlaggedIds(claims, order, reviewed) * (finished + {id})|
  {
    var c := now[id];
    var others := OthersIn(now, group, c);
    OthersByValue(claims, now, group, c, claims[id]);
    CountOneMore(FlaggedIds(claims, order, reviewed), finished, id);
    now', flagged' := now, flagged;
    if others != [] && (c.state == ALLOWED || c.state == CONTRADICTORY) && id !in reviewed {
      now' := now[id := c.(state := CONTRADICTORY, contradicts := others)];
      flagged' := flagged + 1;
    }
  }

  lemma {:induction false} GroupDistinct(claims: Claims, order: seq<Id>, k: Key)
    requires Distinct(order)
    ensures Distinct(GroupOf(claims, order, k))
  {
    if order != [] {
      var init, o := order[..|order| - 1], order[|order| - 1];
      GroupDistinct(claims, init, k);
      InGroup(claims, init, k, o);
    }
  }

  lemma TwoValues(values: set<Option<Id>>, x: Option<Id>, y: Option<Id>)
    requires x in values && y in values && x != y
    ensures |values| > 1
  {
    assert |values - {x} - {y}| == |values| - 2;
  }

  /** Claims that all give one value have no opponents in their group. */
  lemma {:induction false} OneValue(claims: Claims, group: seq<Id>, c: Claim, values: set<Option<Id>>)
    requires |values| <= 1 && c.value in values && forall o | o in group && o in claims :: claims[o].value in values
    ensures OthersIn(claims, group, c) == []
  {
    if group != [] {
      var init, o := group[..|group| - 1], group[|group| - 1];
      OneValue(claims, init, c, values);
      if o in claims && claims[o].value != c.value {
        TwoValues(values, c.value, claims[o].value);
      }
    }
  }

  lemma SkipGroup(claims: Claims, order: seq<Id>, reviewed: set<Id>, now: Claims, group: seq<Id>, k: Key,
          finished: set<Id>)
    requires group == GroupOf(claims, order, k) && |set o | o in group && o in claims :: claims[o].value| <= 1
    requires Partly(claims, order, reviewed, finished, now)
    ensures Partly(claims, order, reviewed, finished + AsSet(group), now)
    ensures FlaggedIds(claims, order, reviewed) * (finished + AsSet(group)) == FlaggedIds(claims, order, reviewed) * finished
  {
    var values := set o | o in group && o in claims :: claims[o].value;
    forall id | id in group ensures id in claims && Opponents(claims, order, claims[id]) == [] {
      InGroup(claims, order, k, id);
      OneValue(claims, group, claims[id], values);
      OthersAreOpponents(claims, order, claims[id]);
    }
  }

  /** Comparing within the group finds the opponents of its claims. */
  ghost predicate GroupFits(claims: Claims, order: seq<Id>, group: seq<Id>) {
    forall id | id in group ::
      id in claims && id in order && OthersIn(claims, group, claims[id]) == Opponents(claims, order, claims[id])
  }

  lemma GroupIsFit(claims: Claims, order: seq<Id>, k: Key)
    ensures GroupFits(claims, order, GroupOf(claims, order, k))
  {
    forall id | id in GroupOf(claims, order, k)
      ensures id in claims && id in order && OthersIn(claims, GroupOf(claims, order, k), claims[id]) == Opponents(claims, order, claims[id])
    {
      InGroup(claims, order, k, id);
      OthersAreOpponents(claims, order, claims[id]);
    }
  }

  lemma NextMember(group: seq<Id>, i: nat, finished: set<Id>)
    requires Distinct(group) && i < |group| && finished !! AsSet(group)
    ensures AsSet(group[..i + 1]) == AsSet(group[..i]) + {group[i]} && group[i] !in finished + AsSet(group[..i])
  {
    assert group[..i + 1] == group[..i] + [group[i]];
    assert group[i] in AsSet(group);
  }

  /** One turn of the loop over a group. */
  method FlagNext(ghost claims: Claims, ghost order: seq<Id>, reviewed: set<Id>, now: Claims, group: seq<Id>, i: nat,
          flagged: nat, ghost finished: set<Id>)
    returns (now': Claims, flagged': nat)
    requires Distinct(group) && GroupFits(claims, order, group) && finished !! AsSet(group) && i < |group|
    requires Partly(claims, order, reviewed, finished + AsSet(group[..i]), now)
    requires flagged == |FlaggedIds(claims, order, reviewed) * (finished + AsSet(group[..i]))|
    ensures Partly(claims, order, reviewed, finished + AsSet(group[..i + 1]), now')
    ensures flagged' == |FlaggedIds(claims, order, reviewed) * (finished + AsSet(group[..i + 1]))|
  {
    assert group[i] in group;
    NextMember(group, i, finished);
    now', flagged' := FlagOne(claims, order, reviewed, now, group, group[i], flagged, finished + AsSet(group[..i]));
    assert finished + AsSet(group[..i]) + {group[i]} == finished + AsSet(group[..i + 1]);
  }

  /** The claims of a group with more than one value. */
  method FlagMembers(ghost claims: Claims, ghost order: seq<Id>, reviewed: set<Id>, now: Claims, group: seq<Id>,
          flagged: nat, ghost finished: set<Id>)
    returns (now': Claims, flagged': nat)
    requires Distinct(group) && GroupFits(claims, order, group) && finished !! AsSet(group)
    requires Partly(claims, order, reviewed, finished, now) && flagged == |FlaggedIds(claims, order, reviewed) * finished|
    ensures Partly(claims, order, reviewed, finished + AsSet(group), now')
    ensures flagged' == |FlaggedIds(claims, order, reviewed) * (finished + AsSet(group))|
  {
    now', flagged' := now, flagged;
    ghost var reached := finished;
    for i := 0 to |group|
      invariant reached == finished + AsSet(group[..i])
      invariant Partly(claims, order, reviewed, reached, now') && flagged' == |FlaggedIds(claims, order, reviewed) * reached|
    {
      now', flagged' := FlagNext(claims, order, reviewed, now', group, i, flagged', finished);
      reached := finished + AsSet(group[..i + 1]);
    }
    assert group[..|group|] == group;
  }

  /** One group. */
  method FlagGroup(claims: Claims, ghost order: seq<Id>, reviewed: set<Id>, now: Claims, group: seq<Id>, ghost k: Key,
          flagged: nat, ghost finished: set<Id>)
    returns (now': Claims, flagged': nat)
    requires Distinct(order) && group == GroupOf(claims, order, k) && finished !! AsSet(group)
    requires Partly(claims, order, reviewed, finished, now) && flagged == |FlaggedIds(claims, order, reviewed) * finished|
    ensures Partly(claims, order, reviewed, finished + AsSet(group), now')
    ensures flagged' == |FlaggedIds(claims, order, reviewed) * (finished + AsSet(group))|
  {
    var values := set o | o in group && o in claims :: claims[o].value;
    if |values| > 1 {
      GroupDistinct(claims, order, k);
      GroupIsFit(claims, order, k);
      now', flagged' := FlagMembers(claims, order, reviewed, now, group, flagged, finished);
    } else {
      SkipGroup(claims, order, reviewed, now, group, k, finished);
      now', flagged' := now, flagged;
    }
  }

  /** The listed watched claims whose key is not left. */
  ghost function Finished(claims: Claims, order: seq<Id>, left: set<Key>): set<Id> {
    set id | id in order && id in claims && Watched(claims[id]) && KeyOf(claims[id]) !in left
  }

  lemma FinishedGroup(claims: Claims, order: seq<Id>, left: set<Key>, k: Key)
    requires k in left
    ensures Finished(claims, order, left - {k}) == Finished(claims, order, left) + AsSet(GroupOf(claims, order, k))
    ensures Finished(claims, order, left) !! AsSet(GroupOf(claims, order, k))
  {
    forall id ensures id in GroupOf(claims, order, k) <==> id in order && id in claims && Watched(claims[id]) && KeyOf(claims[id]) == k {
      InGroup(claims, order, k, id);
    }
  }

  /** Keys without an entry have no claims, and unwatched claims are not flagged. */
  lemma AllFinished(claims: Claims, order: seq<Id>, reviewed: set<Id>, now: Claims)
    requires Partly(claims, order, reviewed, Finished(claims, order, {}), now)
    ensures now == Flagged(claims, order, reviewed)
    ensures FlaggedIds(claims, order, reviewed) * Finished(claims, order, {}) == FlaggedIds(claims, order, reviewed)
  {
    forall id | id in claims && !Watched(claims[id]) ensures Opponents(claims, order, claims[id]) == [] {
      NoOpponentsOfUnwatched(claims, order, claims[id]);
    }
  }

  lemma NothingFinished(claims: Claims, order: seq<Id>, byKey: map<Key, seq<Id>>)
    requires GroupsOk(claims, order, byKey)
    ensures Finished(claims, order, byKey.Keys) == {}
  {
    forall id | id in order && id in claims && Watched(claims[id]) ensures KeyOf(claims[id]) in byKey {
      InGroup(claims, order, KeyOf(claims[id]), id);
    }
  }

  /**
   A run over the case's claims in the order of the query, whose rows are distinct. Comparing within groups finds exactly
   the pairwise contradictions, and the count is the number of claims flagged, for the first time or again.
  */
  method FlagContradictions(claims: Claims, order: seq<Id>, reviewed: set<Id>) returns (now: Claims, flagged: nat)
    requires Distinct(order)
    ensures now == Flagged(claims, order, reviewed) && FlaggedInColumns(claims, order, reviewed, now)
    ensures flagged == |set id | id in claims && id in order && (claims[id].state == ALLOWED || claims[id].state == CONTRADICTORY)
                                 && id !in reviewed && HasOpponent(claims, order, claims[id])|
  {
    FlagsAreExact(claims, order, reviewed);
    FlaggedIdsInColumns(claims, order, reviewed);
    var byKey := GroupClaims(claims, order);
    NothingFinished(claims, order, byKey);
    now, flagged := claims, 0;
    assert FlaggedIds(claims, order, reviewed) * {} == {};
    var left := byKey.Keys;
    while left != {}
      invariant left <= byKey.Keys
      invariant Partly(claims, order, reviewed, Finished(claims, order, left), now)
      invariant flagged == |FlaggedIds(claims, order, reviewed) * Finished(claims, order, left)|
      decreases left
    {
      var k: Key :| k in left;
      FinishedGroup(claims, order, left, k);
      assert byKey[k] == GroupOf(claims, order, k);
      now, flagged := FlagGroup(claims, order, reviewed, now, byKey[k], k, flagged, Finished(claims, order, left));
      left := left - {k};
    }
    AllFinished(claims, order, reviewed, now);
  }
}
