/**
 Candidate generation (`generate_candidates` of `resolution.py`): one pass over all pairs of person records
 of a case, against the candidate rows that already exist.
*/
module Resolution {
  import opened Common
  import opened Sorting
  import opened Profiles
  import opened Matching
  import opened Review

  type Pair = (Id, Id)

  /** What a pass works on: the profiles of the case's persons and the string similarity. */
  datatype Input = Input(profiles: map<Id, Profile>, ratio: Ratio) {

    predicate Shares(p: Pair)
      requires p.0 in profiles && p.1 in profiles
    {
      BlockKeys(profiles[p.0]) * BlockKeys(profiles[p.1]) != {}
    }

    /** `r` is the assessment of the pair. */
    ghost predicate Assesses(p: Pair, r: Assessment)
      requires p.0 in profiles && p.1 in profiles
    {
      var a, b := profiles[p.0], profiles[p.1];
      r == Assess(a, b, NamesAlike(ratio, a, b))
    }

    /** The pairs the pass considers: two different persons, smaller id first. */
    predicate Considers(p: Pair) { p.0 in profiles && p.1 in profiles && p.0 < p.1 }
  }

  /** A candidate's entities in the order of the pass. */
  function PairOf(c: Candidate): Pair {
    if c.left <= c.right then (c.left, c.right) else (c.right, c.left)
  }

  ghost predicate OnePerPair(rows: map<Id, Candidate>) {
    forall m, n | m in rows && n in rows && PairOf(rows[m]) == PairOf(rows[n]) :: m == n
  }

  ghost predicate HasRow(rows: map<Id, Candidate>, p: Pair) {
    exists m :: m in rows && PairOf(rows[m]) == p
  }

  /** Row `m` as the pass leaves it, given the pairs handled so far. */
  ghost predicate OldRowOk(input: Input, before: Candidate, after: Candidate, done: set<Pair>) {
    var p := PairOf(before);
    if before.state == REVIEW_REQUIRED && p in done && input.Considers(p) && input.Shares(p)
    then after == before.(assessment := after.assessment) && input.Assesses(p, after.assessment)
    else after == before
  }

  ghost predicate NewRowOk(input: Input, prior: map<Id, Candidate>, c: Candidate, done: set<Pair>) {
    var p := (c.left, c.right);
    && p in done && input.Considers(p) && input.Shares(p)
    && c.state == REVIEW_REQUIRED && input.Assesses(p, c.assessment)
    && !HasRow(prior, p)
  }

  ghost predicate OldRowsOk(input: Input, prior: map<Id, Candidate>, rows: map<Id, Candidate>, done: set<Pair>) {
    prior.Keys <= rows.Keys && forall m | m in prior :: OldRowOk(input, prior[m], rows[m], done)
  }

  ghost predicate NewRowsOk(input: Input, prior: map<Id, Candidate>, rows: map<Id, Candidate>, done: set<Pair>) {
    forall m | m in rows && m !in prior :: NewRowOk(input, prior, rows[m], done)
  }

  ghost predicate AllProposed(input: Input, rows: map<Id, Candidate>, done: set<Pair>) {
    forall p | p in done && input.Considers(p) && input.Shares(p) :: HasRow(rows, p)
  }

  /** The rows after the pairs in `done`: nothing is lost, nothing decided is touched, nothing else is added. */
  ghost predicate Passed(input: Input, prior: map<Id, Candidate>, rows: map<Id, Candidate>, done: set<Pair>) {
    && OldRowsOk(input, prior, rows, done)
    && NewRowsOk(input, prior, rows, done)
    && AllProposed(input, rows, done)
    && OnePerPair(rows)
  }

  /** All pairs the pass considers. */
  function AllPairs(input: Input): set<Pair> {
    set a, b | a in input.profiles && b in input.profiles && a < b :: (a, b)
  }

  // ---------------------------------------------------------------- what a whole pass means

  /** Decided candidates come out exactly as they went in, and undecided ones keep their pair and state. */
  lemma DecisionsSurvive(input: Input, prior: map<Id, Candidate>, rows: map<Id, Candidate>, m: Id)
    requires Passed(input, prior, rows, AllPairs(input)) && m in prior
    ensures m in rows && rows[m].left == prior[m].left && rows[m].right == prior[m].right && rows[m].state == prior[m].state
    ensures prior[m].state != REVIEW_REQUIRED ==> rows[m] == prior[m]
  {
  }

  lemma NothingLeftToAdd(input: Input, once: map<Id, Candidate>, c: Candidate, done: set<Pair>)
    requires AllProposed(input, once, done)
    ensures !NewRowOk(input, once, c, done)
  {
  }

  lemma RowIsSettled(input: Input, prior: map<Id, Candidate>, once: map<Id, Candidate>, c: Candidate, done: set<Pair>, m: Id)
    requires OldRowsOk(input, prior, once, done) && NewRowsOk(input, prior, once, done) && m in once
    requires OldRowOk(input, once[m], c, done)
    ensures c == once[m]
  {
    if m in prior {
      assert OldRowOk(input, prior[m], once[m], done);
    } else {
      assert NewRowOk(input, prior, once[m], done);
    }
  }

  lemma SameRows(once: map<Id, Candidate>, twice: map<Id, Candidate>)
    requires (forall m | m in twice :: m in once) && forall m | m in once :: m in twice && twice[m] == once[m]
    ensures twice == once
  {
  }

  /** A second pass over the same profiles creates no row and changes none. */
  lemma SecondPassIsIdle(input: Input, prior: map<Id, Candidate>, once: map<Id, Candidate>, twice: map<Id, Candidate>,
          done: set<Pair>)
    requires Passed(input, prior, once, done) && Passed(input, once, twice, done)
    ensures twice == once
  {
    forall m | m in twice ensures m in once {
      NothingLeftToAdd(input, once, twice[m], done);
    }
    forall m | m in once ensures m in twice && twice[m] == once[m] {
      RowIsSettled(input, prior, once, twice[m], done, m);
    }
    SameRows(once, twice);
  }

  // ---------------------------------------------------------------- from the claims of the case

  /** The persons are those the claims mention, each with the profile the claims give. */
  ghost predicate BuiltFrom(input: Input, ev: Evidence) {
    && input.profiles.Keys == PersonsIn(ev)
    && forall person | person in PersonsIn(ev) :: IsProfile(ev.claims, person, ev.records[person], input.profiles[person])
  }

  /** A person goes by the names and aliases that unrejected claims state, and by the record's label if they state no name. */
  ghost predicate GoesBy(ev: Evidence, person: Id, n: Name) {
    || Stated(ev.claims, person, NameIs(n), false)
    || Stated(ev.claims, person, AliasIs(n), false)
    || (person in ev.records && n == ev.records[person] && IsUnnamed(ev.claims, person))
  }

  ghost predicate UsesPhone(ev: Evidence, person: Id, phone: Id) { Stated(ev.claims, person, Related(USES_PHONE, phone), true) }

  ghost predicate IsPerson(ev: Evidence, person: Id) {
    person in ev.records && exists r :: r in ev.claims && (r.source == person || r.target == Some(person))
  }

  ghost predicate UseOnePhone(ev: Evidence, p: Pair) { exists phone :: UsesPhone(ev, p.0, phone) && UsesPhone(ev, p.1, phone) }

  ghost predicate GoByAlikeNames(ev: Evidence, p: Pair) {
    exists n, m :: GoesBy(ev, p.0, n) && GoesBy(ev, p.1, m) && AlikeEnds(n, m)
  }

  /** Two persons of the case, smaller id first, are candidates if claims link both to one phone or give them alike names. */
  ghost predicate AreCandidates(ev: Evidence, p: Pair) {
    p.0 < p.1 && IsPerson(ev, p.0) && IsPerson(ev, p.1) && (UseOnePhone(ev, p) || GoByAlikeNames(ev, p))
  }

  ghost predicate HasPhonesOf(ev: Evidence, person: Id, a: Profile) { forall phone :: phone in a.phones <==> UsesPhone(ev, person, phone) }

  ghost predicate HasNamesOf(ev: Evidence, person: Id, a: Profile) {
    forall n :: n in a.names || n in a.aliases <==> GoesBy(ev, person, n)
  }

  lemma NamesFromClaims(ev: Evidence, input: Input, person: Id)
    requires BuiltFrom(input, ev) && person in input.profiles
    ensures HasNamesOf(ev, person, input.profiles[person])
  {
    ProfileInColumns(ev.claims, person, ev.records[person], input.profiles[person]);
  }

  lemma PhonesFromClaims(ev: Evidence, input: Input, person: Id)
    requires BuiltFrom(input, ev) && person in input.profiles
    ensures HasPhonesOf(ev, person, input.profiles[person])
  {
    ProfileInColumns(ev.claims, person, ev.records[person], input.profiles[person]);
  }

  lemma PersonsFromClaims(ev: Evidence, person: Id)
    ensures person in PersonsIn(ev) <==> IsPerson(ev, person)
  {
  }

  lemma PhonePairs(ev: Evidence, p: Pair, a: Profile, b: Profile)
    requires HasPhonesOf(ev, p.0, a) && HasPhonesOf(ev, p.1, b)
    ensures HaveCommonPhone(a, b) <==> UseOnePhone(ev, p)
  {
    if phone :| UsesPhone(ev, p.0, phone) && UsesPhone(ev, p.1, phone) {
      assert phone in a.phones && phone in b.phones;
    }
  }

  lemma NamePairs(ev: Evidence, p: Pair, a: Profile, b: Profile)
    requires HasNamesOf(ev, p.0, a) && HasNamesOf(ev, p.1, b)
    ensures HaveAlikeNames(a, b) <==> GoByAlikeNames(ev, p)
  {
    if n, m :| (n in a.names || n in a.aliases) && (m in b.names || m in b.aliases) && AlikeEnds(n, m) {
      assert GoesBy(ev, p.0, n) && GoesBy(ev, p.1, m);
    }
    if n, m :| GoesBy(ev, p.0, n) && GoesBy(ev, p.1, m) && AlikeEnds(n, m) {
      assert (n in a.names || n in a.aliases) && (m in b.names || m in b.aliases);
    }
  }

  /** The pairs that are proposed are the candidates. */
  lemma CandidatesFromClaims(ev: Evidence, input: Input, p: Pair)
    requires BuiltFrom(input, ev)
    ensures input.Considers(p) && input.Shares(p) <==> AreCandidates(ev, p)
  {
    PersonsFromClaims(ev, p.0);
    PersonsFromClaims(ev, p.1);
    if input.Considers(p) {
      var a, b := input.profiles[p.0], input.profiles[p.1];
      SharedKeys(a, b);
      NamesFromClaims(ev, input, p.0);
      NamesFromClaims(ev, input, p.1);
      PhonesFromClaims(ev, input, p.0);
      PhonesFromClaims(ev, input, p.1);
      PhonePairs(ev, p, a, b);
      NamePairs(ev, p, a, b);
    }
  }

  /** The assessment of a pair, smaller id first, from what the claims say about both. */
  ghost predicate AssessedFrom(ev: Evidence, ratio: Ratio, p: Pair, r: Assessment)
    requires p.0 in ev.records && p.1 in ev.records
  {
    exists a, b, s ::
      && ProfileSpelledOut(ev.claims, p.0, ev.records[p.0], a) && ProfileSpelledOut(ev.claims, p.1, ev.records[p.1], b)
      && IsBest(ratio, a.names + a.aliases, b.names + b.aliases, s) && r == Assess(a, b, s)
  }

  /**
   After a pass every pair of candidates has a row; every new row is an undecided and assessed one of a pair of candidates; of
   the old rows the undecided ones of pairs of candidates are assessed anew and all others are as they were.
  */
  ghost predicate ProposesCandidates(ev: Evidence, ratio: Ratio, prior: map<Id, Candidate>, rows: map<Id, Candidate>) {
    && (forall p | AreCandidates(ev, p) :: HasRow(rows, p))
    && (forall m | m in rows && m !in prior :: NewFrom(ev, ratio, rows[m]))
    && (forall m | m in prior :: m in rows && OldFrom(ev, ratio, prior[m], rows[m]))
  }

  ghost predicate NewFrom(ev: Evidence, ratio: Ratio, c: Candidate) {
    c.state == REVIEW_REQUIRED && AreCandidates(ev, (c.left, c.right)) && AssessedFrom(ev, ratio, (c.left, c.right), c.assessment)
  }

  ghost predicate OldFrom(ev: Evidence, ratio: Ratio, before: Candidate, after: Candidate) {
    var p := if before.left <= before.right then (before.left, before.right) else (before.right, before.left);
    if before.state == REVIEW_REQUIRED && AreCandidates(ev, p)
    then after == before.(assessment := after.assessment) && AssessedFrom(ev, ratio, p, after.assessment)
    else after == before
  }

  lemma AssessmentFromClaims(ev: Evidence, input: Input, p: Pair, r: Assessment)
    requires BuiltFrom(input, ev) && input.Considers(p) && input.Assesses(p, r)
    ensures p.0 in ev.records && p.1 in ev.records && AssessedFrom(ev, input.ratio, p, r)
  {
    var a, b := input.profiles[p.0], input.profiles[p.1];
    ProfileInColumns(ev.claims, p.0, ev.records[p.0], a);
    ProfileInColumns(ev.claims, p.1, ev.records[p.1], b);
    assert IsBest(input.ratio, a.names + a.aliases, b.names + b.aliases, NamesAlike(input.ratio, a, b));
  }

  lemma NewRowFromClaims(ev: Evidence, input: Input, prior: map<Id, Candidate>, c: Candidate, done: set<Pair>)
    requires BuiltFrom(input, ev) && NewRowOk(input, prior, c, done)
    ensures NewFrom(ev, input.ratio, c)
  {
    CandidatesFromClaims(ev, input, (c.left, c.right));
    AssessmentFromClaims(ev, input, (c.left, c.right), c.assessment);
  }

  lemma OldRowFromClaims(ev: Evidence, input: Input, before: Candidate, after: Candidate, done: set<Pair>)
    requires BuiltFrom(input, ev) && OldRowOk(input, before, after, done) && (input.Considers(PairOf(before)) ==> PairOf(before) in done)
    ensures OldFrom(ev, input.ratio, before, after)
  {
    CandidatesFromClaims(ev, input, PairOf(before));
    if before.state == REVIEW_REQUIRED && AreCandidates(ev, PairOf(before)) {
      AssessmentFromClaims(ev, input, PairOf(before), after.assessment);
    }
  }

  lemma InAllPairs(input: Input, p: Pair)
    requires input.Considers(p)
    ensures p in AllPairs(input)
  {
  }

  lemma CandidatesAreProposed(ev: Evidence, input: Input, prior: map<Id, Candidate>, rows: map<Id, Candidate>)
    requires BuiltFrom(input, ev) && Passed(input, prior, rows, AllPairs(input))
    ensures ProposesCandidates(ev, input.ratio, prior, rows)
  {
    forall p | AreCandidates(ev, p) ensures HasRow(rows, p) {
      CandidatesFromClaims(ev, input, p);
      InAllPairs(input, p);
    }
    forall m | m in rows && m !in prior ensures NewFrom(ev, input.ratio, rows[m]) {
      NewRowFromClaims(ev, input, prior, rows[m], AllPairs(input));
    }
    forall m | m in prior ensures OldFrom(ev, input.ratio, prior[m], rows[m]) {
      if input.Considers(PairOf(prior[m])) {
        InAllPairs(input, PairOf(prior[m]));
      }
      OldRowFromClaims(ev, input, prior[m], rows[m], AllPairs(input));
    }
  }

  /** The rows a pass over the case's claims may leave. */
  ghost predicate Generated(ev: Evidence, ratio: Ratio, prior: map<Id, Candidate>, rows: map<Id, Candidate>) {
    exists input: Input :: input.ratio == ratio && BuiltFrom(input, ev) && Passed(input, prior, rows, AllPairs(input))
  }

  lemma SamePerson(ev: Evidence, ev': Evidence, person: Id, p: Profile, q: Profile)
    requires SameEvidence(ev, ev') && person in PersonsIn(ev)
    requires IsProfile(ev.claims, person, ev.records[person], p) && IsProfile(ev'.claims, person, ev'.records[person], q)
    ensures p == q
  {
    assert SameClaims(ev.claims, ev'.claims, person);
    OnlyCountingClaimsMatter(ev.claims, ev'.claims, person, ev.records[person], p, q);
  }

  lemma SameProfiles(profiles: map<Id, Profile>, profiles': map<Id, Profile>)
    requires profiles.Keys == profiles'.Keys && forall person | person in profiles :: profiles[person] == profiles'[person]
    ensures profiles == profiles'
  {
  }

  lemma SameInput(ev: Evidence, ev': Evidence, input: Input, input': Input)
    requires SameEvidence(ev, ev') && BuiltFrom(input, ev) && BuiltFrom(input', ev') && input.ratio == input'.ratio
    ensures input == input'
  {
    forall person | person in input.profiles ensures input.profiles[person] == input'.profiles[person] {
      SamePerson(ev, ev', person, input.profiles[person], input'.profiles[person]);
    }
    SameProfiles(input.profiles, input'.profiles);
  }

  /** A second pass creates no row and changes none, if persons, labels and counting claims are the same as at the first. */
  lemma RepeatIsHarmless(ev: Evidence, ev': Evidence, ratio: Ratio, prior: map<Id, Candidate>, once: map<Id, Candidate>,
          twice: map<Id, Candidate>)
    requires Generated(ev, ratio, prior, once) && Generated(ev', ratio, once, twice) && SameEvidence(ev, ev')
    ensures twice == once
  {
    var input: Input :| input.ratio == ratio && BuiltFrom(input, ev) && Passed(input, prior, once, AllPairs(input));
    var input': Input :| input'.ratio == ratio && BuiltFrom(input', ev') && Passed(input', once, twice, AllPairs(input'));
    SameInput(ev, ev', input, input');
    SecondPassIsIdle(input, prior, once, twice, AllPairs(input));
  }

  // ---------------------------------------------------------------- one turn of the pass

  /** Rows found by pair, as the dictionary `existing` holds them. */
  ghost predicate Indexes(existing: map<Pair, Id>, prior: map<Id, Candidate>) {
    && (forall m | m in prior :: PairOf(prior[m]) in existing && existing[PairOf(prior[m])] == m)
    && (forall p | p in existing :: existing[p] in prior && PairOf(prior[existing[p]]) == p)
  }

  lemma OtherRowStep(input: Input, before: Candidate, after: Candidate, done: set<Pair>, p: Pair)
    requires OldRowOk(input, before, after, done) && PairOf(before) != p
    ensures OldRowOk(input, before, after, done + {p})
  {
  }

  lemma NewRowStep(input: Input, prior: map<Id, Candidate>, c: Candidate, done: set<Pair>, p: Pair)
    requires NewRowOk(input, prior, c, done)
    ensures NewRowOk(input, prior, c, done + {p})
  {
  }

  lemma RecomputedRow(input: Input, before: Candidate, after: Candidate, done: set<Pair>, p: Pair, r: Assessment)
    requires OldRowOk(input, before, after, done) && PairOf(before) == p && p !in done
    requires input.Considers(p) && input.Shares(p) && before.state == REVIEW_REQUIRED && input.Assesses(p, r)
    ensures OldRowOk(input, before, after.(assessment := r), done + {p})
  {
  }

  /** Writing a row keeps every pair's row as long as the row written keeps its pair. */
  lemma WritingKeepsRows(rows: map<Id, Candidate>, k: Id, c: Candidate, q: Pair)
    requires HasRow(rows, q) && (k in rows ==> PairOf(rows[k]) == PairOf(c))
    ensures HasRow(rows[k := c], q)
  {
    var m :| m in rows && PairOf(rows[m]) == q;
    assert PairOf(rows[k := c][m]) == q;
  }

  lemma WritingKeepsProposed(input: Input, rows: map<Id, Candidate>, done: set<Pair>, k: Id, c: Candidate)
    requires AllProposed(input, rows, done) && (k in rows ==> PairOf(rows[k]) == PairOf(c))
    ensures AllProposed(input, rows[k := c], done + {PairOf(c)})
  {
    assert PairOf(rows[k := c][k]) == PairOf(c);
    forall q | q in done && input.Considers(q) && input.Shares(q) ensures HasRow(rows[k := c], q) {
      WritingKeepsRows(rows, k, c, q);
    }
  }

  lemma OtherOldRows(input: Input, prior: map<Id, Candidate>, rows: map<Id, Candidate>, done: set<Pair>, p: Pair, k: Id,
          c: Candidate)
    requires OldRowsOk(input, prior, rows, done)
    requires forall m | m in prior && m != k :: PairOf(prior[m]) != p
    requires k in prior ==> OldRowOk(input, prior[k], c, done + {p})
    ensures OldRowsOk(input, prior, rows[k := c], done + {p})
  {
    forall m | m in prior ensures OldRowOk(input, prior[m], rows[k := c][m], done + {p}) {
      if m != k {
        OtherRowStep(input, prior[m], rows[m], done, p);
      }
    }
  }

  lemma OtherNewRows(input: Input, prior: map<Id, Candidate>, rows: map<Id, Candidate>, done: set<Pair>, p: Pair, k: Id,
          c: Candidate)
    requires NewRowsOk(input, prior, rows, done)
    requires k !in prior ==> NewRowOk(input, prior, c, done + {p})
    ensures NewRowsOk(input, prior, rows[k := c], done + {p})
  {
    forall m | m in rows[k := c].Keys && m !in prior ensures NewRowOk(input, prior, rows[k := c][m], done + {p}) {
      if m != k {
        NewRowStep(input, prior, rows[m], done, p);
      }
    }
  }

  lemma WritingKeepsOne(rows: map<Id, Candidate>, k: Id, c: Candidate)
    requires OnePerPair(rows)
    requires if k in rows then PairOf(rows[k]) == PairOf(c) else !HasRow(rows, PairOf(c))
    ensures OnePerPair(rows[k := c])
  {
    forall m | m in rows && m != k ensures PairOf(rows[m]) != PairOf(c) {
      assert k !in rows ==> !HasRow(rows, PairOf(c));
    }
  }

  /** An undecided row of the pair is assessed again. */
  lemma Recomputed(input: Input, prior: map<Id, Candidate>, rows: map<Id, Candidate>, existing: map<Pair, Id>,
          done: set<Pair>, p: Pair, r: Assessment)
    requires Passed(input, prior, rows, done) && Indexes(existing, prior) && input.Considers(p) && p !in done
    requires input.Shares(p) && p in existing && prior[existing[p]].state == REVIEW_REQUIRED && input.Assesses(p, r)
    ensures existing[p] in rows
    ensures Passed(input, prior, rows[existing[p] := rows[existing[p]].(assessment := r)], done + {p})
  {
    var k := existing[p];
    var c := rows[k].(assessment := r);
    RecomputedRow(input, prior[k], rows[k], done, p, r);
    assert forall m | m in prior && m != k :: PairOf(prior[m]) != p;
    OtherOldRows(input, prior, rows, done, p, k, c);
    OtherNewRows(input, prior, rows, done, p, k, c);
    WritingKeepsProposed(input, rows, done, k, c);
    WritingKeepsOne(rows, k, c);
  }

  /** A pair whose row is decided, or whose persons share no key, is left alone. */
  lemma Skipped(input: Input, prior: map<Id, Candidate>, rows: map<Id, Candidate>, existing: map<Pair, Id>,
          done: set<Pair>, p: Pair)
    requires Passed(input, prior, rows, done) && Indexes(existing, prior) && input.Considers(p) && p !in done
    requires !input.Shares(p) || (p in existing && prior[existing[p]].state != REVIEW_REQUIRED)
    ensures Passed(input, prior, rows, done + {p})
  {
    forall m | m in prior ensures OldRowOk(input, prior[m], rows[m], done + {p}) {
      assert OldRowOk(input, prior[m], rows[m], done);
      assert PairOf(prior[m]) == p ==> existing[p] == m;
    }
    forall m | m in rows && m !in prior ensures NewRowOk(input, prior, rows[m], done + {p}) {
      NewRowStep(input, prior, rows[m], done, p);
    }
    if input.Shares(p) {
      assert PairOf(rows[existing[p]]) == p;
    }
  }

  lemma NoRowYet(input: Input, prior: map<Id, Candidate>, rows: map<Id, Candidate>, existing: map<Pair, Id>,
          done: set<Pair>, p: Pair)
    requires OldRowsOk(input, prior, rows, done) && NewRowsOk(input, prior, rows, done) && Indexes(existing, prior)
    requires p !in existing && p !in done && input.Considers(p)
    ensures !HasRow(prior, p) && !HasRow(rows, p)
  {
    forall m | m in rows ensures PairOf(rows[m]) != p {
      if m in prior {
        assert OldRowOk(input, prior[m], rows[m], done);
      } else {
        assert NewRowOk(input, prior, rows[m], done);
      }
    }
  }

  /** A pair without a row gets one. */
  lemma Created(input: Input, prior: map<Id, Candidate>, rows: map<Id, Candidate>, existing: map<Pair, Id>,
          done: set<Pair>, p: Pair, r: Assessment, k: Id)
    requires Passed(input, prior, rows, done) && Indexes(existing, prior) && input.Considers(p) && p !in done
    requires input.Shares(p) && p !in existing && input.Assesses(p, r) && k !in rows
    ensures Passed(input, prior, rows[k := Candidate(p.0, p.1, REVIEW_REQUIRED, r)], done + {p})
  {
    var c := Candidate(p.0, p.1, REVIEW_REQUIRED, r);
    NoRowYet(input, prior, rows, existing, done, p);
    OtherOldRows(input, prior, rows, done, p, k, c);
    OtherNewRows(input, prior, rows, done, p, k, c);
    WritingKeepsProposed(input, rows, done, k, c);
    WritingKeepsOne(rows, k, c);
  }

  /** New rows have no reviews yet, so generation keeps states and logs consistent. */
  lemma PassKeepsConsistent(input: Input, prior: map<Id, Candidate>, rows: map<Id, Candidate>, reviews: seq<Entry>)
    requires Consistent(prior, reviews) && Passed(input, prior, rows, AllPairs(input))
    ensures Consistent(rows, reviews)
  {
    forall m | m in rows ensures rows[m].state == CandidateState(LogOf(reviews, MATCH, m)) {
      if m in prior {
        assert OldRowOk(input, prior[m], rows[m], AllPairs(input));
      } else {
        assert NewRowOk(input, prior, rows[m], AllPairs(input));
        NoLogWithoutReviews(reviews, MATCH, m);
      }
    }
  }

  // ---------------------------------------------------------------- the program

  /** The dictionary of existing rows by pair. */
  method IndexRows(rows: map<Id, Candidate>) returns (existing: map<Pair, Id>)
    requires OnePerPair(rows)
    ensures Indexes(existing, rows)
  {
    existing := map[];
    var left := rows.Keys;
    while left != {}
      invariant left <= rows.Keys
      invariant forall m | m in rows.Keys - left :: PairOf(rows[m]) in existing && existing[PairOf(rows[m])] == m
      invariant forall p | p in existing :: existing[p] in rows.Keys - left && PairOf(rows[existing[p]]) == p
      decreases left
    {
      var m :| m in left;
      existing, left := existing[PairOf(rows[m]) := m], left - {m};
    }
  }

  /** The pairs' profiles share a blocking key, and if so their assessment. */
  method AssessPair(input: Input, p: Pair) returns (shares: bool, r: Assessment)
    requires input.Considers(p)
    ensures shares == input.Shares(p) && input.Assesses(p, r)
  {
    var a, b := input.profiles[p.0], input.profiles[p.1];
    shares := BlockKeys(a) * BlockKeys(b) != {};
    r := AssessProfiles(input.ratio, a, b);
  }

  /** One turn of the pass; `k` is the id a new row would get. */
  method Propose(input: Input, ghost prior: map<Id, Candidate>, rows: map<Id, Candidate>, existing: map<Pair, Id>,
          ghost done: set<Pair>, p: Pair, k: Id)
    returns (rows': map<Id, Candidate>)
    requires Passed(input, prior, rows, done) && Indexes(existing, prior) && input.Considers(p) && p !in done && k !in rows
    ensures Passed(input, prior, rows', done + {p}) && rows'.Keys <= rows.Keys + {k}
  {
    if p in existing {
      assert OldRowOk(input, prior[existing[p]], rows[existing[p]], done);
      if rows[existing[p]].state != REVIEW_REQUIRED {
        Skipped(input, prior, rows, existing, done, p);
        return rows;
      }
    }
    var shares, r := AssessPair(input, p);
    if !shares {
      Skipped(input, prior, rows, existing, done, p);
      return rows;
    }
    if p in existing {
      Recomputed(input, prior, rows, existing, done, p, r);
      return rows[existing[p] := rows[existing[p]].(assessment := r)];
    }
    Created(input, prior, rows, existing, done, p, r, k);
    return rows[k := Candidate(p.0, p.1, REVIEW_REQUIRED, r)];
  }

  /** The pairs before turn (i, j) of the double loop. */
  ghost function Handled(order: seq<Id>, i: int, j: int): set<Pair> {
    set a, b | 0 <= a < b < |order| && (a < i || (a == i && b < j)) :: (order[a], order[b])
  }

  lemma HandledNext(order: seq<Id>, i: nat, j: nat)
    requires Increasing(order) && i < j < |order|
    ensures Handled(order, i, j + 1) == Handled(order, i, j) + {(order[i], order[j])}
    ensures (order[i], order[j]) !in Handled(order, i, j)
  {
    forall a | 0 <= a < |order| && order[a] == order[i] ensures a == i {
      assert a < i || a == i || a > i;
    }
    forall b | 0 <= b < |order| && order[b] == order[j] ensures b == j {
      assert b < j || b == j || b > j;
    }
  }

  lemma HandledAll(input: Input, order: seq<Id>)
    requires Increasing(order) && forall x :: x in order <==> x in input.profiles
    ensures Handled(order, |order|, 0) == AllPairs(input)
  {
    forall p | p in AllPairs(input) ensures p in Handled(order, |order|, 0) {
      var a :| 0 <= a < |order| && order[a] == p.0;
      var b :| 0 <= b < |order| && order[b] == p.1;
      assert a < b;
    }
  }

  lemma HandledRow(order: seq<Id>, i: nat)
    requires i < |order|
    ensures Handled(order, 0, 0) == {}
    ensures Handled(order, i, 0) == Handled(order, i, i + 1)
    ensures Handled(order, i, |order|) == Handled(order, i + 1, 0)
  {
  }

  /** The ids in use lie below `k`. */
  predicate Below(rows: map<Id, Candidate>, k: Id) { forall m | m in rows :: m < k }

  /** One turn of the inner loop. */
  method PassTurn(input: Input, ghost prior: map<Id, Candidate>, before: map<Id, Candidate>, existing: map<Pair, Id>,
          order: seq<Id>, i: nat, j: nat, k: Id, ghost done: set<Pair>) returns (rows: map<Id, Candidate>)
    requires Increasing(order) && (forall x | x in order :: x in input.profiles) && i < j < |order|
    requires Indexes(existing, prior) && done == Handled(order, i, j) && Passed(input, prior, before, done) && Below(before, k)
    ensures Passed(input, prior, rows, Handled(order, i, j + 1)) && Below(rows, k + 1)
  {
    HandledNext(order, i, j);
    rows := Propose(input, prior, before, existing, done, (order[i], order[j]), k);
  }

  /** The pairs of one person with all later ones. */
  method PassRow(input: Input, ghost prior: map<Id, Candidate>, before: map<Id, Candidate>, existing: map<Pair, Id>,
          order: seq<Id>, i: nat, ids: Id) returns (rows: map<Id, Candidate>, k: Id)
    requires Increasing(order) && (forall x | x in order :: x in input.profiles) && i < |order|
    requires Indexes(existing, prior) && Passed(input, prior, before, Handled(order, i, 0)) && Below(before, ids)
    ensures Passed(input, prior, rows, Handled(order, i + 1, 0)) && Below(rows, k)
  {
    rows, k := before, ids;
    HandledRow(order, i);
    ghost var done := Handled(order, i, 0);
    for j := i + 1 to |order|
      invariant done == Handled(order, i, j) && Passed(input, prior, rows, done) && Below(rows, k)
    {
      rows := PassTurn(input, prior, rows, existing, order, i, j, k, done);
      done, k := Handled(order, i, j + 1), k + 1;
    }
  }

  method Pass(input: Input, prior: map<Id, Candidate>, ids: Id) returns (rows: map<Id, Candidate>)
    requires OnePerPair(prior) && Below(prior, ids)
    ensures Passed(input, prior, rows, AllPairs(input))
  {
    var order := Sorted(input.profiles.Keys);
    var existing := IndexRows(prior);
    var k := ids;
    rows := prior;
    assert Handled(order, 0, 0) == {};
    for i := 0 to |order|
      invariant Below(rows, k) && Passed(input, prior, rows, Handled(order, i, 0))
    {
      rows, k := PassRow(input, prior, rows, existing, order, i, k);
    }
    HandledAll(input, order);
  }

  /** The profiles of all persons of the case. */
  method BuildInput(ev: Evidence, ratio: Ratio) returns (input: Input)
    ensures input.ratio == ratio && BuiltFrom(input, ev)
  {
    var profiles: map<Id, Profile> := map[];
    var left := PersonsIn(ev);
    while left != {}
      invariant left <= PersonsIn(ev) && profiles.Keys == PersonsIn(ev) - left
      invariant forall person | person in profiles :: IsProfile(ev.claims, person, ev.records[person], profiles[person])
      decreases left
    {
      var person: Id :| person in left;
      var p := BuildProfile(ev.claims, person, ev.records[person]);
      profiles, left := profiles[person := p], left - {person};
    }
    input := Input(profiles, ratio);
  }

  /**
   `generate_candidates`: rewrites the case's candidate rows by one pass over all pairs of persons and returns
   the ids of new rows, taken from `ids` on.
  */
  method GenerateCandidates(cr: CaseReviews, ev: Evidence, ratio: Ratio, ids: Id) returns (created: set<Id>)
    requires cr.Valid() && OnePerPair(cr.candidates) && Below(cr.candidates, ids)
    modifies cr`candidates
    ensures Generated(ev, ratio, old(cr.candidates), cr.candidates)
    ensures ProposesCandidates(ev, ratio, old(cr.candidates), cr.candidates)
    ensures created == cr.candidates.Keys - old(cr.candidates).Keys
    ensures cr.Valid() && OnePerPair(cr.candidates)
  {
    var input := BuildInput(ev, ratio);
    var rows := Pass(input, cr.candidates, ids);
    created := rows.Keys - cr.candidates.Keys;
    PassKeepsConsistent(input, cr.candidates, rows, cr.reviews);
    CandidatesAreProposed(ev, input, cr.candidates, rows);
    cr.candidates := rows;
  }
}
