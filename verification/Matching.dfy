/**
 How `resolution.py` scores one pair of person records: profiles, blocking keys, the listed signals and the
 confidence. Scores are in hundredths; names are token lists; the string similarity is a parameter.
*/
module Matching {
  type Id = nat
  type Name = seq<string>
  /** Similarity of two names in thousandths. */
  type Ratio = (Name, Name) -> nat

  datatype Profile = Profile(names: set<Name>, aliases: set<Name>, phones: set<Id>, accounts: set<Id>, orgs: set<Id>,
          dob: set<Id>, address: set<Id>, evidence: set<Id>)

  // ---------------------------------------------------------------- blocking

  datatype BlockKey = NameBlock(last: string, initial: char) | PhoneBlock(phone: Id)

  function BlockKeys(p: Profile): set<BlockKey> {
    (set n | n in p.names + p.aliases && n != [] && n[0] != [] :: NameBlock(n[|n| - 1], n[0][0])) +
    (set phone | phone in p.phones :: PhoneBlock(phone))
  }

  ghost predicate HaveCommonPhone(a: Profile, b: Profile) { exists phone :: phone in a.phones && phone in b.phones }

  ghost predicate HaveAlikeNames(a: Profile, b: Profile) {
    exists n, m :: (n in a.names || n in a.aliases) && (m in b.names || m in b.aliases) && AlikeEnds(n, m)
  }

  /** Two persons share a key if they share a phone, or have names with the same last word and the same first character. */
  lemma SharedKeys(a: Profile, b: Profile)
    ensures BlockKeys(a) * BlockKeys(b) != {} <==> HaveCommonPhone(a, b) || HaveAlikeNames(a, b)
  {
    if key :| key in BlockKeys(a) && key in BlockKeys(b) {
      match key
      case PhoneBlock(phone) => assert phone in a.phones && phone in b.phones;
      case NameBlock(last, initial) =>
        var n :| n in a.names + a.aliases && n != [] && n[0] != [] && NameBlock(n[|n| - 1], n[0][0]) == key;
        var m :| m in b.names + b.aliases && m != [] && m[0] != [] && NameBlock(m[|m| - 1], m[0][0]) == key;
        assert AlikeEnds(n, m);
    }
    if phone :| phone in a.phones && phone in b.phones {
      assert PhoneBlock(phone) in BlockKeys(a) * BlockKeys(b);
    }
    if n, m :| (n in a.names || n in a.aliases) && (m in b.names || m in b.aliases) && AlikeEnds(n, m) {
      assert n in a.names + a.aliases && m in b.names + b.aliases;
      assert NameBlock(n[|n| - 1], n[0][0]) in BlockKeys(a) * BlockKeys(b);
    }
  }

  /** Both names have words, their last words are equal, and so are their first characters. */
  predicate AlikeEnds(n: Name, m: Name) {
    |n| > 0 && |m| > 0 && |n[0]| > 0 && |m[0]| > 0 && n[|n| - 1] == m[|m| - 1] && n[0][0] == m[0][0]
  }

  // ---------------------------------------------------------------- name similarity

  /** `best` is the greatest similarity over all pairs, and 0 when there is no pair. */
  ghost predicate IsBest(ratio: Ratio, a: set<Name>, b: set<Name>, best: nat) {
    && (forall x, y | x in a && y in b :: ratio(x, y) <= best)
    && (best == 0 || exists x, y :: x in a && y in b && ratio(x, y) == best)
  }

  ghost function Greatest(s: set<nat>): (m: nat)
    ensures (forall x | x in s :: x <= m) && (m == 0 || m in s)
  {
    if s == {} then 0
    else
      var x: nat :| x in s;
      var m := Greatest(s - {x});
      assert s == (s - {x}) + {x};
      if x > m then x else m
  }

  /** The similarity of two sets of names: that of their most similar pair. */
  ghost function Similarity(ratio: Ratio, a: set<Name>, b: set<Name>): (best: nat)
    ensures IsBest(ratio, a, b, best)
  {
    var all := set x, y | x in a && y in b :: ratio(x, y);
    assert forall x, y | x in a && y in b :: ratio(x, y) in all;
    Greatest(all)
  }

  /** How alike two persons' names and aliases are. */
  ghost function NamesAlike(ratio: Ratio, a: Profile, b: Profile): nat {
    Similarity(ratio, a.names + a.aliases, b.names + b.aliases)
  }

  method NameSimilarity(ratio: Ratio, a: set<Name>, b: set<Name>) returns (best: nat)
    ensures IsBest(ratio, a, b, best) && best == Similarity(ratio, a, b)
  {
    best := 0;
    var xs := a;
    while xs != {}
      invariant xs <= a && IsBest(ratio, a - xs, b, best)
      decreases xs
    {
      var x :| x in xs;
      var ys := b;
      while ys != {}
        invariant ys <= b
        invariant forall y | y in b - ys :: ratio(x, y) <= best
        invariant forall v, y | v in a - xs && y in b :: ratio(v, y) <= best
        invariant best == 0 || exists v, y :: v in a - xs + {x} && y in b && ratio(v, y) == best
        decreases ys
      {
        var y :| y in ys;
        if ratio(x, y) > best {
          best := ratio(x, y);
        }
        ys := ys - {y};
      }
      xs := xs - {x};
    }
    assert a - {} == a;
  }

  // ---------------------------------------------------------------- signals

  datatype Attribute = Dob | Address

  datatype Signal =
    | NameExact | NameSimilar | SharedPhone | SharedAccount | SharedOrganisation | Matches(attr: Attribute)
    | NameDiffers | IdentifierOnly
    | OrganisationConflict | Conflict(attr: Attribute)
    | MissingAttribute(attr: Attribute) | MissingPhone

  function Weight(s: Signal): int {
    match s
    case NameExact => 35
    case NameSimilar => 25
    case SharedPhone => 30
    case SharedAccount => 25
    case SharedOrganisation => 10
    case Matches(_) => 20
    case NameDiffers => -30
    case IdentifierOnly => 0
    case OrganisationConflict => -15
    case Conflict(_) => -35
    case MissingAttribute(_) => 0
    case MissingPhone => 0
  }

  function Total(signals: seq<Signal>): int {
    if signals == [] then 0 else Total(signals[..|signals| - 1]) + Weight(signals[|signals| - 1])
  }

  /** What a candidate row records about its pair. */
  datatype Assessment = Assessment(blocks: set<BlockKey>, positive: seq<Signal>, counter: seq<Signal>,
          conflicts: seq<Signal>, missing: seq<Signal>, confidence: int, evidence: set<Id>)

  function Clamp(x: int): int {
    if x < 2 then 2 else if x > 98 then 98 else x
  }

  function Values(p: Profile, attr: Attribute): set<Id> {
    match attr
    case Dob => p.dob
    case Address => p.address
  }

  // ---------------------------------------------------------------- which signals a pair shows

  /** A list with one more signal, if it is shown. */
  function With(signals: seq<Signal>, shown: bool, s: Signal): seq<Signal> { if shown then signals + [s] else signals }

  predicate Agrees(a: Profile, b: Profile, attr: Attribute) { Values(a, attr) * Values(b, attr) != {} }

  /** Both sides have data and none of it agrees. */
  predicate Clash(x: set<Id>, y: set<Id>) { x != {} && y != {} && x * y == {} }

  predicate Unknown(a: Profile, b: Profile, attr: Attribute) { Values(a, attr) == {} || Values(b, attr) == {} }

  /** What the similarity adds to the signals in favour. */
  function NameSignal(similarity: nat): seq<Signal> {
    With(With([], similarity >= 999, NameExact), 800 <= similarity < 999, NameSimilar)
  }

  function Identifiers(a: Profile, b: Profile, similarity: nat): seq<Signal> {
    With(With(NameSignal(similarity), a.phones * b.phones != {}, SharedPhone), a.accounts * b.accounts != {}, SharedAccount)
  }

  function Positive(a: Profile, b: Profile, similarity: nat): seq<Signal> {
    With(With(With(Identifiers(a, b, similarity), a.orgs * b.orgs != {}, SharedOrganisation),
              Agrees(a, b, Dob), Matches(Dob)), Agrees(a, b, Address), Matches(Address))
  }

  function Counter(similarity: nat, positive: seq<Signal>): seq<Signal> {
    With(With([], similarity < 800, NameDiffers), positive == [SharedPhone], IdentifierOnly)
  }

  function Conflicts(a: Profile, b: Profile): seq<Signal> {
    With(With(With([], Clash(a.orgs, b.orgs), OrganisationConflict), Clash(a.dob, b.dob), Conflict(Dob)), Clash(a.address, b.address), Conflict(Address))
  }

  function Missing(a: Profile, b: Profile): seq<Signal> {
    With(With(With([], Unknown(a, b, Dob), MissingAttribute(Dob)), Unknown(a, b, Address), MissingAttribute(Address)),
         a.phones == {} || b.phones == {}, MissingPhone)
  }

  function Confidence(positive: seq<Signal>, counter: seq<Signal>, conflicts: seq<Signal>): int {
    Clamp(50 + Total(positive) + Total(counter) + Total(conflicts))
  }

  /** The assessment of a pair: its confidence is one half plus everything listed, kept away from 0 and 1. */
  function Assess(a: Profile, b: Profile, similarity: nat): Assessment {
    var positive, conflicts := Positive(a, b, similarity), Conflicts(a, b);
    var counter := Counter(similarity, positive);
    Assessment(BlockKeys(a) * BlockKeys(b), positive, counter, conflicts, Missing(a, b),
               Confidence(positive, counter, conflicts), a.evidence + b.evidence)
  }

  lemma TotalWith(signals: seq<Signal>, shown: bool, s: Signal)
    ensures Total(With(signals, shown, s)) == Total(signals) + if shown then Weight(s) else 0
  {
    if shown {
      assert (signals + [s])[..|signals|] == signals;
    }
  }

  // ---------------------------------------------------------------- what an assessment says

  /** Which signals are listed, in favour, against, as conflicts and as missing. */
  predicate ListsSignals(a: Profile, b: Profile, s: nat, r: Assessment) {
    && (NameExact in r.positive <==> s >= 999) && (NameSimilar in r.positive <==> 800 <= s < 999)
    && (SharedPhone in r.positive <==> a.phones * b.phones != {}) && (SharedAccount in r.positive <==> a.accounts * b.accounts != {})
    && (SharedOrganisation in r.positive <==> a.orgs * b.orgs != {})
    && (Matches(Dob) in r.positive <==> a.dob * b.dob != {}) && (Matches(Address) in r.positive <==> a.address * b.address != {})
    && (NameDiffers in r.counter <==> s < 800) && (IdentifierOnly in r.counter <==> r.positive == [SharedPhone])
    && (OrganisationConflict in r.conflicts <==> a.orgs != {} && b.orgs != {} && a.orgs * b.orgs == {})
    && (Conflict(Dob) in r.conflicts <==> a.dob != {} && b.dob != {} && a.dob * b.dob == {})
    && (Conflict(Address) in r.conflicts <==> a.address != {} && b.address != {} && a.address * b.address == {})
    && (MissingAttribute(Dob) in r.missing <==> a.dob == {} || b.dob == {})
    && (MissingAttribute(Address) in r.missing <==> a.address == {} || b.address == {})
    && (MissingPhone in r.missing <==> a.phones == {} || b.phones == {})
  }

  /** What two sets are worth: agreement, conflict or missing data. */
  function Weigh(x: set<Id>, y: set<Id>, agreed: int, conflicting: int): int {
    if x == {} || y == {} then 0 else if x * y != {} then agreed else conflicting
  }

  /** What the columns of two profiles are worth, before it is kept away from 0 and 1. */
  function Worth(a: Profile, b: Profile, s: nat): int {
    50 + (if s >= 999 then 35 else if s >= 800 then 25 else -30)
       + Weigh(a.phones, b.phones, 30, 0) + Weigh(a.accounts, b.accounts, 25, 0) + Weigh(a.orgs, b.orgs, 10, -15)
       + Weigh(a.dob, b.dob, 20, -35) + Weigh(a.address, b.address, 20, -35)
  }

  lemma WithHas(signals: seq<Signal>, shown: bool, s: Signal, x: Signal)
    ensures x in With(signals, shown, s) <==> x in signals || (shown && x == s)
  {
  }

  lemma PositiveHas(a: Profile, b: Profile, s: nat, x: Signal)
    ensures x in Positive(a, b, s) <==> match x
              case NameExact => s >= 999
              case NameSimilar => 800 <= s < 999
              case SharedPhone => a.phones * b.phones != {}
              case SharedAccount => a.accounts * b.accounts != {}
              case SharedOrganisation => a.orgs * b.orgs != {}
              case Matches(attr) => (if attr == Dob then a.dob * b.dob else a.address * b.address) != {}
              case _ => false
  {
    var names := NameSignal(s);
    var phones := With(names, a.phones * b.phones != {}, SharedPhone);
    var accounts := Identifiers(a, b, s);
    var orgs := With(accounts, a.orgs * b.orgs != {}, SharedOrganisation);
    var dob := With(orgs, Agrees(a, b, Dob), Matches(Dob));
    WithHas([], s >= 999, NameExact, x);
    WithHas(With([], s >= 999, NameExact), 800 <= s < 999, NameSimilar, x);
    WithHas(names, a.phones * b.phones != {}, SharedPhone, x);
    WithHas(phones, a.accounts * b.accounts != {}, SharedAccount, x);
    WithHas(accounts, a.orgs * b.orgs != {}, SharedOrganisation, x);
    WithHas(orgs, Agrees(a, b, Dob), Matches(Dob), x);
    WithHas(dob, Agrees(a, b, Address), Matches(Address), x);
  }

  lemma ListedSignals(a: Profile, b: Profile, s: nat)
    ensures ListsSignals(a, b, s, Assess(a, b, s))
  {
    PositiveHas(a, b, s, NameExact);
    PositiveHas(a, b, s, NameSimilar);
    PositiveHas(a, b, s, SharedPhone);
    PositiveHas(a, b, s, SharedAccount);
    PositiveHas(a, b, s, SharedOrganisation);
    PositiveHas(a, b, s, Matches(Dob));
    PositiveHas(a, b, s, Matches(Address));
    OtherLists(a, b, s, Positive(a, b, s));
  }

  lemma OtherLists(a: Profile, b: Profile, s: nat, positive: seq<Signal>)
    ensures var counter := Counter(s, positive);
            (NameDiffers in counter <==> s < 800) && (IdentifierOnly in counter <==> positive == [SharedPhone])
    ensures OrganisationConflict in Conflicts(a, b) <==> a.orgs != {} && b.orgs != {} && a.orgs * b.orgs == {}
    ensures Conflict(Dob) in Conflicts(a, b) <==> a.dob != {} && b.dob != {} && a.dob * b.dob == {}
    ensures Conflict(Address) in Conflicts(a, b) <==> a.address != {} && b.address != {} && a.address * b.address == {}
    ensures MissingAttribute(Dob) in Missing(a, b) <==> a.dob == {} || b.dob == {}
    ensures MissingAttribute(Address) in Missing(a, b) <==> a.address == {} || b.address == {}
    ensures MissingPhone in Missing(a, b) <==> a.phones == {} || b.phones == {}
  {
  }

  lemma TotalName(s: nat)
    ensures Total(NameSignal(s)) == if s >= 999 then 35 else if s >= 800 then 25 else 0
  {
    TotalWith([], s >= 999, NameExact);
    TotalWith(With([], s >= 999, NameExact), 800 <= s < 999, NameSimilar);
  }

  function Plus(x: set<Id>, y: set<Id>, agreed: int): int { Weigh(x, y, agreed, 0) }

  function Minus(x: set<Id>, y: set<Id>, conflicting: int): int { Weigh(x, y, 0, conflicting) }

  lemma TotalPlus(signals: seq<Signal>, x: set<Id>, y: set<Id>, s: Signal)
    ensures Total(With(signals, x * y != {}, s)) == Total(signals) + Plus(x, y, Weight(s))
  {
    TotalWith(signals, x * y != {}, s);
  }

  lemma TotalMinus(signals: seq<Signal>, x: set<Id>, y: set<Id>, s: Signal)
    ensures Total(With(signals, Clash(x, y), s)) == Total(signals) + Minus(x, y, Weight(s))
  {
    TotalWith(signals, Clash(x, y), s);
  }

  lemma TotalPositive(a: Profile, b: Profile, s: nat)
    ensures Total(Positive(a, b, s)) == Total(NameSignal(s)) + Plus(a.phones, b.phones, 30) + Plus(a.accounts, b.accounts, 25)
              + Plus(a.orgs, b.orgs, 10) + Plus(a.dob, b.dob, 20) + Plus(a.address, b.address, 20)
  {
    var name := NameSignal(s);
    var phones := With(name, a.phones * b.phones != {}, SharedPhone);
    var accounts := With(phones, a.accounts * b.accounts != {}, SharedAccount);
    var orgs := With(accounts, a.orgs * b.orgs != {}, SharedOrganisation);
    var dob := With(orgs, a.dob * b.dob != {}, Matches(Dob));
    TotalPlus(name, a.phones, b.phones, SharedPhone);
    TotalPlus(phones, a.accounts, b.accounts, SharedAccount);
    TotalPlus(accounts, a.orgs, b.orgs, SharedOrganisation);
    TotalPlus(orgs, a.dob, b.dob, Matches(Dob));
    TotalPlus(dob, a.address, b.address, Matches(Address));
  }

  lemma TotalConflicts(a: Profile, b: Profile)
    ensures Total(Conflicts(a, b)) == Minus(a.orgs, b.orgs, -15) + Minus(a.dob, b.dob, -35) + Minus(a.address, b.address, -35)
  {
    var orgs := With([], Clash(a.orgs, b.orgs), OrganisationConflict);
    var dob := With(orgs, Clash(a.dob, b.dob), Conflict(Dob));
    TotalMinus([], a.orgs, b.orgs, OrganisationConflict);
    TotalMinus(orgs, a.dob, b.dob, Conflict(Dob));
    TotalMinus(dob, a.address, b.address, Conflict(Address));
  }

  lemma TotalCounter(s: nat, positive: seq<Signal>)
    ensures Total(Counter(s, positive)) == if s < 800 then -30 else 0
  {
    TotalWith([], s < 800, NameDiffers);
    TotalWith(With([], s < 800, NameDiffers), positive == [SharedPhone], IdentifierOnly);
  }

  lemma PlusAndMinus(x: set<Id>, y: set<Id>, agreed: int, conflicting: int)
    ensures Plus(x, y, agreed) + Minus(x, y, conflicting) == Weigh(x, y, agreed, conflicting)
  {
  }

  lemma SumIsWorth(a: Profile, b: Profile, s: nat, positive: seq<Signal>, counter: seq<Signal>, conflicts: seq<Signal>)
    requires Total(positive) == Total(NameSignal(s)) + Plus(a.phones, b.phones, 30) + Plus(a.accounts, b.accounts, 25)
               + Plus(a.orgs, b.orgs, 10) + Plus(a.dob, b.dob, 20) + Plus(a.address, b.address, 20)
    requires Total(conflicts) == Minus(a.orgs, b.orgs, -15) + Minus(a.dob, b.dob, -35) + Minus(a.address, b.address, -35)
    requires Total(counter) == if s < 800 then -30 else 0
    ensures 50 + Total(positive) + Total(counter) + Total(conflicts) == Worth(a, b, s)
  {
    TotalName(s);
    PlusAndMinus(a.orgs, b.orgs, 10, -15);
    PlusAndMinus(a.dob, b.dob, 20, -35);
    PlusAndMinus(a.address, b.address, 20, -35);
  }

  lemma ConfidenceIsWorth(a: Profile, b: Profile, s: nat)
    ensures Assess(a, b, s).confidence == if Worth(a, b, s) < 2 then 2 else if Worth(a, b, s) > 98 then 98 else Worth(a, b, s)
  {
    TotalPositive(a, b, s);
    TotalCounter(s, Positive(a, b, s));
    TotalConflicts(a, b);
    SumIsWorth(a, b, s, Positive(a, b, s), Counter(s, Positive(a, b, s)), Conflicts(a, b));
  }

  // ---------------------------------------------------------------- the scoring code

  /** The names alone. */
  method ScoreNames(similarity: nat) returns (positive: seq<Signal>, counter: seq<Signal>, score: int)
    ensures positive == NameSignal(similarity) && counter == With([], similarity < 800, NameDiffers)
    ensures score == Total(positive) + Total(counter)
  {
    positive, counter, score := [], [], 0;
    TotalWith([], similarity >= 999, NameExact);
    TotalWith(With([], similarity >= 999, NameExact), 800 <= similarity < 999, NameSimilar);
    TotalWith([], similarity < 800, NameDiffers);
    if similarity >= 999 {
      positive, score := positive + [NameExact], score + 35;
    } else if similarity >= 800 {
      positive, score := positive + [NameSimilar], score + 25;
    } else {
      counter, score := counter + [NameDiffers], score - 30;
    }
  }

  /** Names, phones and accounts. */
  method ScoreIdentifiers(a: Profile, b: Profile, similarity: nat)
    returns (positive: seq<Signal>, counter: seq<Signal>, score: int)
    ensures positive == Identifiers(a, b, similarity)
    ensures counter == With([], similarity < 800, NameDiffers)
    ensures score == Total(positive) + Total(counter)
  {
    positive, counter, score := ScoreNames(similarity);
    TotalWith(positive, a.phones * b.phones != {}, SharedPhone);
    if a.phones * b.phones != {} {
      positive, score := positive + [SharedPhone], score + 30;
    }
    TotalWith(positive, a.accounts * b.accounts != {}, SharedAccount);
    if a.accounts * b.accounts != {} {
      positive, score := positive + [SharedAccount], score + 25;
    }
  }

  method ScoreOrganisations(a: Profile, b: Profile, positive: seq<Signal>)
    returns (positive': seq<Signal>, conflicts: seq<Signal>, change: int)
    ensures positive' == With(positive, a.orgs * b.orgs != {}, SharedOrganisation)
    ensures conflicts == With([], Clash(a.orgs, b.orgs), OrganisationConflict)
    ensures change == Total(positive') + Total(conflicts) - Total(positive)
  {
    positive', conflicts, change := positive, [], 0;
    TotalWith(positive, a.orgs * b.orgs != {}, SharedOrganisation);
    TotalWith([], Clash(a.orgs, b.orgs), OrganisationConflict);
    if a.orgs * b.orgs != {} {
      positive', change := positive' + [SharedOrganisation], 10;
    } else if a.orgs != {} && b.orgs != {} {
      conflicts, change := conflicts + [OrganisationConflict], -15;
    }
  }

  /** One turn of the loop over "dob" and "address". */
  method ScoreAttribute(a: Profile, b: Profile, attr: Attribute, positive: seq<Signal>, conflicts: seq<Signal>,
          missing: seq<Signal>)
    returns (positive': seq<Signal>, conflicts': seq<Signal>, missing': seq<Signal>, change: int)
    ensures positive' == With(positive, Agrees(a, b, attr), Matches(attr))
    ensures conflicts' == With(conflicts, Clash(Values(a, attr), Values(b, attr)), Conflict(attr))
    ensures missing' == With(missing, Unknown(a, b, attr), MissingAttribute(attr))
    ensures change == Total(positive') + Total(conflicts') - Total(positive) - Total(conflicts)
  {
    positive', conflicts', missing', change := positive, conflicts, missing, 0;
    TotalWith(positive, Agrees(a, b, attr), Matches(attr));
    TotalWith(conflicts, Clash(Values(a, attr), Values(b, attr)), Conflict(attr));
    if Values(a, attr) != {} && Values(b, attr) != {} {
      if Values(a, attr) * Values(b, attr) != {} {
        positive', change := positive' + [Matches(attr)], 20;
      } else {
        conflicts', change := conflicts' + [Conflict(attr)], -35;
      }
    } else {
      missing' := missing' + [MissingAttribute(attr)];
    }
  }

  method ScoreAttributes(a: Profile, b: Profile, positive: seq<Signal>, conflicts: seq<Signal>)
    returns (positive': seq<Signal>, conflicts': seq<Signal>, missing': seq<Signal>, change: int)
    ensures positive' == With(With(positive, Agrees(a, b, Dob), Matches(Dob)), Agrees(a, b, Address), Matches(Address))
    ensures conflicts' == With(With(conflicts, Clash(a.dob, b.dob), Conflict(Dob)), Clash(a.address, b.address), Conflict(Address))
    ensures missing' == With(With([], Unknown(a, b, Dob), MissingAttribute(Dob)), Unknown(a, b, Address), MissingAttribute(Address))
    ensures change == Total(positive') + Total(conflicts') - Total(positive) - Total(conflicts)
  {
    var more;
    positive', conflicts', missing', change := ScoreAttribute(a, b, Dob, positive, conflicts, []);
    positive', conflicts', missing', more := ScoreAttribute(a, b, Address, positive', conflicts', missing');
    change := change + more;
  }

  method ScoreLists(a: Profile, b: Profile, similarity: nat)
    returns (positive: seq<Signal>, counter: seq<Signal>, conflicts: seq<Signal>, missing: seq<Signal>, score: int)
    ensures positive == Positive(a, b, similarity) && counter == With([], similarity < 800, NameDiffers)
    ensures conflicts == Conflicts(a, b) && missing == Missing(a, b)
    ensures score == Total(positive) + Total(counter) + Total(conflicts)
  {
    var change;
    positive, counter, score := ScoreIdentifiers(a, b, similarity);
    positive, conflicts, change := ScoreOrganisations(a, b, positive);
    score := score + change;
    positive, conflicts, missing, change := ScoreAttributes(a, b, positive, conflicts);
    score := score + change;
    if !(a.phones != {} && b.phones != {}) {
      missing := missing + [MissingPhone];
    }
  }

  method Caveat(similarity: nat, positive: seq<Signal>, counter: seq<Signal>) returns (counter': seq<Signal>)
    requires counter == With([], similarity < 800, NameDiffers)
    ensures counter' == Counter(similarity, positive) && Total(counter') == Total(counter)
  {
    TotalWith(counter, positive == [SharedPhone], IdentifierOnly);
    counter' := if |positive| == 1 && positive[0] == SharedPhone then counter + [IdentifierOnly] else counter;
  }

  method Score(a: Profile, b: Profile, similarity: nat) returns (r: Assessment)
    ensures r == Assess(a, b, similarity)
  {
    var positive, counter, conflicts, missing, score := ScoreLists(a, b, similarity);
    counter := Caveat(similarity, positive, counter);
    var confidence := if 50 + score > 98 then 98 else 50 + score;
    confidence := if confidence < 2 then 2 else confidence;
    assert confidence == Confidence(positive, counter, conflicts);
    return Assessment(BlockKeys(a) * BlockKeys(b), positive, counter, conflicts, missing, confidence, a.evidence + b.evidence);
  }

  /** Everything the row of a pair records, given how alike their names are. */
  method ScorePair(a: Profile, b: Profile, similarity: nat) returns (r: Assessment)
    ensures r == Assess(a, b, similarity) && ListsSignals(a, b, similarity, r)
    ensures r.confidence == if Worth(a, b, similarity) < 2 then 2 else if Worth(a, b, similarity) > 98 then 98 else Worth(a, b, similarity)
    ensures r.evidence == a.evidence + b.evidence
  {
    r := Score(a, b, similarity);
    ListedSignals(a, b, similarity);
    ConfidenceIsWorth(a, b, similarity);
  }

  /** The names are compared first. */
  method AssessProfiles(ratio: Ratio, a: Profile, b: Profile) returns (r: Assessment)
    ensures r == Assess(a, b, NamesAlike(ratio, a, b))
  {
    var similarity := NameSimilarity(ratio, a.names + a.aliases, b.names + b.aliases);
    r := ScorePair(a, b, similarity);
  }

  lemma SignalsCommute(a: Profile, b: Profile, similarity: nat)
    ensures Positive(a, b, similarity) == Positive(b, a, similarity) && Conflicts(a, b) == Conflicts(b, a) && Missing(a, b) == Missing(b, a)
  {
  }

  /** What the score makes of a similarity: exact, similar or different. */
  function Band(similarity: nat): nat { if similarity >= 999 then 2 else if similarity >= 800 then 1 else 0 }

  lemma BandDecides(a: Profile, b: Profile, s: nat, t: nat)
    requires Band(s) == Band(t)
    ensures Assess(a, b, s) == Assess(a, b, t)
  {
    assert Identifiers(a, b, s) == Identifiers(a, b, t);
    assert Counter(s, Positive(a, b, s)) == Counter(t, Positive(a, b, t));
  }

  lemma WithAfter(first: seq<Signal>, signals: seq<Signal>, shown: bool, s: Signal)
    ensures With(first + signals, shown, s) == first + With(signals, shown, s)
  {
  }

  lemma NameSignalFirst(a: Profile, b: Profile, similarity: nat)
    ensures Positive(a, b, similarity) == NameSignal(similarity) + Positive(a, b, 0)
  {
    var name := NameSignal(similarity);
    var phones := With([], a.phones * b.phones != {}, SharedPhone);
    var accounts := With(phones, a.accounts * b.accounts != {}, SharedAccount);
    var orgs := With(accounts, a.orgs * b.orgs != {}, SharedOrganisation);
    var dob := With(orgs, Agrees(a, b, Dob), Matches(Dob));
    assert name + [] == name;
    WithAfter(name, [], a.phones * b.phones != {}, SharedPhone);
    WithAfter(name, phones, a.accounts * b.accounts != {}, SharedAccount);
    WithAfter(name, accounts, a.orgs * b.orgs != {}, SharedOrganisation);
    WithAfter(name, orgs, Agrees(a, b, Dob), Matches(Dob));
    WithAfter(name, dob, Agrees(a, b, Address), Matches(Address));
  }

  lemma BandShows(a: Profile, b: Profile, s: nat, t: nat)
    requires Band(s) != Band(t)
    ensures Positive(a, b, s) != Positive(a, b, t)
  {
    NameSignalFirst(a, b, s);
    NameSignalFirst(a, b, t);
    var x, y, shared := NameSignal(s), NameSignal(t), Positive(a, b, 0);
    if |x| == |y| {
      assert x == [x[0]] && y == [y[0]] && x[0] != y[0];
      assert (x + shared)[0] == x[0] && (y + shared)[0] == y[0];
    }
  }

  /**
   No pair is ever certain either way. Whether the order of the two records matters depends on their names alone, whose
   similarity may differ with the order: the assessments agree if and only if both similarities lie in one band.
  */
  lemma AssessmentIsFair(ratio: Ratio, a: Profile, b: Profile)
    ensures 2 <= Assess(a, b, NamesAlike(ratio, a, b)).confidence <= 98
    ensures Assess(a, b, NamesAlike(ratio, a, b)) == Assess(b, a, NamesAlike(ratio, b, a))
       <==> Band(NamesAlike(ratio, a, b)) == Band(NamesAlike(ratio, b, a))
  {
    var s, t := NamesAlike(ratio, a, b), NamesAlike(ratio, b, a);
    SignalsCommute(a, b, t);
    assert BlockKeys(a) * BlockKeys(b) == BlockKeys(b) * BlockKeys(a) && a.evidence + b.evidence == b.evidence + a.evidence;
    assert Assess(a, b, t) == Assess(b, a, t);
    if Band(s) == Band(t) {
      BandDecides(a, b, s, t);
    } else {
      BandShows(a, b, s, t);
    }
  }

  ghost predicate Symmetric(ratio: Ratio) { forall x, y :: ratio(x, y) == ratio(y, x) }

  lemma NoLessTheOtherWay(ratio: Ratio, a: set<Name>, b: set<Name>)
    requires Symmetric(ratio)
    ensures Similarity(ratio, a, b) <= Similarity(ratio, b, a)
  {
    var best, other := Similarity(ratio, a, b), Similarity(ratio, b, a);
    assert IsBest(ratio, b, a, other);
    if best > 0 {
      var x, y :| x in a && y in b && ratio(x, y) == best;
      assert ratio(y, x) <= other;
    }
  }

  /** A string similarity that does not depend on the order gives one similarity, and so one assessment, either way. */
  lemma SymmetricRatioIsFair(ratio: Ratio, a: Profile, b: Profile)
    requires Symmetric(ratio)
    ensures NamesAlike(ratio, a, b) == NamesAlike(ratio, b, a)
    ensures Assess(a, b, NamesAlike(ratio, a, b)) == Assess(b, a, NamesAlike(ratio, b, a))
  {
    NoLessTheOtherWay(ratio, a.names + a.aliases, b.names + b.aliases);
    NoLessTheOtherWay(ratio, b.names + b.aliases, a.names + a.aliases);
    assert NamesAlike(ratio, a, b) == NamesAlike(ratio, b, a);
    AssessmentIsFair(ratio, a, b);
  }

  /** Two names whose similarity `difflib` puts at 0.833 one way and at 0.583 the other are assessed differently. */
  lemma OrderCanMatter()
    ensures var x, y := ["ravi", "ram", "das"], ["ram", "rama", "das"];
            var ratio := (v: Name, w: Name) => if v == x && w == y then 833 else if v == y && w == x then 583 else 0;
            var a := Profile({x}, {}, {}, {}, {}, {}, {}, {});
            var b := Profile({y}, {}, {}, {}, {}, {}, {}, {});
            Assess(a, b, NamesAlike(ratio, a, b)) != Assess(b, a, NamesAlike(ratio, b, a))
  {
    var x, y := ["ravi", "ram", "das"], ["ram", "rama", "das"];
    var ratio := (v: Name, w: Name) => if v == x && w == y then 833 else if v == y && w == x then 583 else 0;
    var a, b := Profile({x}, {}, {}, {}, {}, {}, {}, {}), Profile({y}, {}, {}, {}, {}, {}, {}, {});
    assert x[0] != y[0];
    assert ratio(x, y) == 833 && ratio(y, x) == 583;
    assert NamesAlike(ratio, a, b) == 833 by {
      assert IsBest(ratio, {x}, {y}, NamesAlike(ratio, a, b));
    }
    assert NamesAlike(ratio, b, a) == 583 by {
      assert IsBest(ratio, {y}, {x}, NamesAlike(ratio, b, a));
    }
    AssessmentIsFair(ratio, a, b);
  }

  lemma ConflictsCost(a: Profile, b: Profile)
    ensures Total(Conflicts(a, b)) <= 0
  {
    var orgs := With([], Clash(a.orgs, b.orgs), OrganisationConflict);
    TotalWith([], Clash(a.orgs, b.orgs), OrganisationConflict);
    TotalWith(orgs, Clash(a.dob, b.dob), Conflict(Dob));
    TotalWith(With(orgs, Clash(a.dob, b.dob), Conflict(Dob)), Clash(a.address, b.address), Conflict(Address));
  }

  lemma AlikeNamesLead(a: Profile, b: Profile, similarity: nat)
    requires similarity >= 800
    ensures Positive(a, b, similarity) != [] && Positive(a, b, similarity)[0] != SharedPhone
  {
    NameSignalFirst(a, b, similarity);
    var name := NameSignal(similarity);
    assert name != [] && name[0] != SharedPhone;
    assert (name + Positive(a, b, 0))[0] == name[0];
  }

  /**
   A shared phone alone never makes a match look likely: with nothing else listed in favour the confidence stays
   at one half or below, and the caveat is recorded.
  */
  lemma SharedPhoneAloneIsWeak(a: Profile, b: Profile, similarity: nat)
    requires Positive(a, b, similarity) == [SharedPhone]
    ensures Assess(a, b, similarity).confidence <= 50 && IdentifierOnly in Assess(a, b, similarity).counter
  {
    if similarity >= 800 {
      AlikeNamesLead(a, b, similarity);
    }
    ConflictsCost(a, b);
    WeakConfidence(similarity, Conflicts(a, b));
    var r := Assess(a, b, similarity);
    assert r.confidence == Confidence([SharedPhone], Counter(similarity, [SharedPhone]), Conflicts(a, b));
  }

  lemma WeakConfidence(similarity: nat, conflicts: seq<Signal>)
    requires similarity < 800 && Total(conflicts) <= 0
    ensures Counter(similarity, [SharedPhone]) == [NameDiffers, IdentifierOnly]
    ensures Confidence([SharedPhone], Counter(similarity, [SharedPhone]), conflicts) <= 50
  {
    TotalWith([], true, SharedPhone);
    TotalWith([], true, NameDiffers);
    TotalWith([NameDiffers], true, IdentifierOnly);
    assert With([NameDiffers], true, IdentifierOnly) == [NameDiffers, IdentifierOnly];
  }
}
