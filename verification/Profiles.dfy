/**
 What a case's claims say about a person (`_profile` of `resolution.py`), as the scoring takes it.
*/
module Profiles {
  import opened Common
  import opened Matching

  datatype Rel = USES_PHONE | HOLDS_ACCOUNT | MEMBER_OF | OtherRel

  datatype Fact =
    | NameIs(name: Name)
    | AliasIs(name: Name)
    | ValueIs(attr: Attribute, value: Id)
    | Related(rel: Rel, value: Id)
    | Nothing

  /** A claim about `source`; `rejected` if a reviewer has rejected it. */
  datatype Row = Row(source: Id, target: Option<Id>, rejected: bool, evidence: Id, fact: Fact)

  /** The claims of a case, and the labels of all person records. */
  datatype Evidence = Evidence(claims: seq<Row>, records: map<Id, Name>)

  /** The person records that some claim of the case, rejected or not, mentions. */
  function PersonsIn(ev: Evidence): set<Id> {
    set person | person in ev.records && Mentions(ev.claims, person)
  }

  predicate Mentions(rows: seq<Row>, person: Id) {
    exists r :: r in rows && (r.source == person || r.target == Some(person))
  }

  /** The claims that count for a person. */
  predicate Counts(r: Row, person: Id) { r.source == person && !r.rejected }

  predicate Says(rows: seq<Row>, person: Id, f: Fact) {
    exists r :: r in rows && Counts(r, person) && r.fact == f
  }

  predicate Links(rows: seq<Row>, person: Id, rel: Rel, value: Id) {
    exists r :: r in rows && Counts(r, person) && r.target.Some? && r.fact == Related(rel, value)
  }

  predicate CitedFrom(rows: seq<Row>, person: Id, e: Id) {
    exists r :: r in rows && Counts(r, person) && r.evidence == e
  }

  /** Every set holds exactly what some counting claim says. */
  ghost predicate Collects(rows: seq<Row>, person: Id, p: Profile) {
    && (forall e :: e in p.evidence <==> CitedFrom(rows, person, e))
    && (forall n :: n in p.names <==> Says(rows, person, NameIs(n)))
    && (forall n :: n in p.aliases <==> Says(rows, person, AliasIs(n)))
    && (forall v :: v in p.dob <==> Says(rows, person, ValueIs(Dob, v)))
    && (forall v :: v in p.address <==> Says(rows, person, ValueIs(Address, v)))
    && (forall v :: v in p.phones <==> Links(rows, person, USES_PHONE, v))
    && (forall v :: v in p.accounts <==> Links(rows, person, HOLDS_ACCOUNT, v))
    && (forall v :: v in p.orgs <==> Links(rows, person, MEMBER_OF, v))
  }

  /** A person no claim names goes by the label of the record. */
  ghost predicate IsProfile(rows: seq<Row>, person: Id, title: Name, p: Profile) {
    exists raw :: Collects(rows, person, raw) && p == if raw.names == {} then raw.(names := {title}) else raw
  }

  /** What one more claim adds. */
  lemma OneMoreSays(rows: seq<Row>, r: Row, person: Id)
    ensures forall f :: Says(rows + [r], person, f) <==> Says(rows, person, f) || (Counts(r, person) && r.fact == f)
  {
  }

  lemma OneMoreLinks(rows: seq<Row>, r: Row, person: Id)
    ensures forall rel, v :: Links(rows + [r], person, rel, v) <==>
              Links(rows, person, rel, v) || (Counts(r, person) && r.target.Some? && r.fact == Related(rel, v))
  {
  }

  lemma OneMoreCited(rows: seq<Row>, r: Row, person: Id)
    ensures forall e :: CitedFrom(rows + [r], person, e) <==> CitedFrom(rows, person, e) || (Counts(r, person) && r.evidence == e)
  {
  }

  /** One claim of the loop. */
  method Collect(p: Profile, r: Row, ghost rows: seq<Row>, person: Id) returns (q: Profile)
    requires Collects(rows, person, p)
    ensures Collects(rows + [r], person, q)
  {
    OneMoreSays(rows, r, person);
    OneMoreLinks(rows, r, person);
    OneMoreCited(rows, r, person);
    if !Counts(r, person) {
      return p;
    }
    q := p.(evidence := p.evidence + {r.evidence});
    match r.fact {
      case NameIs(n) => q := q.(names := q.names + {n});
      case AliasIs(n) => q := q.(aliases := q.aliases + {n});
      case ValueIs(attr, v) => q := if attr == Dob then q.(dob := q.dob + {v}) else q.(address := q.address + {v});
      case Related(rel, v) =>
        if r.target.Some? {
          q := match rel
               case USES_PHONE => q.(phones := q.phones + {v})
               case HOLDS_ACCOUNT => q.(accounts := q.accounts + {v})
               case MEMBER_OF => q.(orgs := q.orgs + {v})
               case OtherRel => q;
        }
      case Nothing =>
    }
  }

  /** Rejected claims, claims about others and the order of claims play no part in a person's profile. */
  lemma OnlyCountingClaimsMatter(rows: seq<Row>, rows': seq<Row>, person: Id, title: Name, p: Profile, q: Profile)
    requires IsProfile(rows, person, title, p) && IsProfile(rows', person, title, q)
    requires forall r | Counts(r, person) :: r in rows <==> r in rows'
    ensures p == q
  {
    var a :| Collects(rows, person, a) && p == if a.names == {} then a.(names := {title}) else a;
    var b :| Collects(rows', person, b) && q == if b.names == {} then b.(names := {title}) else b;
    SameSays(rows, rows', person);
    SameProfile(rows, rows', person, a, b);
  }

  // ---------------------------------------------------------------- a profile in terms of the claims' columns

  /** An unrejected claim about the person says so, and names a target if it must. */
  ghost predicate Stated(rows: seq<Row>, person: Id, fact: Fact, linked: bool) {
    exists r :: r in rows && r.source == person && !r.rejected && r.fact == fact && (linked ==> r.target != None)
  }

  ghost predicate IsUnnamed(rows: seq<Row>, person: Id) {
    forall r | r in rows && r.source == person && !r.rejected :: !r.fact.NameIs?
  }

  ghost predicate ProfileSpelledOut(rows: seq<Row>, person: Id, title: Name, p: Profile) {
    && (forall n :: n in p.names <==> Stated(rows, person, NameIs(n), false) || (n == title && IsUnnamed(rows, person)))
    && (forall n :: n in p.aliases <==> Stated(rows, person, AliasIs(n), false))
    && (forall v :: v in p.dob <==> Stated(rows, person, ValueIs(Dob, v), false))
    && (forall v :: v in p.address <==> Stated(rows, person, ValueIs(Address, v), false))
    && (forall v :: v in p.phones <==> Stated(rows, person, Related(USES_PHONE, v), true))
    && (forall v :: v in p.accounts <==> Stated(rows, person, Related(HOLDS_ACCOUNT, v), true))
    && (forall v :: v in p.orgs <==> Stated(rows, person, Related(MEMBER_OF, v), true))
    && (forall e :: e in p.evidence <==> exists r :: r in rows && r.source == person && !r.rejected && r.evidence == e)
  }

  lemma SaysIsStated(rows: seq<Row>, person: Id, f: Fact)
    ensures Says(rows, person, f) <==> Stated(rows, person, f, false)
  {
  }

  lemma LinksIsStated(rows: seq<Row>, person: Id, rel: Rel, v: Id)
    ensures Links(rows, person, rel, v) <==> Stated(rows, person, Related(rel, v), true)
  {
  }

  lemma UnnamedWithoutNames(rows: seq<Row>, person: Id, raw: Profile)
    requires Collects(rows, person, raw)
    ensures raw.names == {} <==> IsUnnamed(rows, person)
  {
    if !IsUnnamed(rows, person) {
      var r :| r in rows && r.source == person && !r.rejected && r.fact.NameIs?;
      assert Says(rows, person, NameIs(r.fact.name));
      assert r.fact.name in raw.names;
    }
    if raw.names != {} {
      var n :| n in raw.names;
      assert Says(rows, person, NameIs(n));
    }
  }

  lemma ProfileInColumns(rows: seq<Row>, person: Id, title: Name, p: Profile)
    requires IsProfile(rows, person, title, p)
    ensures ProfileSpelledOut(rows, person, title, p)
  {
    var raw :| Collects(rows, person, raw) && p == if raw.names == {} then raw.(names := {title}) else raw;
    UnnamedWithoutNames(rows, person, raw);
    forall f: Fact ensures Says(rows, person, f) <==> Stated(rows, person, f, false) {
      SaysIsStated(rows, person, f);
    }
    forall rel, v ensures Links(rows, person, rel, v) <==> Stated(rows, person, Related(rel, v), true) {
      LinksIsStated(rows, person, rel, v);
    }
    NamesInColumns(rows, person, title, raw, p);
  }

  lemma NamesInColumns(rows: seq<Row>, person: Id, title: Name, raw: Profile, p: Profile)
    requires Collects(rows, person, raw) && p == if raw.names == {} then raw.(names := {title}) else raw
    ensures forall n :: n in p.names <==> Stated(rows, person, NameIs(n), false) || (n == title && IsUnnamed(rows, person))
  {
    UnnamedWithoutNames(rows, person, raw);
    forall n ensures n in raw.names <==> Stated(rows, person, NameIs(n), false) {
      SaysIsStated(rows, person, NameIs(n));
    }
  }

  lemma SameSays(rows: seq<Row>, rows': seq<Row>, person: Id)
    requires forall r | Counts(r, person) :: r in rows <==> r in rows'
    ensures forall f :: Says(rows, person, f) <==> Says(rows', person, f)
    ensures forall rel, v :: Links(rows, person, rel, v) <==> Links(rows', person, rel, v)
    ensures forall e :: CitedFrom(rows, person, e) <==> CitedFrom(rows', person, e)
  {
  }

  lemma SameProfile(rows: seq<Row>, rows': seq<Row>, person: Id, a: Profile, b: Profile)
    requires Collects(rows, person, a) && Collects(rows', person, b)
    requires forall f :: Says(rows, person, f) <==> Says(rows', person, f)
    requires forall rel, v :: Links(rows, person, rel, v) <==> Links(rows', person, rel, v)
    requires forall e :: CitedFrom(rows, person, e) <==> CitedFrom(rows', person, e)
    ensures a == b
  {
    assert a.names == b.names && a.aliases == b.aliases && a.phones == b.phones && a.accounts == b.accounts;
    assert a.orgs == b.orgs && a.dob == b.dob && a.address == b.address && a.evidence == b.evidence;
  }

  // ---------------------------------------------------------------- the program

  /** `_profile`. */
  method BuildProfile(rows: seq<Row>, person: Id, title: Name) returns (p: Profile)
    ensures IsProfile(rows, person, title, p) && ProfileSpelledOut(rows, person, title, p)
  {
    var raw := Profile({}, {}, {}, {}, {}, {}, {}, {});
    for i := 0 to |rows|
      invariant Collects(rows[..i], person, raw)
    {
      assert rows[..i + 1] == rows[..i] + [rows[i]];
      raw := Collect(raw, rows[i], rows[..i], person);
    }
    assert rows[..|rows|] == rows;
    p := if raw.names == {} then raw.(names := {title}) else raw;
    ProfileInColumns(rows, person, title, p);
  }

  /** Two states of a case's claims with the same persons and labels, and the same counting claims about each of them. */
  ghost predicate SameEvidence(ev: Evidence, ev': Evidence) {
    && PersonsIn(ev) == PersonsIn(ev')
    && forall person | person in PersonsIn(ev) ::
         ev.records[person] == ev'.records[person] && SameClaims(ev.claims, ev'.claims, person)
  }

  ghost predicate SameClaims(rows: seq<Row>, rows': seq<Row>, person: Id) {
    forall r | Counts(r, person) :: r in rows <==> r in rows'
  }
}
