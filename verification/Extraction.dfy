/**
 The extraction context (`ExtractorBase` of `extract_common.py`): entities found or created by kind and canonical key, and
 claims written with their provenance. Ids stand for strings; `Value` for attribute values.
*/
module Extraction {
  import opened Common

  type Id = nat
  type CaseId = nat
  type Attributes = map<Id, Id>

  datatype Kind = PERSON | PHONE | ACCOUNT | CASE | OtherKind(name: Id)

  datatype Key = Key(kind: Kind, canonical: Id)

  datatype Row = Row(id: Id, title: Id, sensitive: bool, attributes: map<CaseId, Attributes>)

  datatype Call = Call(key: Key, title: Id, attributes: Attributes, newId: Id)

  /** The entity table, the keys in the extractor's cache and the counter of new entities. */
  datatype Registry = Registry(rows: map<Key, Row>, cache: set<Key>, created: nat)

  function AttributesOf(row: Row, c: CaseId): Attributes { if c in row.attributes then row.attributes[c] else map[] }

  // ---------------------------------------------------------------- one call of `entity`

  function NewRow(c: CaseId, call: Call): Row {
    Row(call.newId, call.title, call.key.kind.PHONE? || call.key.kind.ACCOUNT?,
        if call.attributes == map[] then map[] else map[c := call.attributes])
  }

  function Known(row: Row, c: CaseId, call: Call): Row {
    if call.attributes == map[] then row
    else row.(attributes := row.attributes[c := AttributesOf(row, c) + call.attributes])
  }

  function Looked(s: Registry, c: CaseId, call: Call): Registry {
    var k := call.key;
    if k in s.cache then s
    else if k in s.rows then Registry(s.rows[k := Known(s.rows[k], c, call)], s.cache + {k}, s.created)
    else Registry(s.rows[k := NewRow(c, call)], s.cache + {k}, s.created + 1)
  }

  /** The registry after all calls of one extraction. */
  function LookedAll(s: Registry, c: CaseId, calls: seq<Call>): Registry {
    if calls == [] then s else Looked(LookedAll(s, c, calls[..|calls| - 1]), c, calls[|calls| - 1])
  }

  // ---------------------------------------------------------------- a whole extraction

  /** The first of the calls for a key. */
  function FirstFor(calls: seq<Call>, k: Key): (i: nat)
    ensures i <= |calls| && (i < |calls| ==> calls[i].key == k) && forall j | 0 <= j < i :: calls[j].key != k
  {
    if calls == [] then 0 else if calls[0].key == k then 0 else 1 + FirstFor(calls[1..], k)
  }

  /** What an extraction leaves in a row, in terms of the first call for its key alone. */
  function Expected(s: Registry, c: CaseId, calls: seq<Call>, k: Key): Row
    requires k in s.rows || FirstFor(calls, k) < |calls|
  {
    var i := FirstFor(calls, k);
    if i == |calls| then s.rows[k] else if k in s.rows then Known(s.rows[k], c, calls[i]) else NewRow(c, calls[i])
  }

  /** What a first call for a key leaves in its row, column by column. */
  ghost predicate RowAfter(before: Option<Row>, c: CaseId, call: Call, after: Row) {
    && after.id == (if before.Some? then before.value.id else call.newId)
    && after.title == (if before.Some? then before.value.title else call.title)
    && after.sensitive == (if before.Some? then before.value.sensitive else call.key.kind in {PHONE, ACCOUNT})
    && (forall d | d != c :: d in after.attributes <==> before.Some? && d in before.value.attributes)
    && (forall d | d != c && d in after.attributes :: after.attributes[d] == before.value.attributes[d])
    && (c in after.attributes <==> call.attributes.Keys != {} || (before.Some? && c in before.value.attributes))
    && (c in after.attributes ==> forall a ::
          (a in after.attributes[c] <==>
             a in call.attributes || (before.Some? && c in before.value.attributes && a in before.value.attributes[c]))
          && (a in after.attributes[c] ==>
                after.attributes[c][a] == if a in call.attributes then call.attributes[a] else before.value.attributes[c][a]))
  }

  lemma NewRowInColumns(c: CaseId, call: Call)
    ensures RowAfter(None, c, call, NewRow(c, call))
  {
    assert call.attributes.Keys == {} <==> call.attributes == map[];
  }

  lemma KnownInColumns(row: Row, c: CaseId, call: Call)
    ensures RowAfter(Some(row), c, call, Known(row, c, call))
  {
    assert call.attributes.Keys == {} <==> call.attributes == map[];
  }

  lemma LookedAt(s: Registry, c: CaseId, call: Call, k: Key)
    ensures var t := Looked(s, c, call);
            && (k != call.key ==> (k in t.cache <==> k in s.cache) && (k in t.rows <==> k in s.rows) && (k in s.rows ==> t.rows[k] == s.rows[k]))
            && (k == call.key ==> k in t.cache)
            && (k == call.key && k !in s.cache ==> k in t.rows && t.rows[k] == if k in s.rows then Known(s.rows[k], c, call) else NewRow(c, call))
            && (k == call.key && k in s.cache ==> t == s)
  {
  }

  /**
   Every row is decided by the first call for its key: it is created or completed then, and later calls of the same
   extraction, whatever attributes they bring, change nothing.
  */
  lemma {:induction false} FirstCallDecides(s: Registry, c: CaseId, calls: seq<Call>, k: Key)
    requires s.cache == {}
    ensures var t := LookedAll(s, c, calls);
            && (k in t.cache <==> FirstFor(calls, k) < |calls|)
            && (k in t.rows <==> k in s.rows || FirstFor(calls, k) < |calls|)
            && (k in t.rows ==> t.rows[k] == Expected(s, c, calls, k))
  {
    if calls != [] {
      var init, last := calls[..|calls| - 1], calls[|calls| - 1];
      FirstCallDecides(s, c, init, k);
      assert calls == init + [last];
      LookedAt(LookedAll(s, c, init), c, last, k);
    }
  }

  /** An extraction for one case leaves the attributes that other cases recorded, and ids and labels, as they were. */
  lemma OtherCasesKeepAttributes(s: Registry, c: CaseId, calls: seq<Call>, k: Key, d: CaseId)
    requires s.cache == {} && d != c && k in s.rows
    ensures var t := LookedAll(s, c, calls);
            k in t.rows && AttributesOf(t.rows[k], d) == AttributesOf(s.rows[k], d)
            && t.rows[k].id == s.rows[k].id && t.rows[k].title == s.rows[k].title && t.rows[k].sensitive == s.rows[k].sensitive
  {
    FirstCallDecides(s, c, calls, k);
  }

  // ---------------------------------------------------------------- one entity per key

  ghost predicate OneIdEach(rows: map<Key, Row>) {
    forall k, l | k in rows && l in rows && rows[k].id == rows[l].id :: k == l
  }

  /** Ids drawn for new entities are new and different from one another. */
  predicate FreshIds(s: Registry, calls: seq<Call>) {
    && (forall i, j | 0 <= i < j < |calls| :: calls[i].newId != calls[j].newId)
    && (forall call, k | call in calls && k in s.rows :: s.rows[k].id != call.newId)
  }

  /** An id in the table was there before or was drawn by one of the calls. */
  ghost predicate Stems(s: Registry, calls: seq<Call>, id: Id) {
    (exists k :: k in s.rows && s.rows[k].id == id) || exists call :: call in calls && call.newId == id
  }

  lemma StepKeepsIds(s: Registry, c: CaseId, calls: seq<Call>, t: Registry, call: Call)
    requires OneIdEach(t.rows) && (forall k | k in t.rows :: Stems(s, calls, t.rows[k].id))
    requires FreshIds(s, calls + [call])
    ensures OneIdEach(Looked(t, c, call).rows)
    ensures forall k | k in Looked(t, c, call).rows :: Stems(s, calls + [call], Looked(t, c, call).rows[k].id)
  {
    assert (calls + [call])[|calls|] == call;
    forall k | k in t.rows ensures t.rows[k].id != call.newId && Stems(s, calls + [call], t.rows[k].id) {
      assert Stems(s, calls, t.rows[k].id);
      forall earlier | earlier in calls ensures earlier in calls + [call] && earlier.newId != call.newId {
        var i :| 0 <= i < |calls| && calls[i] == earlier;
        assert (calls + [call])[i] == earlier;
      }
    }
    assert call in calls + [call];
  }

  lemma {:induction false} OneIdEachKept(s: Registry, c: CaseId, calls: seq<Call>)
    requires OneIdEach(s.rows) && FreshIds(s, calls)
    ensures OneIdEach(LookedAll(s, c, calls).rows)
    ensures forall k | k in LookedAll(s, c, calls).rows :: Stems(s, calls, LookedAll(s, c, calls).rows[k].id)
  {
    if calls != [] {
      var init, last := calls[..|calls| - 1], calls[|calls| - 1];
      assert calls == init + [last];
      assert FreshIds(s, init);
      OneIdEachKept(s, c, init);
      StepKeepsIds(s, c, init, LookedAll(s, c, init), last);
    }
  }

  /** Two mentions of one extraction lead to one entity if and only if kind and canonical key agree. */
  lemma MentionsShareEntity(s: Registry, c: CaseId, calls: seq<Call>, i: nat, j: nat)
    requires s.cache == {} && i < |calls| && j < |calls|
    requires OneIdEach(s.rows) && FreshIds(s, calls)
    ensures var rows := LookedAll(s, c, calls).rows;
            calls[i].key in rows && calls[j].key in rows
            && (rows[calls[i].key].id == rows[calls[j].key].id <==> calls[i].key == calls[j].key)
  {
    FirstCallDecides(s, c, calls, calls[i].key);
    FirstCallDecides(s, c, calls, calls[j].key);
    OneIdEachKept(s, c, calls);
  }

  // ---------------------------------------------------------------- claims

  datatype ClaimRow = ClaimRow(id: Id, source: Id, target: Id, missing: set<Id>)

  /** Every claim has exactly one provenance row, in the order they were written. */
  ghost predicate Paired(claims: seq<ClaimRow>, provenance: seq<Id>) {
    |claims| == |provenance| && forall i | 0 <= i < |claims| :: provenance[i] == claims[i].id
  }

  function MissingIn(claims: seq<ClaimRow>): nat {
    if claims == [] then 0 else MissingIn(claims[..|claims| - 1]) + |claims[|claims| - 1].missing|
  }

  // ---------------------------------------------------------------- the program

  class Extractor {
    const caseId: CaseId
    var rows: map<Key, Row>
    var cache: map<Key, Id>
    var created: nat
    var claims: seq<ClaimRow>
    var provenance: seq<Id>
    var claimCount: nat
    var provenanceCount: nat
    var missingFields: nat

    ghost function Now(): Registry
      reads this
    {
      Registry(rows, cache.Keys, created)
    }

    /** The cache holds ids of rows, and the statistics are those of what was written. */
    ghost predicate Valid()
      reads this
    {
      && (forall k | k in cache :: k in rows && cache[k] == rows[k].id)
      && Paired(claims, provenance) && claimCount == provenanceCount == |claims| && missingFields == MissingIn(claims)
    }

    constructor (caseId: CaseId, rows: map<Key, Row>)
      ensures Valid() && this.caseId == caseId && Now() == Registry(rows, {}, 0) && claims == []
    {
      this.caseId, this.rows, cache, created := caseId, rows, map[], 0;
      claims, provenance, claimCount, provenanceCount, missingFields := [], [], 0, 0, 0;
    }

    method Create(call: Call)
      modifies this`rows, this`created
      ensures rows == old(rows)[call.key := NewRow(caseId, call)] && created == old(created) + 1
    {
      var k := call.key;
      var attributes := if call.attributes != map[] then map[caseId := call.attributes] else map[];
      rows := rows[k := Row(call.newId, call.title, k.kind == PHONE || k.kind == ACCOUNT, attributes)];
      created := created + 1;
    }

    method Complete(call: Call)
      requires call.key in rows && call.attributes != map[]
      modifies this`rows
      ensures rows == old(rows)[call.key := Known(old(rows)[call.key], caseId, call)]
    {
      var k := call.key;
      var current := rows[k].attributes;
      var ofCase := if caseId in current then current[caseId] else map[];
      rows := rows[k := rows[k].(attributes := current[caseId := ofCase + call.attributes])];
    }

    /** `entity`: the id of the one row of this kind and canonical key. */
    method FindEntity(call: Call) returns (id: Id)
      requires Valid()
      modifies this`rows, this`cache, this`created
      ensures Valid() && Now() == Looked(old(Now()), caseId, call)
      ensures call.key in rows && id == rows[call.key].id
      ensures call.key in old(cache) ==> rows == old(rows)
      ensures call.key !in old(cache) ==>
                var k, was := call.key, old(rows);
                rows == was[k := rows[k]] && RowAfter(if k in was then Some(was[k]) else None, caseId, call, rows[k])
    {
      if call.key in rows {
        KnownInColumns(rows[call.key], caseId, call);
      }
      NewRowInColumns(caseId, call);
      var k := call.key;
      if k in cache {
        return cache[k];
      }
      if k !in rows {
        Create(call);
      } else if call.attributes != map[] {
        Complete(call);
      }
      cache := cache[k := rows[k].id];
      return rows[k].id;
    }

    /** `claim`: the claim and its provenance. */
    method WriteClaim(c: ClaimRow)
      requires Valid()
      modifies this`claims, this`provenance, this`claimCount, this`provenanceCount, this`missingFields
      ensures Valid() && claims == old(claims) + [c] && provenance == old(provenance) + [c.id]
      ensures claimCount == old(claimCount) + 1 && provenanceCount == old(provenanceCount) + 1
      ensures missingFields == old(missingFields) + |c.missing|
    {
      claims, provenance := claims + [c], provenance + [c.id];
      assert claims[..|claims| - 1] == old(claims);
      claimCount, provenanceCount := claimCount + 1, provenanceCount + 1;
      if c.missing != {} {
        missingFields := missingFields + |c.missing|;
      }
    }
  }
}
