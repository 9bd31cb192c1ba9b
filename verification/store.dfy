/**
 * The `collaborators` table as the service uses it: a sequence of rows and
 * the id generator, with the Sequelize calls the service makes on it
 * (`findAll` by email, `bulkCreate` with `ignoreDuplicates`, `findByPk`,
 * `destroy`). The functions here say what each call does to the rows; the
 * class performs the calls step by step and is proved against them.
 */
module Store {
  import opened Wrappers
  import opened ErrorHandler
  import opened CollaboratorModel

  /** Every record of the batch fits its columns; otherwise the whole `INSERT` fails. */
  predicate BatchFitsColumns(batch: seq<CreationAttributes>)
  {
    forall k :: 0 <= k < |batch| ==> AttributesFitColumns(batch[k])
  }

  const ValueTooLong := Failure(DatabaseErrorName, "value too long for type character varying", Plain)

  /**
   * One record of `bulkCreate(..., { ignoreDuplicates: true })`: it is given
   * a fresh id and lands unless its email is already stored, in which case
   * `ON CONFLICT DO NOTHING` drops it.
   */
  function InsertStep(rows: seq<Collaborator>, nextId: Uuid, a: CreationAttributes, now: Instant): (r: (seq<Collaborator>, Uuid))
    ensures r.1 == nextId + 1
    ensures rows <= r.0 && |r.0| <= |rows| + 1
    ensures |r.0| == |rows| + 1 <==> !EmailStored(rows, a.email)
    ensures |r.0| == |rows| + 1 ==> r.0[|rows|] == Build(a, nextId, now)
    ensures EmailStored(r.0, a.email)
  {
    if EmailStored(rows, a.email) then (rows, nextId + 1)
    else
      var c := Build(a, nextId, now);
      assert (rows + [c])[|rows|] == c;
      (rows + [c], nextId + 1)
  }

  /**
   * The whole batch, record by record in order, so an earlier record wins over
   * a later one with its email. Stored rows are never touched (the old table
   * is a prefix of the new one) and one id is drawn per record.
   */
  function InsertAll(rows: seq<Collaborator>, nextId: Uuid, batch: seq<CreationAttributes>, now: Instant): (r: (seq<Collaborator>, Uuid))
    ensures rows <= r.0 && |r.0| <= |rows| + |batch|
    ensures r.1 == nextId + |batch|
    decreases |batch|
  {
    if batch == [] then (rows, nextId)
    else
      var next := InsertStep(rows, nextId, batch[0], now);
      InsertAll(next.0, next.1, batch[1..], now)
  }

  /** The answer of `bulkCreate` together with the table it leaves behind. */
  datatype InsertOutcome = InsertOutcome(result: Result<(), Failure>, rows: seq<Collaborator>, nextId: Uuid)

  /**
   * `bulkCreate(batch, { ignoreDuplicates: true })`. An empty batch returns at
   * once, without a round trip. Otherwise `fault` is a failed round trip, and
   * a value longer than its column fails the whole statement; either way
   * nothing lands. Otherwise the batch is inserted record by record.
   */
  function BulkCreateSpec(rows: seq<Collaborator>, nextId: Uuid, batch: seq<CreationAttributes>,
                          fault: Option<Failure>, now: Instant): (o: InsertOutcome)
    ensures o.result.Fail? <==> |batch| > 0 && (fault.Some? || !BatchFitsColumns(batch))
    ensures o.result.Fail? ==> o.result.error == (if fault.Some? then fault.value else ValueTooLong)
    ensures o.result.Fail? ==> o.rows == rows && o.nextId == nextId
    ensures o.result.Ok? ==> (o.rows, o.nextId) == InsertAll(rows, nextId, batch, now)
  {
    if |batch| == 0 then InsertOutcome(Ok(()), rows, nextId)
    else if fault.Some? then InsertOutcome(Fail(fault.value), rows, nextId)
    else if !BatchFitsColumns(batch) then InsertOutcome(Fail(ValueTooLong), rows, nextId)
    else
      var after := InsertAll(rows, nextId, batch, now);
      InsertOutcome(Ok(()), after.0, after.1)
  }

  /** The emails among `candidates` that some row carries. */
  function StoredEmailsIn(rows: seq<Collaborator>, candidates: seq<string>): (found: set<string>)
    ensures forall e :: e in found <==> e in candidates && EmailStored(rows, e)
  {
    set k | 0 <= k < |rows| && rows[k].email in candidates :: rows[k].email
  }

  /** `findByPk(id)`: the row with this primary key, if any. */
  function Lookup(rows: seq<Collaborator>, id: Uuid): (r: Option<Collaborator>)
    ensures r.Some? <==> exists k :: 0 <= k < |rows| && rows[k].id == id
    ensures r.Some? ==> r.value in rows && r.value.id == id
  {
    if rows == [] then None
    else if rows[0].id == id then Some(rows[0])
    else
      var r := Lookup(rows[1..], id);
      assert forall k :: 1 <= k < |rows| ==> rows[k] == rows[1..][k - 1];
      r
  }

  /** The table after `DELETE ... WHERE id = id`: every other row, in order. */
  function RemoveId(rows: seq<Collaborator>, id: Uuid): (r: seq<Collaborator>)
    ensures forall c :: multiset(r)[c] == if c.id == id then 0 else multiset(rows)[c]
    ensures forall c :: c in r <==> c in rows && c.id != id
    ensures |r| <= |rows|
  {
    if rows == [] then []
    else
      assert rows == [rows[0]] + rows[1..];
      (if rows[0].id == id then [] else [rows[0]]) + RemoveId(rows[1..], id)
  }

  lemma InsertStepKeepsInvariant(rows: seq<Collaborator>, nextId: Uuid, a: CreationAttributes, now: Instant)
    requires TableInvariant(rows, nextId) && AttributesFitColumns(a)
    ensures TableInvariant(InsertStep(rows, nextId, a, now).0, InsertStep(rows, nextId, a, now).1)
  {
    if !EmailStored(rows, a.email) {
      var r := rows + [Build(a, nextId, now)];
      assert forall k :: 0 <= k < |rows| ==> r[k] == rows[k];
    }
  }

  /** The table invariant survives any batch that fits the columns: no duplicate email or id lands. */
  lemma {:induction false} InsertAllKeepsInvariant(rows: seq<Collaborator>, nextId: Uuid, batch: seq<CreationAttributes>, now: Instant)
    requires TableInvariant(rows, nextId) && BatchFitsColumns(batch)
    ensures TableInvariant(InsertAll(rows, nextId, batch, now).0, InsertAll(rows, nextId, batch, now).1)
    decreases |batch|
  {
    if batch != [] {
      InsertStepKeepsInvariant(rows, nextId, batch[0], now);
      var next := InsertStep(rows, nextId, batch[0], now);
      InsertAllKeepsInvariant(next.0, next.1, batch[1..], now);
    }
  }

  /** After the batch, an email is stored exactly when it was stored before or some record of the batch carries it. */
  lemma {:induction false} InsertAllStoredEmails(rows: seq<Collaborator>, nextId: Uuid, batch: seq<CreationAttributes>, now: Instant, e: string)
    ensures EmailStored(InsertAll(rows, nextId, batch, now).0, e) <==>
            EmailStored(rows, e) || exists k :: 0 <= k < |batch| && batch[k].email == e
    decreases |batch|
  {
    if batch != [] {
      var next := InsertStep(rows, nextId, batch[0], now);
      InsertAllStoredEmails(next.0, next.1, batch[1..], now, e);
      if !EmailStored(rows, batch[0].email) {
        var r := rows + [Build(batch[0], nextId, now)];
        assert r[|rows|].email == batch[0].email;
        assert forall k :: 0 <= k < |rows| ==> r[k] == rows[k];
      }
      assert forall k :: 1 <= k < |batch| ==> batch[k] == batch[1..][k - 1];
      assert forall k :: 0 <= k < |batch[1..]| ==> batch[1..][k] == batch[k + 1];
    }
  }

  /** The emails of the batch that the table does not hold yet. */
  function UnstoredEmails(rows: seq<Collaborator>, batch: seq<CreationAttributes>): set<string>
  {
    set k | 0 <= k < |batch| && !EmailStored(rows, batch[k].email) :: batch[k].email
  }

  lemma UnstoredEmailsStep(rows: seq<Collaborator>, nextId: Uuid, batch: seq<CreationAttributes>, now: Instant)
    requires batch != []
    ensures var next := InsertStep(rows, nextId, batch[0], now);
            UnstoredEmails(rows, batch) ==
              UnstoredEmails(next.0, batch[1..]) + (if EmailStored(rows, batch[0].email) then {} else {batch[0].email})
    ensures var next := InsertStep(rows, nextId, batch[0], now);
            batch[0].email !in UnstoredEmails(next.0, batch[1..])
  {
    var next := InsertStep(rows, nextId, batch[0], now);
    var e0 := batch[0].email;
    var r := next.0;
    if !EmailStored(rows, e0) {
      assert r[|rows|].email == e0;
    }
    assert forall k :: 0 <= k < |rows| ==> r[k] == rows[k];
    forall e | e in UnstoredEmails(rows, batch)
      ensures e in UnstoredEmails(r, batch[1..]) + (if EmailStored(rows, e0) then {} else {e0})
    {
      var k :| 0 <= k < |batch| && !EmailStored(rows, batch[k].email) && batch[k].email == e;
      if e != e0 {
        assert k > 0 && batch[1..][k - 1] == batch[k];
        assert !EmailStored(r, e);
      }
    }
    forall e | e in UnstoredEmails(r, batch[1..])
      ensures e in UnstoredEmails(rows, batch)
    {
      var k :| 0 <= k < |batch[1..]| && !EmailStored(r, batch[1..][k].email) && batch[1..][k].email == e;
      assert batch[k + 1] == batch[1..][k];
    }
  }

  /** The batch adds exactly one row per distinct email it carries that the table did not hold. */
  lemma {:induction false} InsertAllAddsOneRowPerNewEmail(rows: seq<Collaborator>, nextId: Uuid, batch: seq<CreationAttributes>, now: Instant)
    ensures |InsertAll(rows, nextId, batch, now).0| == |rows| + |UnstoredEmails(rows, batch)|
    decreases |batch|
  {
    if batch != [] {
      var next := InsertStep(rows, nextId, batch[0], now);
      InsertAllAddsOneRowPerNewEmail(next.0, next.1, batch[1..], now);
      UnstoredEmailsStep(rows, nextId, batch, now);
    } else {
      assert UnstoredEmails(rows, batch) == {};
    }
  }

  lemma TailKeepsInvariant(rows: seq<Collaborator>, nextId: Uuid)
    requires TableInvariant(rows, nextId) && rows != []
    ensures TableInvariant(rows[1..], nextId)
    ensures forall c :: c in rows[1..] ==> c.email != rows[0].email && c.id != rows[0].id
  {
    forall c | c in rows[1..]
      ensures c.email != rows[0].email && c.id != rows[0].id
    {
      var k :| 0 <= k < |rows[1..]| && rows[1..][k] == c;
      assert rows[k + 1] == c;
    }
  }

  lemma ConsKeepsInvariant(h: Collaborator, rest: seq<Collaborator>, nextId: Uuid)
    requires TableInvariant(rest, nextId) && h.id < nextId && FitsColumns(h)
    requires forall c :: c in rest ==> c.email != h.email && c.id != h.id
    ensures TableInvariant([h] + rest, nextId)
  {
    var r := [h] + rest;
    forall i, j | 0 <= i < j < |r|
      ensures r[i].email != r[j].email && r[i].id != r[j].id
    {
      assert r[j] == rest[j - 1];
      if i > 0 {
        assert r[i] == rest[i - 1];
      }
    }
  }

  /** Deleting a row keeps ids and emails unique. */
  lemma {:induction false} RemoveIdKeepsInvariant(rows: seq<Collaborator>, nextId: Uuid, id: Uuid)
    requires TableInvariant(rows, nextId)
    ensures TableInvariant(RemoveId(rows, id), nextId)
    decreases |rows|
  {
    if rows != [] {
      TailKeepsInvariant(rows, nextId);
      RemoveIdKeepsInvariant(rows[1..], nextId, id);
      if rows[0].id != id {
        ConsKeepsInvariant(rows[0], RemoveId(rows[1..], id), nextId);
      }
    }
  }

  class CollaboratorStore {
    var rows: seq<Collaborator>
    var nextId: Uuid

    ghost predicate Valid()
      reads this
    {
      TableInvariant(rows, nextId)
    }

    constructor ()
      ensures Valid() && rows == [] && nextId == 0
    {
      rows := [];
      nextId := 0;
    }

    /** `findAll({ attributes: ["email"], where: { email: { [Op.in]: candidates } } })`, as a set of emails. */
    method FindEmailsIn(candidates: seq<string>) returns (found: set<string>)
      ensures found == StoredEmailsIn(rows, candidates)
    {
      found := {};
      var i := 0;
      while i < |rows|
        invariant 0 <= i <= |rows|
        invariant found == set k | 0 <= k < i && rows[k].email in candidates :: rows[k].email
      {
        if rows[i].email in candidates {
          found := found + {rows[i].email};
        }
        i := i + 1;
      }
    }

    /** Whether the unique index on `email` already holds this email. */
    method HasEmail(email: string) returns (b: bool)
      ensures b == EmailStored(rows, email)
    {
      var i := 0;
      while i < |rows|
        invariant 0 <= i <= |rows|
        invariant forall k :: 0 <= k < i ==> rows[k].email != email
      {
        if rows[i].email == email {
          return true;
        }
        i := i + 1;
      }
      return false;
    }

    /**
     * `bulkCreate(batch, { ignoreDuplicates: true })`: an empty batch returns
     * at once, without a round trip; otherwise `fault` is a failed round trip,
     * and a value longer than its column fails the whole statement. Either way
     * nothing lands. Otherwise each record, in order, lands unless its email
     * is already stored.
     */
    method BulkCreate(batch: seq<CreationAttributes>, fault: Option<Failure>, now: Instant) returns (r: Result<(), Failure>)
      requires Valid()
      modifies this
      ensures Valid()
      ensures InsertOutcome(r, rows, nextId) == BulkCreateSpec(old(rows), old(nextId), batch, fault, now)
    {
      if |batch| == 0 {
        return Ok(());
      }
      if fault.Some? {
        return Fail(fault.value);
      }
      if !BatchFitsColumns(batch) {
        return Fail(ValueTooLong);
      }
      InsertBatch(batch, now);
      return Ok(());
    }

    /** The `INSERT ... ON CONFLICT DO NOTHING` of a batch that fits, record by record. */
    method InsertBatch(batch: seq<CreationAttributes>, now: Instant)
      requires Valid() && BatchFitsColumns(batch)
      modifies this
      ensures Valid()
      ensures (rows, nextId) == InsertAll(old(rows), old(nextId), batch, now)
    {
      var i := 0;
      while i < |batch|
        invariant 0 <= i <= |batch|
        invariant TableInvariant(rows, nextId)
        invariant InsertAll(rows, nextId, batch[i..], now) == InsertAll(old(rows), old(nextId), batch, now)
      {
        InsertStepKeepsInvariant(rows, nextId, batch[i], now);
        assert batch[i..][0] == batch[i] && batch[i..][1..] == batch[i + 1..];
        var present := HasEmail(batch[i].email);
        if !present {
          rows := rows + [Build(batch[i], nextId, now)];
        }
        nextId := nextId + 1;
        i := i + 1;
      }
    }

    /** `findByPk(id)` */
    method FindByPk(id: Uuid) returns (r: Option<Collaborator>)
      ensures r == Lookup(rows, id)
    {
      var i := 0;
      while i < |rows|
        invariant 0 <= i <= |rows|
        invariant Lookup(rows[i..], id) == Lookup(rows, id)
      {
        assert rows[i..][0] == rows[i] && rows[i..][1..] == rows[i + 1..];
        if rows[i].id == id {
          return Some(rows[i]);
        }
        i := i + 1;
      }
      return None;
    }

    /** `collaborator.destroy()` on the row with this id. */
    method Destroy(id: Uuid)
      requires Valid()
      modifies this
      ensures Valid()
      ensures rows == RemoveId(old(rows), id) && nextId == old(nextId)
    {
      RemoveIdKeepsInvariant(rows, nextId, id);
      rows := RemoveId(rows, id);
    }
  }
}
