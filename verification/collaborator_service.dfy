/**
 * The collaborator service (src/collaborators/services/collaborator-service.ts):
 * import from the directory, the paginated list, lookup and deletion by id.
 *
 * Calls whose failure the model cannot see (the `findAll`, `bulkCreate` and
 * `findAndCountAll` round trips failing, e.g. a lost connection) are inputs:
 * an `Option<Failure>` that, when present, is the error that call throws.
 */
module CollaboratorService {
  import opened Wrappers
  import opened ErrorHandler
  import opened CollaboratorModel
  import opened ExternalApi
  import opened Dto
  import opened StoreQuery
  import opened Store
  import JsText

  /** `new AppError("Collaborator not found", 404)` */
  const NotFound := NewAppError("Collaborator not found", Some(404))

  // ----- importCollaborators -----

  /** `users.map((user) => user.email)` */
  function EmailsOf(users: seq<MappedUser>): (r: seq<string>)
    ensures |r| == |users| && forall k :: 0 <= k < |users| ==> r[k] == users[k].email
  {
    seq(|users|, k requires 0 <= k < |users| => users[k].email)
  }

  /** `users.filter((u) => !existingEmailSet.has(u.email))` */
  function NewUsers(users: seq<MappedUser>, existing: set<string>): (r: seq<MappedUser>)
    ensures forall u :: multiset(r)[u] == if u.email in existing then 0 else multiset(users)[u]
    ensures forall u :: u in r <==> u in users && u.email !in existing
    ensures |r| <= |users|
  {
    if users == [] then []
    else
      assert users == [users[0]] + users[1..];
      (if users[0].email in existing then [] else [users[0]]) + NewUsers(users[1..], existing)
  }

  /** The filter keeps the snapshot's order: filtering a concatenation filters each part. */
  lemma {:induction false} NewUsersKeepsOrder(a: seq<MappedUser>, b: seq<MappedUser>, existing: set<string>)
    ensures NewUsers(a + b, existing) == NewUsers(a, existing) + NewUsers(b, existing)
    decreases |a|
  {
    if a == [] {
      assert a + b == b;
    } else {
      assert (a + b)[1..] == a[1..] + b;
      NewUsersKeepsOrder(a[1..], b, existing);
    }
  }

  /** `newUsers as CreationAttributes<Collaborator>[]` */
  function AsBatch(users: seq<MappedUser>): (r: seq<CreationAttributes>)
    ensures |r| == |users|
    ensures forall k :: 0 <= k < |users| ==>
              r[k] == CreationAttributes(users[k].name, users[k].email, users[k].city, users[k].company)
  {
    seq(|users|, k requires 0 <= k < |users| =>
      CreationAttributes(users[k].name, users[k].email, users[k].city, users[k].company))
  }

  /** The users the import hands to `bulkCreate`: those whose email the table did not hold. */
  function UsersToInsert(rows: seq<Collaborator>, users: seq<MappedUser>): (r: seq<MappedUser>)
    ensures forall u :: u in r <==> u in users && !EmailStored(rows, u.email)
  {
    var r := NewUsers(users, StoredEmailsIn(rows, EmailsOf(users)));
    assert forall u :: u in users ==> u.email in EmailsOf(users) by {
      forall u | u in users
        ensures u.email in EmailsOf(users)
      {
        var k :| 0 <= k < |users| && users[k] == u;
        assert EmailsOf(users)[k] == u.email;
      }
    }
    r
  }

  /** The result of an import together with the table it leaves behind. */
  datatype ImportOutcome = ImportOutcome(result: Result<ImportResponse, Failure>, rows: seq<Collaborator>, nextId: Uuid)

  /**
   * What `importCollaborators` does, as a function of the table before it:
   * fetch, look up the emails already stored, insert the others, and report
   * how many were handed to the insert and how many were skipped. Any failure
   * is passed on unchanged and leaves the table as it was.
   */
  function ImportSpec(rows: seq<Collaborator>, nextId: Uuid, response: HttpOutcome,
                      lookupFault: Option<Failure>, insertFault: Option<Failure>, now: Instant): (o: ImportOutcome)
    ensures FetchUsers(response).Fail? ==> o == ImportOutcome(Fail(FetchUsers(response).error), rows, nextId)
    ensures FetchUsers(response).Ok? && lookupFault.Some? ==> o == ImportOutcome(Fail(lookupFault.value), rows, nextId)
    ensures o.result.Fail? ==> o.rows == rows && o.nextId == nextId
    ensures o.result.Ok? ==> response.Response? && FetchUsers(response).Ok?
    ensures o.result.Ok? ==>
              && o.result.value.imported >= 0 && o.result.value.ignored >= 0
              && o.result.value.imported + o.result.value.ignored == |response.data|
              && o.result.value.imported == |UsersToInsert(rows, FetchUsers(response).value)|
  {
    match FetchUsers(response)
    case Fail(e) => ImportOutcome(Fail(e), rows, nextId)
    case Ok(users) =>
      if lookupFault.Some? then ImportOutcome(Fail(lookupFault.value), rows, nextId)
      else InsertStage(rows, nextId, users, insertFault, now)
  }

  /** The import once the users are fetched and the email lookup has answered: filter, insert, count. */
  function InsertStage(rows: seq<Collaborator>, nextId: Uuid, users: seq<MappedUser>,
                       insertFault: Option<Failure>, now: Instant): ImportOutcome
  {
    var newUsers := UsersToInsert(rows, users);
    var inserted := BulkCreateSpec(rows, nextId, AsBatch(newUsers), insertFault, now);
    if inserted.result.Fail? then ImportOutcome(Fail(inserted.result.error), rows, nextId)
    else ImportOutcome(Ok(ImportResponse(|newUsers|, |users| - |newUsers|)), inserted.rows, inserted.nextId)
  }

  /** `importCollaborators`, performed on the store. */
  method ImportCollaborators(store: CollaboratorStore, response: HttpOutcome,
                             lookupFault: Option<Failure>, insertFault: Option<Failure>, now: Instant)
    returns (r: Result<ImportResponse, Failure>)
    requires store.Valid()
    modifies store
    ensures store.Valid()
    ensures ImportOutcome(r, store.rows, store.nextId) ==
            ImportSpec(old(store.rows), old(store.nextId), response, lookupFault, insertFault, now)
  {
    var fetched := FetchUsers(response);
    if fetched.Fail? {
      return Fail(fetched.error);
    }
    if lookupFault.Some? {
      return Fail(lookupFault.value);
    }
    r := InsertFetched(store, fetched.value, insertFault, now);
  }

  /** The part of `importCollaborators` after the fetch: look up, filter, `bulkCreate`, count. */
  method InsertFetched(store: CollaboratorStore, users: seq<MappedUser>, insertFault: Option<Failure>, now: Instant)
    returns (r: Result<ImportResponse, Failure>)
    requires store.Valid()
    modifies store
    ensures store.Valid()
    ensures ImportOutcome(r, store.rows, store.nextId) == InsertStage(old(store.rows), old(store.nextId), users, insertFault, now)
  {
    var newUsers := SelectNewUsers(store, users);
    var inserted := store.BulkCreate(AsBatch(newUsers), insertFault, now);
    if inserted.Fail? {
      return Fail(inserted.error);
    }
    return Ok(ImportResponse(|newUsers|, |users| - |newUsers|));
  }

  /** The lookup of the fetched emails and the filter on its answer. */
  method SelectNewUsers(store: CollaboratorStore, users: seq<MappedUser>) returns (newUsers: seq<MappedUser>)
    ensures newUsers == UsersToInsert(store.rows, users)
  {
    var emails := EmailsOf(users);
    var existing := store.FindEmailsIn(emails);
    newUsers := NewUsers(users, existing);
  }

  /** An import never breaks the table invariant. */
  lemma ImportKeepsTableInvariant(rows: seq<Collaborator>, nextId: Uuid, response: HttpOutcome,
                                  lookupFault: Option<Failure>, insertFault: Option<Failure>, now: Instant)
    requires TableInvariant(rows, nextId)
    ensures var o := ImportSpec(rows, nextId, response, lookupFault, insertFault, now);
            TableInvariant(o.rows, o.nextId)
  {
    var o := ImportSpec(rows, nextId, response, lookupFault, insertFault, now);
    if o.result.Ok? {
      var users := FetchUsers(response).value;
      InsertAllKeepsInvariant(rows, nextId, AsBatch(UsersToInsert(rows, users)), now);
    }
  }

  /** After a successful import every fetched email is stored, and every row stored before is untouched. */
  lemma ImportStoresEveryFetchedEmail(rows: seq<Collaborator>, nextId: Uuid, response: HttpOutcome, now: Instant)
    requires ImportSpec(rows, nextId, response, None, None, now).result.Ok?
    ensures var o := ImportSpec(rows, nextId, response, None, None, now);
            && rows <= o.rows
            && forall u :: u in FetchUsers(response).value ==> EmailStored(o.rows, u.email)
  {
    var users := FetchUsers(response).value;
    var newUsers := UsersToInsert(rows, users);
    var batch := AsBatch(newUsers);
    var after := InsertAll(rows, nextId, batch, now).0;
    forall u | u in users
      ensures EmailStored(after, u.email)
    {
      InsertAllStoredEmails(rows, nextId, batch, now, u.email);
      if !EmailStored(rows, u.email) {
        var k :| 0 <= k < |newUsers| && newUsers[k] == u;
        assert batch[k].email == u.email;
      }
    }
  }

  /** The emails of a batch, as a set. */
  function EmailSet(batch: seq<CreationAttributes>): set<string>
  {
    set k | 0 <= k < |batch| :: batch[k].email
  }

  predicate DistinctEmails(batch: seq<CreationAttributes>)
  {
    forall i, j :: 0 <= i < j < |batch| ==> batch[i].email != batch[j].email
  }

  /** A batch carries at most one email per record, and exactly one each when no two records share one. */
  lemma {:induction false} EmailSetSize(batch: seq<CreationAttributes>)
    ensures |EmailSet(batch)| <= |batch|
    ensures |EmailSet(batch)| == |batch| <==> DistinctEmails(batch)
    decreases |batch|
  {
    if batch != [] {
      var tail := batch[1..];
      EmailSetSize(tail);
      EmailSetCons(batch);
      DistinctEmailsCons(batch);
    }
  }

  lemma EmailSetCons(batch: seq<CreationAttributes>)
    requires batch != []
    ensures EmailSet(batch) == {batch[0].email} + EmailSet(batch[1..])
  {
    var tail := batch[1..];
    forall e | e in EmailSet(batch)
      ensures e in {batch[0].email} + EmailSet(tail)
    {
      var k :| 0 <= k < |batch| && batch[k].email == e;
      if k > 0 {
        assert tail[k - 1] == batch[k];
      }
    }
    forall e | e in EmailSet(tail)
      ensures e in EmailSet(batch)
    {
      var k :| 0 <= k < |tail| && tail[k].email == e;
      assert batch[k + 1] == tail[k];
    }
  }

  lemma DistinctEmailsCons(batch: seq<CreationAttributes>)
    requires batch != []
    ensures DistinctEmails(batch) <==> batch[0].email !in EmailSet(batch[1..]) && DistinctEmails(batch[1..])
  {
    var tail := batch[1..];
    if batch[0].email in EmailSet(tail) {
      var k :| 0 <= k < |tail| && tail[k].email == batch[0].email;
      assert batch[k + 1].email == batch[0].email;
    } else {
      if DistinctEmails(tail) {
        forall i, j | 0 <= i < j < |batch|
          ensures batch[i].email != batch[j].email
        {
          assert batch[j] == tail[j - 1];
          if i > 0 {
            assert batch[i] == tail[i - 1];
          }
        }
      }
      if DistinctEmails(batch) {
        forall i, j | 0 <= i < j < |tail|
          ensures tail[i].email != tail[j].email
        {
          assert tail[i] == batch[i + 1] && tail[j] == batch[j + 1];
        }
      }
    }
  }

  /**
   * The snapshot is not deduplicated: `imported` counts every record handed
   * to `bulkCreate`, but `ON CONFLICT DO NOTHING` lands one row per distinct
   * email. So the rows added never exceed `imported`, and match it exactly
   * when no two of those records share an email.
   */
  lemma ImportRowsAddedAtMostImported(rows: seq<Collaborator>, nextId: Uuid, response: HttpOutcome, now: Instant)
    requires ImportSpec(rows, nextId, response, None, None, now).result.Ok?
    ensures var o := ImportSpec(rows, nextId, response, None, None, now);
            && |rows| <= |o.rows|
            && |o.rows| - |rows| <= o.result.value.imported
            && (|o.rows| - |rows| == o.result.value.imported <==>
                DistinctEmails(AsBatch(UsersToInsert(rows, FetchUsers(response).value))))
  {
    var users := FetchUsers(response).value;
    var newUsers := UsersToInsert(rows, users);
    var batch := AsBatch(newUsers);
    InsertAllAddsOneRowPerNewEmail(rows, nextId, batch, now);
    assert UnstoredEmails(rows, batch) == EmailSet(batch) by {
      forall k | 0 <= k < |batch|
        ensures !EmailStored(rows, batch[k].email)
      {
        assert newUsers[k] in newUsers;
      }
    }
    EmailSetSize(batch);
  }

  /** Two snapshot records with the same new email: both count as imported, but only one row lands. */
  lemma ImportCountsRepeatedEmailTwice(rows: seq<Collaborator>, nextId: Uuid, response: HttpOutcome,
                                       u: MappedUser, v: MappedUser, now: Instant)
    requires FetchUsers(response) == Ok([u, v])
    requires u.email == v.email && !EmailStored(rows, u.email)
    requires BatchFitsColumns(AsBatch([u, v]))
    ensures var o := ImportSpec(rows, nextId, response, None, None, now);
            o.result == Ok(ImportResponse(2, 0)) && |o.rows| == |rows| + 1
  {
    var users := [u, v];
    BothNew(rows, u, v);
    var batch := AsBatch(users);
    ImportSpecWhenBatchFits(rows, nextId, response, now);
    InsertAllAddsOneRowPerNewEmail(rows, nextId, batch, now);
    assert UnstoredEmails(rows, batch) == {u.email} by {
      assert batch[0].email == u.email;
    }
  }

  lemma BothNew(rows: seq<Collaborator>, u: MappedUser, v: MappedUser)
    requires u.email == v.email && !EmailStored(rows, u.email)
    ensures UsersToInsert(rows, [u, v]) == [u, v]
  {
    var users := [u, v];
    var existing := StoredEmailsIn(rows, EmailsOf(users));
    assert u.email !in existing;
    assert users[1..] == [v] && [v][1..] == [];
    assert NewUsers([v], existing) == [v];
  }

  /** Importing an unchanged snapshot a second time imports nothing and changes nothing. */
  lemma ImportTwiceImportsNothing(rows: seq<Collaborator>, nextId: Uuid, response: HttpOutcome, now: Instant,
                                  secondInsertFault: Option<Failure>, later: Instant)
    requires ImportSpec(rows, nextId, response, None, None, now).result.Ok?
    ensures var first := ImportSpec(rows, nextId, response, None, None, now);
            var second := ImportSpec(first.rows, first.nextId, response, None, secondInsertFault, later);
            && second.result == Ok(ImportResponse(0, |response.data|))
            && second.rows == first.rows
  {
    var first := ImportSpec(rows, nextId, response, None, None, now);
    ImportStoresEveryFetchedEmail(rows, nextId, response, now);
    ImportOfStoredEmails(first.rows, first.nextId, response, secondInsertFault, later);
  }

  /** A snapshot whose every email is already stored is skipped in full. */
  lemma ImportOfStoredEmails(rows: seq<Collaborator>, nextId: Uuid, response: HttpOutcome,
                             insertFault: Option<Failure>, now: Instant)
    requires FetchUsers(response).Ok?
    requires forall u :: u in FetchUsers(response).value ==> EmailStored(rows, u.email)
    ensures ImportSpec(rows, nextId, response, None, insertFault, now) ==
            ImportOutcome(Ok(ImportResponse(0, |response.data|)), rows, nextId)
  {
    var users := FetchUsers(response).value;
    NothingLeftToInsert(rows, users);
    assert AsBatch([]) == [];
  }

  /** The successful path of `ImportSpec`, for a snapshot whose new records fit their columns. */
  lemma ImportSpecWhenBatchFits(rows: seq<Collaborator>, nextId: Uuid, response: HttpOutcome, now: Instant)
    requires FetchUsers(response).Ok?
    requires BatchFitsColumns(AsBatch(UsersToInsert(rows, FetchUsers(response).value)))
    ensures var users := FetchUsers(response).value;
            var newUsers := UsersToInsert(rows, users);
            var after := InsertAll(rows, nextId, AsBatch(newUsers), now);
            ImportSpec(rows, nextId, response, None, None, now) ==
            ImportOutcome(Ok(ImportResponse(|newUsers|, |users| - |newUsers|)), after.0, after.1)
  {
  }

  /**
   * A `bulkCreate` that fails on a non-empty batch fails the import with its
   * own error, since the insert is awaited without a catch; nothing is stored.
   */
  lemma ImportInsertFaultPassesThrough(rows: seq<Collaborator>, nextId: Uuid, response: HttpOutcome,
                                       fault: Failure, now: Instant)
    requires FetchUsers(response).Ok?
    requires UsersToInsert(rows, FetchUsers(response).value) != []
    ensures ImportSpec(rows, nextId, response, None, Some(fault), now) == ImportOutcome(Fail(fault), rows, nextId)
  {
    var batch := AsBatch(UsersToInsert(rows, FetchUsers(response).value));
    assert |batch| > 0;
  }

  /** When every fetched email is already stored, the filter leaves nothing to insert. */
  lemma NothingLeftToInsert(rows: seq<Collaborator>, users: seq<MappedUser>)
    requires forall u :: u in users ==> EmailStored(rows, u.email)
    ensures UsersToInsert(rows, users) == []
  {
  }

  /**
   * An empty snapshot imports nothing, ignores nothing and changes nothing;
   * `bulkCreate` of no records returns without a round trip, so no insert
   * failure can reach it.
   */
  lemma ImportEmptySnapshot(rows: seq<Collaborator>, nextId: Uuid, insertFault: Option<Failure>, now: Instant)
    ensures ImportSpec(rows, nextId, Response([]), None, insertFault, now) == ImportOutcome(Ok(ImportResponse(0, 0)), rows, nextId)
  {
    assert UsersToInsert(rows, []) == [];
    assert AsBatch([]) == [];
  }

  // ----- listCollaborators -----

  /** Destructuring with a default: the default applies only when the parameter is absent. */
  function OrDefault(param: Option<string>, default: string): string
  {
    if param.Some? then param.value else default
  }

  /** `(pageNum - 1) * limitNum` */
  function OffsetOf(page: int, limit: int): int
  {
    (page - 1) * limit
  }

  /** The query `listCollaborators` builds from the raw parameters, with no range or allow-list check. */
  function PlanQuery(params: ListQueryParams): (q: FindOptions)
    ensures q.limit == JsText.ParseInt(OrDefault(params.limit, "10"))
    ensures q.offset.Some? <==> JsText.ParseInt(OrDefault(params.page, "1")).Some? && q.limit.Some?
    ensures q.offset.Some? ==> q.offset.value == OffsetOf(JsText.ParseInt(OrDefault(params.page, "1")).value, q.limit.value)
    ensures q.nameILike.Some? <==> params.search.Some? && params.search.value != ""
    ensures q.nameILike.Some? ==> q.nameILike == params.search
    ensures q.sort == OrDefault(params.sort, "createdAt")
    ensures q.direction == JsText.UpperCase(OrDefault(params.order, "DESC"))
  {
    var pageNum := JsText.ParseInt(OrDefault(params.page, "1"));
    var limitNum := JsText.ParseInt(OrDefault(params.limit, "10"));
    var offset := if pageNum.Some? && limitNum.Some? then Some(OffsetOf(pageNum.value, limitNum.value)) else None;
    var nameILike := if params.search.Some? && params.search.value != "" then params.search else None;
    FindOptions(nameILike, limitNum, offset, OrDefault(params.sort, "createdAt"), JsText.UpperCase(OrDefault(params.order, "DESC")))
  }

  /** `Math.ceil(a / b)` for a non-zero integer divisor: the least `n` with `a <= n * b` (greatest with `n * b <= a` when `b < 0`). */
  function CeilDiv(a: int, b: int): (n: int)
    requires b != 0
    ensures b > 0 ==> (n - 1) * b < a <= n * b
    ensures b < 0 ==> n * b <= a < (n - 1) * b
    ensures b > 0 && a >= 0 ==> n >= 0
  {
    if b > 0 then
      var q := (-a) / b;
      assert -a == q * b + (-a) % b && 0 <= (-a) % b < b;
      assert (-q) * b == -(q * b) && (-q - 1) * b == (-q) * b - b;
      assert a >= 0 ==> q <= 0;
      -q
    else
      var q := a / (-b);
      assert a == q * (-b) + a % (-b) && 0 <= a % (-b) < -b;
      assert (-q) * b == q * (-b) && (-q - 1) * b == (-q) * b - b;
      -q
  }

  /** `Math.ceil(count / limitNum)`, with `NaN` and `Infinity` where JavaScript gives them. */
  function TotalPages(count: nat, limit: Option<int>): (r: PageCount)
    ensures limit.None? ==> r == NotANumber
    ensures limit == Some(0) ==> (r == NotANumber <==> count == 0) && (r == Infinite <==> count > 0)
    ensures limit.Some? && limit.value > 0 ==>
              r.Pages? && 0 <= r.n && (r.n - 1) * limit.value < count <= r.n * limit.value
    ensures limit.Some? && limit.value < 0 ==> r.Pages? && r.n * limit.value <= count < (r.n - 1) * limit.value
  {
    if limit.None? then NotANumber
    else if limit.value == 0 then (if count == 0 then NotANumber else Infinite)
    else Pages(CeilDiv(count, limit.value))
  }

  /** The `{ data, pagination }` envelope around one page of the store's answer. */
  function Envelope(pageNum: Option<int>, limitNum: Option<int>, answer: CountAndRows): (r: PaginatedResponse<Collaborator>)
    ensures r.data == answer.rows && r.pagination.total == answer.count
    ensures r.pagination.page == pageNum && r.pagination.limit == limitNum
    ensures r.pagination.totalPages == TotalPages(answer.count, limitNum)
  {
    PaginatedResponse(answer.rows, Pagination(pageNum, limitNum, answer.count, TotalPages(answer.count, limitNum)))
  }

  /** `listCollaborators`: plan the query, run it on the table, wrap the page. */
  function ListCollaborators(rows: seq<Collaborator>, params: ListQueryParams, queryFault: Option<Failure>)
    : (r: Result<PaginatedResponse<Collaborator>, Failure>)
    ensures queryFault.Some? ==> r == Fail(queryFault.value)
    ensures queryFault.None? ==> (r.Ok? <==> Accepts(PlanQuery(params)))
    ensures queryFault.None? && r.Fail? ==> r.error == QueryRejected
    ensures r.Ok? ==> r.value.pagination.page == JsText.ParseInt(OrDefault(params.page, "1"))
    ensures r.Ok? ==> r.value.pagination.limit == JsText.ParseInt(OrDefault(params.limit, "10"))
    ensures r.Ok? ==> r.value.pagination.total == |Where(rows, PlanQuery(params).nameILike)|
    ensures r.Ok? ==> |r.value.data| <= r.value.pagination.limit.value
    ensures r.Ok? ==> forall c :: c in r.value.data ==> c in rows && Matches(c, PlanQuery(params).nameILike)
    ensures r.Ok? ==> r.value.pagination.totalPages == TotalPages(r.value.pagination.total, r.value.pagination.limit)
    ensures r.Ok? && r.value.pagination.limit.value > 0 ==>
              var l, total := r.value.pagination.limit.value, r.value.pagination.total;
              var n := r.value.pagination.totalPages.n;
              r.value.pagination.totalPages.Pages? && (n - 1) * l < total <= n * l
    ensures r.Ok? && r.value.pagination.limit.value == 0 ==>
              r.value.pagination.totalPages == if r.value.pagination.total == 0 then NotANumber else Infinite
  {
    if queryFault.Some? then Fail(queryFault.value)
    else
      var q := PlanQuery(params);
      match FindAndCountAll(rows, q)
      case Fail(e) => Fail(e)
      case Ok(answer) => Ok(Envelope(JsText.ParseInt(OrDefault(params.page, "1")), q.limit, answer))
  }

  /** With no parameters: page 1, 10 per page, newest first, no filter. */
  lemma PlanQueryDefaults()
    ensures PlanQuery(ListQueryParams(None, None, None, None, None)) == FindOptions(None, Some(10), Some(0), "createdAt", "DESC")
  {
    assert JsText.Show(1) == "1";
    assert JsText.Show(10) == "10";
    JsText.ParseIntShowRoundTrip(1);
    JsText.ParseIntShowRoundTrip(10);
    assert JsText.UpperCase("DESC") == "DESC";
  }

  /** Numeric `page` and `limit` are taken as they are: no range check, so page 0 or a negative page gives a negative offset. */
  lemma PlanQueryTakesNumbersAsGiven(params: ListQueryParams, page: int, limit: int)
    requires params.page == Some(JsText.Show(page)) && params.limit == Some(JsText.Show(limit))
    ensures PlanQuery(params).limit == Some(limit)
    ensures PlanQuery(params).offset == Some((page - 1) * limit)
  {
    JsText.ParseIntShowRoundTrip(page);
    JsText.ParseIntShowRoundTrip(limit);
  }

  /** `?page=-1` with the default limit asks the database for offset -20, which it rejects. */
  lemma NegativePageIsRejected(rows: seq<Collaborator>)
    ensures PlanQuery(ListQueryParams(Some("-1"), None, None, None, None)).offset == Some(-20)
    ensures ListCollaborators(rows, ListQueryParams(Some("-1"), None, None, None, None), None) == Fail(QueryRejected)
  {
    assert JsText.Show(-1) == "-1";
    assert JsText.Show(10) == "10";
    PlanQueryTakesNumbersAsGiven(ListQueryParams(Some("-1"), Some("10"), None, None, None), -1, 10);
  }

  /** `order` is upper-cased before use, so `asc` sorts ascending. */
  lemma LowerCaseOrderIsAccepted(params: ListQueryParams)
    requires params.order == Some("asc")
    ensures PlanQuery(params).direction == "ASC"
  {
    assert OrDefault(params.order, "DESC") == "asc";
    assert JsText.UpperChar('a') == 'A' && JsText.UpperChar('s') == 'S' && JsText.UpperChar('c') == 'C';
    var u := JsText.UpperCase("asc");
    assert |u| == 3 && u[0] == 'A' && u[1] == 'S' && u[2] == 'C';
    assert u == "ASC";
  }

  lemma {:induction false} MulMonotone(a: int, b: int, c: int)
    requires a <= b && c >= 0
    ensures a * c <= b * c
  {
    assert b * c - a * c == (b - a) * c;
  }

  /** Page `page` (from 1) of a positive limit has rows exactly when it is at most the reported page count. */
  lemma PageNonEmptyIffWithinTotalPages(s: seq<Collaborator>, page: int, limit: int)
    requires page >= 1 && limit > 0
    ensures (page - 1) * limit >= 0
    ensures |Window(s, (page - 1) * limit, limit)| > 0 <==> page <= CeilDiv(|s|, limit)
  {
    MulMonotone(0, page - 1, limit);
    var n := CeilDiv(|s|, limit);
    if page <= n {
      MulMonotone(page - 1, n - 1, limit);
    } else {
      MulMonotone(n, page - 1, limit);
    }
  }

  /** Pages 1 to `n` of `s`, one after the other. */
  function PagesUpTo(s: seq<Collaborator>, limit: nat, n: nat): seq<Collaborator>
  {
    if n == 0 then [] else PagesUpTo(s, limit, n - 1) + Window(s, (n - 1) * limit, limit)
  }

  /** Consecutive pages tile the sequence: no row is skipped or repeated between them. */
  lemma {:induction false} PagesUpToIsPrefix(s: seq<Collaborator>, limit: nat, n: nat)
    ensures n * limit >= 0
    ensures PagesUpTo(s, limit, n) == s[..Min(n * limit, |s|)]
  {
    MulMonotone(0, n, limit);
    if n > 0 {
      PagesUpToIsPrefix(s, limit, n - 1);
      var a := Min((n - 1) * limit, |s|);
      var b := Min(n * limit, |s|);
      assert (n - 1) * limit + limit == n * limit;
      assert Window(s, (n - 1) * limit, limit) == s[a..b];
      assert s[..a] + s[a..b] == s[..b];
    }
  }

  /** Walking pages 1 to the reported page count returns the whole sequence, in order. */
  lemma AllPagesCoverEverything(s: seq<Collaborator>, limit: int)
    requires limit > 0
    ensures PagesUpTo(s, limit, CeilDiv(|s|, limit)) == s
  {
    PagesUpToIsPrefix(s, limit, CeilDiv(|s|, limit));
    assert s[..|s|] == s;
  }

  /** The list parameters with `page` set to the decimal rendering of `page`. */
  function WithPage(params: ListQueryParams, page: int): ListQueryParams
  {
    params.(page := Some(JsText.Show(page)))
  }

  /** The parameters the database accepts for every page from 1 on. */
  predicate PageableParams(params: ListQueryParams)
  {
    var q := PlanQuery(params);
    q.limit.Some? && q.limit.value >= 0 && IsSortAttribute(q.sort) && q.direction in {"ASC", "DESC"}
  }

  /** The matching rows in the requested order, before `LIMIT`/`OFFSET`. */
  function Ordered(rows: seq<Collaborator>, params: ListQueryParams): seq<Collaborator>
    requires PageableParams(params)
  {
    var q := PlanQuery(params);
    SortBy(Where(rows, q.nameILike), q.sort, q.direction == "ASC")
  }

  /** Page `page` of the listing is the `page`-th window of the matching rows in the requested order. */
  lemma ListPageIsWindow(rows: seq<Collaborator>, params: ListQueryParams, page: int)
    requires PageableParams(params) && page >= 1
    ensures var l := PlanQuery(params).limit.value;
            var r := ListCollaborators(rows, WithPage(params, page), None);
            && (page - 1) * l >= 0
            && r.Ok?
            && r.value.pagination.page == Some(page)
            && r.value.data == Window(Ordered(rows, params), (page - 1) * l, l)
  {
    var l := PlanQuery(params).limit.value;
    MulMonotone(0, page - 1, l);
    var q := PlanQueryWithPage(params, page);
    FindAndCountAllIsWindow(rows, q);
  }

  /** Setting `page` changes only the offset of the planned query. */
  lemma PlanQueryWithPage(params: ListQueryParams, page: int) returns (q: FindOptions)
    requires PlanQuery(params).limit.Some?
    ensures q == PlanQuery(WithPage(params, page))
    ensures q == PlanQuery(params).(offset := Some((page - 1) * PlanQuery(params).limit.value))
    ensures JsText.ParseInt(OrDefault(WithPage(params, page).page, "1")) == Some(page)
  {
    JsText.ParseIntShowRoundTrip(page);
    q := PlanQuery(WithPage(params, page));
  }

  /**
   * Each page is a query of its own, and the database only promises the
   * requested order, not an order among rows that tie on the sort column.
   * When no two matching rows tie, every order it may return them in is the
   * model's order, so for a positive limit pages 1 to `totalPages`, queried
   * one by one, hold every matching row exactly once, in the requested order.
   */
  lemma ListingPagesCoverEveryMatch(rows: seq<Collaborator>, params: ListQueryParams, o: seq<Collaborator>)
    requires PageableParams(params) && PlanQuery(params).limit.value > 0
    requires NoTies(Where(rows, PlanQuery(params).nameILike), PlanQuery(params).sort)
    requires multiset(o) == multiset(Where(rows, PlanQuery(params).nameILike))
    requires SortedBy(o, PlanQuery(params).sort, PlanQuery(params).direction == "ASC")
    ensures o == Ordered(rows, params)
    ensures var l := PlanQuery(params).limit.value;
            var total := |Where(rows, PlanQuery(params).nameILike)|;
            && TotalPages(total, Some(l)).Pages?
            && TotalPages(total, Some(l)).n >= 0
            && PagesUpTo(o, l, TotalPages(total, Some(l)).n) == o
  {
    OrderIsDetermined(rows, params, o);
    AllPagesCoverEverything(o, PlanQuery(params).limit.value);
  }

  /** Without ties among the matching rows, the requested order is the only one the database can return. */
  lemma OrderIsDetermined(rows: seq<Collaborator>, params: ListQueryParams, o: seq<Collaborator>)
    requires PageableParams(params)
    requires NoTies(Where(rows, PlanQuery(params).nameILike), PlanQuery(params).sort)
    requires multiset(o) == multiset(Where(rows, PlanQuery(params).nameILike))
    requires SortedBy(o, PlanQuery(params).sort, PlanQuery(params).direction == "ASC")
    ensures o == Ordered(rows, params)
  {
    var q := PlanQuery(params);
    var matching := Where(rows, q.nameILike);
    var ordered := Ordered(rows, params);
    assert multiset(ordered) == multiset(matching);
    forall x, y | x in ordered && y in ordered && x != y
      ensures KeyOf(x, q.sort) != KeyOf(y, q.sort)
    {
      assert x in multiset(matching) && y in multiset(matching);
    }
    SortedUnique(ordered, o, q.sort, q.direction == "ASC");
  }

  /** Ids and emails are unique in the table, so sorting by either leaves no ties among the matching rows. */
  lemma IdAndEmailSortsHaveNoTies(rows: seq<Collaborator>, nextId: Uuid, nameILike: Option<string>, column: string)
    requires TableInvariant(rows, nextId) && column in {"id", "email"}
    ensures NoTies(Where(rows, nameILike), column)
  {
    forall x, y | x in Where(rows, nameILike) && y in Where(rows, nameILike) && x != y
      ensures KeyOf(x, column) != KeyOf(y, column)
    {
      var i :| 0 <= i < |rows| && rows[i] == x;
      var j :| 0 <= j < |rows| && rows[j] == y;
      KeysIdentifyRows(rows, nextId, i, j);
    }
  }

  /**
   * Which listings the database answers: a numeric, non-negative limit; a
   * page of at least 1 unless the limit is 0 or the page is not a number (no
   * `OFFSET` then); a model attribute to sort by; and `asc` or `desc` in any
   * case.
   */
  lemma ListAcceptsExactly(rows: seq<Collaborator>, params: ListQueryParams)
    ensures var page := JsText.ParseInt(OrDefault(params.page, "1"));
            var limit := JsText.ParseInt(OrDefault(params.limit, "10"));
            ListCollaborators(rows, params, None).Ok? <==>
              && limit.Some? && limit.value >= 0
              && (page.None? || limit.value == 0 || page.value >= 1)
              && IsSortAttribute(OrDefault(params.sort, "createdAt"))
              && JsText.UpperCase(OrDefault(params.order, "DESC")) in {"ASC", "DESC"}
  {
    var page := JsText.ParseInt(OrDefault(params.page, "1"));
    var limit := JsText.ParseInt(OrDefault(params.limit, "10"));
    var q := PlanQuery(params);
    assert ListCollaborators(rows, params, None).Ok? <==> Accepts(q);
    if limit.Some? && limit.value >= 0 {
      OffsetAcceptedExactly(page, limit, q.offset);
    }
  }

  /** The planned offset is absent or non-negative exactly when the page is `NaN`, at least 1, or the limit is 0. */
  lemma OffsetAcceptedExactly(page: Option<int>, limit: Option<int>, offset: Option<int>)
    requires limit.Some? && limit.value >= 0
    requires offset.Some? <==> page.Some?
    requires offset.Some? ==> offset.value == OffsetOf(page.value, limit.value)
    ensures offset.None? || offset.value >= 0 <==> page.None? || limit.value == 0 || page.value >= 1
  {
    if page.Some? {
      if page.value >= 1 {
        MulMonotone(0, page.value - 1, limit.value);
      } else if limit.value > 0 {
        MulMonotone(page.value - 1, -1, limit.value);
      }
    }
  }

  /** Only an absent parameter takes its default: `?limit=` is the empty string, which `parseInt` reads as `NaN`, so the query is rejected. */
  lemma EmptyLimitIsNotDefaulted(rows: seq<Collaborator>, params: ListQueryParams)
    requires params.limit == Some("")
    ensures OrDefault(params.limit, "10") == ""
    ensures ListCollaborators(rows, params, None) == Fail(QueryRejected)
  {
    var q := PlanQuery(params);
    assert q.limit == JsText.ParseInt("");
    assert JsText.TrimStart("") == "" && JsText.AfterSign("") == "";
    assert q.limit.None?;
    var r := ListCollaborators(rows, params, None);
    assert r.Fail? && r.error == QueryRejected;
  }

  /** `?page=abc` is not rejected: the offset is `NaN`, no `OFFSET` is sent, and the first page comes back with `page` `NaN`. */
  lemma NonNumericPageListsFirstPage(rows: seq<Collaborator>, params: ListQueryParams)
    requires PageableParams(params)
    requires JsText.ParseInt(OrDefault(params.page, "1")).None?
    ensures var r := ListCollaborators(rows, params, None);
            && r.Ok?
            && r.value.pagination.page.None?
            && r.value.data == Window(Ordered(rows, params), 0, PlanQuery(params).limit.value)
  {
    FindAndCountAllIsWindow(rows, PlanQuery(params));
  }

  /**
   * Whatever the page and limit strings (`"02"`, `" 2"`, `"2abc"`, `"abc"`),
   * an accepted listing returns the window of the matching rows, in the
   * requested order, that starts at the row the parsed offset names.
   */
  lemma ListedRowsAreWindow(rows: seq<Collaborator>, params: ListQueryParams)
    requires Accepts(PlanQuery(params))
    ensures var q := PlanQuery(params);
            var r := ListCollaborators(rows, params, None);
            && PageableParams(params)
            && r.Ok?
            && r.value.data == Window(Ordered(rows, params), StartRow(q), q.limit.value)
  {
    FindAndCountAllIsWindow(rows, PlanQuery(params));
  }

  // ----- getCollaboratorById / deleteCollaborator -----

  /** `getCollaboratorById` */
  method GetCollaboratorById(store: CollaboratorStore, id: Uuid) returns (r: Result<Collaborator, Failure>)
    ensures r.Ok? <==> exists k :: 0 <= k < |store.rows| && store.rows[k].id == id
    ensures r.Ok? ==> r.value in store.rows && r.value.id == id
    ensures r.Fail? ==> r.error == NotFound
  {
    var found := store.FindByPk(id);
    if found.None? {
      return Fail(NotFound);
    }
    return Ok(found.value);
  }

  /** `deleteCollaborator`: look the row up first, fail with 404 if it is absent, else destroy it. */
  method DeleteCollaborator(store: CollaboratorStore, id: Uuid) returns (r: Result<(), Failure>)
    requires store.Valid()
    modifies store
    ensures store.Valid() && store.nextId == old(store.nextId)
    ensures r.Fail? <==> Lookup(old(store.rows), id).None?
    ensures r.Fail? ==> r.error == NotFound && store.rows == old(store.rows)
    ensures r.Ok? ==> store.rows == RemoveId(old(store.rows), id)
  {
    var found := store.FindByPk(id);
    if found.None? {
      return Fail(NotFound);
    }
    store.Destroy(id);
    return Ok(());
  }

  /** Once a collaborator is deleted, looking its id up is a 404. */
  lemma DeletedIdIsNotFound(rows: seq<Collaborator>, id: Uuid)
    ensures Lookup(RemoveId(rows, id), id).None?
  {
  }

  /** Deleting an existing id removes exactly one row, since ids are unique. */
  lemma {:induction false} DeleteRemovesOneRow(rows: seq<Collaborator>, id: Uuid)
    requires UniqueIds(rows) && Lookup(rows, id).Some?
    ensures |RemoveId(rows, id)| == |rows| - 1
  {
    var tail := rows[1..];
    assert UniqueIds(tail) by {
      forall i, j | 0 <= i < j < |tail|
        ensures tail[i].id != tail[j].id
      {
        assert tail[i] == rows[i + 1] && tail[j] == rows[j + 1];
      }
    }
    if rows[0].id == id {
      forall k | 0 <= k < |tail|
        ensures tail[k].id != id
      {
        assert tail[k] == rows[k + 1];
      }
      RemoveAbsentId(tail, id);
    } else {
      var k :| 0 <= k < |rows| && rows[k].id == id;
      assert tail[k - 1].id == id;
      DeleteRemovesOneRow(tail, id);
    }
  }

  /** Deleting an id no row carries changes nothing. */
  lemma {:induction false} RemoveAbsentId(rows: seq<Collaborator>, id: Uuid)
    requires forall k :: 0 <= k < |rows| ==> rows[k].id != id
    ensures RemoveId(rows, id) == rows
  {
    if rows != [] {
      RemoveAbsentId(rows[1..], id);
      assert rows == [rows[0]] + rows[1..];
    }
  }

  /** A missing collaborator reaches the client as 404 with the service's message. */
  lemma NotFoundRespondsWith404()
    ensures HandleError(NotFound) == ErrorResponse(404, "Collaborator not found")
  {
  }

  /** A failed directory fetch surfaces from the import as 500 Internal Server Error, never as its message. */
  lemma FailedFetchRespondsWith500(rows: seq<Collaborator>, nextId: Uuid, response: HttpOutcome,
                                   lookupFault: Option<Failure>, insertFault: Option<Failure>, now: Instant)
    requires FetchUsers(response).Fail?
    ensures var o := ImportSpec(rows, nextId, response, lookupFault, insertFault, now);
            o.result.Fail? && HandleError(o.result.error) == ErrorResponse(500, InternalServerError)
  {
  }

  /** A list query the database rejects (bad sort column, order or paging) answers 500 Database error occurred. */
  lemma RejectedListRespondsWith500(rows: seq<Collaborator>, params: ListQueryParams)
    requires !Accepts(PlanQuery(params))
    ensures var r := ListCollaborators(rows, params, None);
            r.Fail? && HandleError(r.error) == ErrorResponse(500, DatabaseErrorOccurred)
  {
  }

  /** A batch with a value longer than its column fails the whole import with 500 and leaves the table as it was. */
  lemma OverlongValueRespondsWith500(rows: seq<Collaborator>, nextId: Uuid, response: HttpOutcome, now: Instant)
    requires FetchUsers(response).Ok?
    requires !BatchFitsColumns(AsBatch(UsersToInsert(rows, FetchUsers(response).value)))
    ensures var o := ImportSpec(rows, nextId, response, None, None, now);
            && o == ImportOutcome(Fail(ValueTooLong), rows, nextId)
            && HandleError(o.result.error) == ErrorResponse(500, DatabaseErrorOccurred)
  {
  }
}
