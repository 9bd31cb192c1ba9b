/**
 * `Collaborator.findAndCountAll({ where, limit, offset, order })` over an
 * abstract table: keep the rows whose name matches the `ILIKE` pattern,
 * order them by one column, and cut the page out; `count` is taken over
 * all matching rows, before the page is cut.
 */
module StoreQuery {
  import opened Wrappers
  import opened ErrorHandler
  import opened CollaboratorModel
  import JsText

  /** The options the list operation hands to `findAndCountAll`; `None` stands for `NaN`. */
  datatype FindOptions = FindOptions(
    nameILike: Option<string>,
    limit: Option<int>,
    offset: Option<int>,
    sort: string,
    direction: string)

  datatype CountAndRows = CountAndRows(count: nat, rows: seq<Collaborator>)

  /** The value a row is ordered by; SQL `NULL` sorts after every value. */
  datatype SortKey = Number(n: int) | Text(s: string) | Null

  /** The model's attributes, the only names the query accepts in its `ORDER BY`. */
  predicate IsSortAttribute(column: string)
  {
    column in {"id", "name", "email", "city", "company", "createdAt", "updatedAt"}
  }

  function KeyOf(c: Collaborator, column: string): SortKey
    requires IsSortAttribute(column)
  {
    match column
    case "id" => Number(c.id)
    case "name" => Text(c.name)
    case "email" => Text(c.email)
    case "city" => if c.city.Some? then Text(c.city.value) else Null
    case "company" => if c.company.Some? then Text(c.company.value) else Null
    case "createdAt" => Number(c.createdAt)
    case _ => Number(c.updatedAt)
  }

  /** Lexicographic order on code units. */
  predicate TextLe(a: string, b: string)
  {
    a == [] || (b != [] && (a[0] < b[0] || (a[0] == b[0] && TextLe(a[1..], b[1..]))))
  }

  predicate KeyLe(a: SortKey, b: SortKey)
  {
    match (a, b)
    case (_, Null) => true
    case (Null, _) => false
    case (Number(x), Number(y)) => x <= y
    case (Number(_), Text(_)) => true
    case (Text(_), Number(_)) => false
    case (Text(x), Text(y)) => TextLe(x, y)
  }

  /** `a` may come before `b` under `ORDER BY column ASC` (or `DESC`). */
  predicate InOrder(a: Collaborator, b: Collaborator, column: string, ascending: bool)
    requires IsSortAttribute(column)
  {
    if ascending then KeyLe(KeyOf(a, column), KeyOf(b, column)) else KeyLe(KeyOf(b, column), KeyOf(a, column))
  }

  predicate SortedBy(s: seq<Collaborator>, column: string, ascending: bool)
    requires IsSortAttribute(column)
  {
    forall i, j :: 0 <= i < j < |s| ==> InOrder(s[i], s[j], column, ascending)
  }

  lemma {:induction false} TextLeTotal(a: string, b: string)
    ensures TextLe(a, b) || TextLe(b, a)
  {
    if a != [] && b != [] && a[0] == b[0] {
      TextLeTotal(a[1..], b[1..]);
    }
  }

  lemma {:induction false} TextLeTransitive(a: string, b: string, c: string)
    requires TextLe(a, b) && TextLe(b, c)
    ensures TextLe(a, c)
  {
    if a != [] && a[0] == b[0] && b[0] == c[0] {
      TextLeTransitive(a[1..], b[1..], c[1..]);
    }
  }

  lemma InOrderTotal(a: Collaborator, b: Collaborator, column: string, ascending: bool)
    requires IsSortAttribute(column)
    ensures InOrder(a, b, column, ascending) || InOrder(b, a, column, ascending)
  {
    var ka, kb := KeyOf(a, column), KeyOf(b, column);
    if ka.Text? && kb.Text? {
      TextLeTotal(ka.s, kb.s);
    }
  }

  lemma InOrderTransitive(a: Collaborator, b: Collaborator, c: Collaborator, column: string, ascending: bool)
    requires IsSortAttribute(column)
    requires InOrder(a, b, column, ascending) && InOrder(b, c, column, ascending)
    ensures InOrder(a, c, column, ascending)
  {
    var ka, kb, kc := KeyOf(a, column), KeyOf(b, column), KeyOf(c, column);
    if ka.Text? && kb.Text? && kc.Text? {
      if ascending {
        TextLeTransitive(ka.s, kb.s, kc.s);
      } else {
        TextLeTransitive(kc.s, kb.s, ka.s);
      }
    }
  }

  /** Insert `x` into an ordered sequence, before the first row it may precede. */
  function InsertInOrder(x: Collaborator, s: seq<Collaborator>, column: string, ascending: bool): (r: seq<Collaborator>)
    requires IsSortAttribute(column)
    ensures multiset(r) == multiset(s) + multiset{x}
  {
    if s == [] then [x]
    else if InOrder(x, s[0], column, ascending) then [x] + s
    else
      assert s == [s[0]] + s[1..];
      [s[0]] + InsertInOrder(x, s[1..], column, ascending)
  }

  lemma {:induction false} InsertInOrderSorted(x: Collaborator, s: seq<Collaborator>, column: string, ascending: bool)
    requires IsSortAttribute(column)
    requires SortedBy(s, column, ascending)
    ensures SortedBy(InsertInOrder(x, s, column, ascending), column, ascending)
  {
    if s == [] {
    } else if InOrder(x, s[0], column, ascending) {
      forall j | 0 <= j < |s|
        ensures InOrder(x, s[j], column, ascending)
      {
        if j > 0 {
          InOrderTransitive(x, s[0], s[j], column, ascending);
        }
      }
      ConsSorted(x, s, column, ascending);
    } else {
      var rest := InsertInOrder(x, s[1..], column, ascending);
      InsertInOrderSorted(x, s[1..], column, ascending);
      HeadPrecedesInsertion(x, s, rest, column, ascending);
      ConsSorted(s[0], rest, column, ascending);
      assert InsertInOrder(x, s, column, ascending) == [s[0]] + rest;
    }
  }

  /** When `x` does not go first, the head of `s` precedes everything after it. */
  lemma HeadPrecedesInsertion(x: Collaborator, s: seq<Collaborator>, rest: seq<Collaborator>, column: string, ascending: bool)
    requires IsSortAttribute(column)
    requires SortedBy(s, column, ascending) && s != [] && !InOrder(x, s[0], column, ascending)
    requires rest == InsertInOrder(x, s[1..], column, ascending)
    ensures forall j :: 0 <= j < |rest| ==> InOrder(s[0], rest[j], column, ascending)
  {
    InOrderTotal(x, s[0], column, ascending);
    forall j | 0 <= j < |rest|
      ensures InOrder(s[0], rest[j], column, ascending)
    {
      assert rest[j] in multiset(rest);
      if rest[j] != x {
        assert rest[j] in multiset(s[1..]);
        var k :| 0 <= k < |s[1..]| && s[1..][k] == rest[j];
        assert s[k + 1] == rest[j];
      }
    }
  }

  /** An ordered sequence stays ordered under a head that precedes all of it. */
  lemma ConsSorted(h: Collaborator, s: seq<Collaborator>, column: string, ascending: bool)
    requires IsSortAttribute(column)
    requires SortedBy(s, column, ascending)
    requires forall j :: 0 <= j < |s| ==> InOrder(h, s[j], column, ascending)
    ensures SortedBy([h] + s, column, ascending)
  {
    var r := [h] + s;
    forall i, j | 0 <= i < j < |r|
      ensures InOrder(r[i], r[j], column, ascending)
    {
      if i == 0 {
        assert r[j] == s[j - 1];
      } else {
        assert r[i] == s[i - 1] && r[j] == s[j - 1];
      }
    }
  }

  /** `ORDER BY column ASC|DESC`: an ordered permutation of the rows (ties keep table order). */
  function SortBy(s: seq<Collaborator>, column: string, ascending: bool): (r: seq<Collaborator>)
    requires IsSortAttribute(column)
    ensures multiset(r) == multiset(s)
    ensures SortedBy(r, column, ascending)
  {
    if s == [] then []
    else
      var rest := SortBy(s[1..], column, ascending);
      InsertInOrderSorted(s[0], rest, column, ascending);
      assert s == [s[0]] + s[1..];
      InsertInOrder(s[0], rest, column, ascending)
  }

  /** The `WHERE name ILIKE '%pattern%'` condition; no pattern keeps every row. */
  predicate Matches(c: Collaborator, nameILike: Option<string>)
  {
    nameILike.None? || JsText.ILikeSubstring(c.name, nameILike.value)
  }

  /** The rows the `WHERE` clause keeps, each as often as it occurs in the table. */
  function Where(table: seq<Collaborator>, nameILike: Option<string>): (r: seq<Collaborator>)
    ensures forall c :: multiset(r)[c] == if Matches(c, nameILike) then multiset(table)[c] else 0
    ensures forall c :: c in r <==> c in table && Matches(c, nameILike)
    ensures |r| <= |table|
  {
    if table == [] then []
    else
      assert table == [table[0]] + table[1..];
      (if Matches(table[0], nameILike) then [table[0]] else []) + Where(table[1..], nameILike)
  }

  function Min(a: int, b: int): int
  {
    if a <= b then a else b
  }

  /** `LIMIT limit OFFSET offset` over an ordered sequence. */
  function Window(s: seq<Collaborator>, offset: nat, limit: nat): (r: seq<Collaborator>)
    ensures |r| <= limit
    ensures |r| == Min(limit, |s| - Min(offset, |s|))
    ensures forall k :: 0 <= k < |r| ==> r[k] == s[offset + k]
    ensures forall c :: c in r ==> c in s
  {
    s[Min(offset, |s|)..Min(offset + limit, |s|)]
  }

  /**
   * When the database runs the query: a numeric, non-negative `LIMIT`, a
   * non-negative `OFFSET` (or none), a known attribute and `ASC`/`DESC` in
   * `ORDER BY`. Anything else is rejected with a database error.
   */
  predicate Accepts(q: FindOptions)
  {
    && q.limit.Some? && q.limit.value >= 0
    && (q.offset.None? || q.offset.value >= 0)
    && IsSortAttribute(q.sort)
    && q.direction in {"ASC", "DESC"}
  }

  /**
   * The first row of the window. Sequelize writes an `OFFSET` clause only for
   * a truthy offset, so an offset of `NaN` (or 0) leaves it out and the window
   * starts at the first row.
   */
  function StartRow(q: FindOptions): nat
    requires q.offset.None? || q.offset.value >= 0
  {
    if q.offset.Some? then q.offset.value else 0
  }

  const QueryRejected := Failure(DatabaseErrorName, "query rejected by the database", Plain)

  function FindAndCountAll(table: seq<Collaborator>, q: FindOptions): (r: Result<CountAndRows, Failure>)
    ensures r.Ok? <==> Accepts(q)
    ensures r.Fail? ==> r.error == QueryRejected
    ensures r.Ok? ==> r.value.count == |Where(table, q.nameILike)|
    ensures r.Ok? ==> |r.value.rows| <= q.limit.value
    ensures r.Ok? ==> forall c :: c in r.value.rows ==> c in table && Matches(c, q.nameILike)
    ensures r.Ok? ==> SortedBy(r.value.rows, q.sort, q.direction == "ASC")
  {
    if !Accepts(q) then Fail(QueryRejected)
    else
      var matching := Where(table, q.nameILike);
      var ordered := SortBy(matching, q.sort, q.direction == "ASC");
      var page := Window(ordered, StartRow(q), q.limit.value);
      assert forall c :: c in ordered ==> c in multiset(matching);
      Ok(CountAndRows(|matching|, page))
  }

  /** An accepted query returns the requested window of the matching rows in the requested order. */
  lemma FindAndCountAllIsWindow(table: seq<Collaborator>, q: FindOptions)
    requires Accepts(q)
    ensures var ordered := SortBy(Where(table, q.nameILike), q.sort, q.direction == "ASC");
            FindAndCountAll(table, q) == Ok(CountAndRows(|Where(table, q.nameILike)|, Window(ordered, StartRow(q), q.limit.value)))
  {
  }

  // ----- ties -----

  /** No two different rows of `s` share their value in `column`. */
  predicate NoTies(s: seq<Collaborator>, column: string)
    requires IsSortAttribute(column)
  {
    forall x, y :: x in s && y in s && x != y ==> KeyOf(x, column) != KeyOf(y, column)
  }

  lemma {:induction false} TextLeAntisymmetric(a: string, b: string)
    requires TextLe(a, b) && TextLe(b, a)
    ensures a == b
  {
    if a != [] && b != [] {
      TextLeAntisymmetric(a[1..], b[1..]);
      assert a == [a[0]] + a[1..] && b == [b[0]] + b[1..];
    }
  }

  lemma KeyLeAntisymmetric(a: SortKey, b: SortKey)
    requires KeyLe(a, b) && KeyLe(b, a)
    ensures a == b
  {
    if a.Text? && b.Text? {
      TextLeAntisymmetric(a.s, b.s);
    }
  }

  /**
   * Without ties the order is determined: any two orderings of the same rows
   * by the same column are the same sequence, so the database has no freedom
   * left in which order it returns them.
   */
  lemma {:induction false} SortedUnique(a: seq<Collaborator>, b: seq<Collaborator>, column: string, ascending: bool)
    requires IsSortAttribute(column)
    requires multiset(a) == multiset(b) && NoTies(a, column)
    requires SortedBy(a, column, ascending) && SortedBy(b, column, ascending)
    ensures a == b
    decreases |a|
  {
    assert |a| == |multiset(a)| == |multiset(b)| == |b|;
    if a != [] {
      SortedHeadsAgree(a, b, column, ascending);
      assert a == [a[0]] + a[1..] && b == [b[0]] + b[1..];
      assert multiset(a[1..]) == multiset(a) - multiset{a[0]};
      assert multiset(b[1..]) == multiset(b) - multiset{b[0]};
      SortedTail(a, column, ascending);
      SortedTail(b, column, ascending);
      SortedUnique(a[1..], b[1..], column, ascending);
    }
  }

  /** Two orderings of the same rows without ties start with the same row. */
  lemma SortedHeadsAgree(a: seq<Collaborator>, b: seq<Collaborator>, column: string, ascending: bool)
    requires IsSortAttribute(column)
    requires multiset(a) == multiset(b) && NoTies(a, column) && a != [] && b != []
    requires SortedBy(a, column, ascending) && SortedBy(b, column, ascending)
    ensures a[0] == b[0]
  {
    if a[0] != b[0] {
      assert b[0] in multiset(a) && a[0] in multiset(b);
      var k :| 0 <= k < |a| && a[k] == b[0];
      var m :| 0 <= m < |b| && b[m] == a[0];
      assert InOrder(a[0], a[k], column, ascending) && InOrder(b[0], b[m], column, ascending);
      KeyLeAntisymmetric(KeyOf(a[0], column), KeyOf(b[0], column));
      assert false;
    }
  }

  lemma SortedTail(s: seq<Collaborator>, column: string, ascending: bool)
    requires IsSortAttribute(column)
    requires SortedBy(s, column, ascending) && s != []
    ensures SortedBy(s[1..], column, ascending)
    ensures NoTies(s, column) ==> NoTies(s[1..], column)
  {
    forall i, j | 0 <= i < j < |s[1..]|
      ensures InOrder(s[1..][i], s[1..][j], column, ascending)
    {
      assert s[1..][i] == s[i + 1] && s[1..][j] == s[j + 1];
    }
  }
}
