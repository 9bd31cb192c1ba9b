/**
 * The `collaborators` table (src/collaborators/models/collaborator.ts):
 * the record shape, its column constraints, and the table invariant the
 * database keeps (primary key on `id`, unique `email`).
 */
module CollaboratorModel {
  import opened Wrappers

  /** `id` is a UUIDv4 in the source; the model draws ids from a counter that never repeats. */
  type Uuid = nat

  /** Timestamps (`DataTypes.DATE`) as instants on an abstract clock. */
  type Instant = int

  datatype Collaborator = Collaborator(
    id: Uuid,
    name: string,
    email: string,
    city: Option<string>,
    company: Option<string>,
    createdAt: Instant,
    updatedAt: Instant)

  /** What a caller hands to `bulkCreate`: the record without its generated columns. */
  datatype CreationAttributes = CreationAttributes(
    name: string,
    email: string,
    city: Option<string>,
    company: Option<string>)

  const NameMaxLength := 255
  const EmailMaxLength := 255
  const CityMaxLength := 100
  const CompanyMaxLength := 255

  /** The `VARCHAR(n)` bounds the database enforces on every insert. */
  predicate AttributesFitColumns(a: CreationAttributes)
  {
    && |a.name| <= NameMaxLength
    && |a.email| <= EmailMaxLength
    && (a.city.Some? ==> |a.city.value| <= CityMaxLength)
    && (a.company.Some? ==> |a.company.value| <= CompanyMaxLength)
  }

  predicate FitsColumns(c: Collaborator)
  {
    AttributesFitColumns(CreationAttributes(c.name, c.email, c.city, c.company))
  }

  /**
   * The model-level validators (`notEmpty` on name and email, `isEmail` on
   * email). `isEmail` comes from a validation library outside this model and
   * is a parameter. These run on `create`/`save`, not on a default `bulkCreate`.
   */
  predicate PassesValidators(c: Collaborator, isEmail: string -> bool)
  {
    c.name != "" && c.email != "" && isEmail(c.email)
  }

  /** A new row: a generated id, both timestamps set to the moment of creation. */
  function Build(a: CreationAttributes, id: Uuid, now: Instant): (c: Collaborator)
    ensures c.id == id && c.createdAt == now && c.updatedAt == now
    ensures CreationAttributes(c.name, c.email, c.city, c.company) == a
    ensures FitsColumns(c) <==> AttributesFitColumns(a)
  {
    Collaborator(id, a.name, a.email, a.city, a.company, now, now)
  }

  /** `unique: true` on `email`. */
  predicate UniqueEmails(rows: seq<Collaborator>)
  {
    forall i, j :: 0 <= i < j < |rows| ==> rows[i].email != rows[j].email
  }

  /** `primaryKey: true` on `id`. */
  predicate UniqueIds(rows: seq<Collaborator>)
  {
    forall i, j :: 0 <= i < j < |rows| ==> rows[i].id != rows[j].id
  }

  /** Some stored row carries this email. */
  predicate EmailStored(rows: seq<Collaborator>, email: string)
  {
    exists k :: 0 <= k < |rows| && rows[k].email == email
  }

  /**
   * What the database guarantees of the table: unique ids and emails, every
   * value within its column's bounds, and every id below the next one the
   * generator will hand out.
   */
  predicate TableInvariant(rows: seq<Collaborator>, nextId: Uuid)
  {
    && UniqueEmails(rows)
    && UniqueIds(rows)
    && forall k :: 0 <= k < |rows| ==> rows[k].id < nextId && FitsColumns(rows[k])
  }

  /** Under the table invariant an id, or an email, picks out at most one row, and every row is below `nextId` and fits its columns. */
  lemma KeysIdentifyRows(rows: seq<Collaborator>, nextId: Uuid, i: int, j: int)
    requires TableInvariant(rows, nextId)
    requires 0 <= i < |rows| && 0 <= j < |rows|
    ensures rows[i].id == rows[j].id ==> i == j
    ensures rows[i].email == rows[j].email ==> i == j
    ensures rows[i].id < nextId && FitsColumns(rows[i])
  {
    if i < j {
      assert rows[i].id != rows[j].id && rows[i].email != rows[j].email;
    } else if j < i {
      assert rows[j].id != rows[i].id && rows[j].email != rows[i].email;
    }
  }
}
