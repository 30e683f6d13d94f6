/**
 * The `users` table: one record per account. The primary key is generated by the
 * database, username and email carry unique constraints, and the three flags default
 * to false when an insert leaves them unset. created_at and updated_at are not modelled.
 */
module UserEntity {
  import opened Outcomes

  /** Generated primary key (a uuid in the database; any supply of fresh values will do). */
  type Id = nat

  datatype User = User(
    id: Id,
    username: string,
    email: string,
    fullname: string,
    required_duo: bool,
    duo_verified: bool,
    is_active: bool)

  /** What `repository.create` is given: the columns without the key; unset flags are None. */
  datatype UserDraft = UserDraft(
    username: string,
    email: string,
    fullname: string,
    required_duo: Option<bool>,
    duo_verified: Option<bool>,
    is_active: Option<bool>)

  /** A boolean column with `default: false`. */
  function ColumnDefault(v: Option<bool>): (b: bool)
    ensures b <==> v == Some(true)
  {
    match v
    case Some(x) => x
    case None => false
  }

  /** The row the database stores for a draft under a freshly generated key. */
  function Materialize(d: UserDraft, id: Id): (u: User)
    ensures u.id == id
    ensures u.username == d.username && u.email == d.email && u.fullname == d.fullname
    ensures u.required_duo <==> d.required_duo == Some(true)
    ensures u.duo_verified <==> d.duo_verified == Some(true)
    ensures u.is_active <==> d.is_active == Some(true)
  {
    User(id, d.username, d.email, d.fullname,
         ColumnDefault(d.required_duo), ColumnDefault(d.duo_verified), ColumnDefault(d.is_active))
  }

  /**
   * The table's constraints: each record is stored under its own key, and no two
   * records share a username or an email.
   */
  ghost predicate UniqueKeys(rows: map<Id, User>)
    ensures rows == map[] ==> UniqueKeys(rows)
    ensures UniqueKeys(rows) ==>
      forall a, b :: a in rows && b in rows && (rows[a].username == rows[b].username || rows[a].email == rows[b].email) ==> a == b
  {
    && (forall k :: k in rows ==> rows[k].id == k)
    && (forall a, b :: a in rows && b in rows && a != b ==>
          rows[a].username != rows[b].username && rows[a].email != rows[b].email)
  }

  /** Storing u would break a unique constraint: another record has its username or email. */
  predicate Conflicts(rows: map<Id, User>, u: User) {
    exists k :: k in rows && k != u.id && (rows[k].username == u.username || rows[k].email == u.email)
  }

  /** `UPDATE users SET duo_verified = v WHERE id = id`: a missing id matches no row. */
  function SetDuoVerified(rows: map<Id, User>, id: Id, v: bool): (r: map<Id, User>)
    ensures r.Keys == rows.Keys
    ensures forall k :: k in rows && k != id ==> r[k] == rows[k]
    ensures id in rows ==> r[id] == rows[id].(duo_verified := v)
  {
    if id in rows then rows[id := rows[id].(duo_verified := v)] else rows
  }

  // ---------------------------------------------------------------------------
  // Properties

  /** Storing two versions of a record under the same key leaves only the second. */
  lemma StoreTwice(rows: map<Id, User>, u: User, v: User)
    requires u.id == v.id
    ensures rows[u.id := u][v.id := v] == rows[v.id := v]
  {
  }

  /** Distinct records have distinct ids, and a username or an email picks out at most one record. */
  lemma RecordsDistinct(rows: map<Id, User>, a: Id, b: Id)
    requires UniqueKeys(rows)
    requires a in rows && b in rows
    ensures rows[a] != rows[b] ==> rows[a].id != rows[b].id
    ensures rows[a].username == rows[b].username ==> a == b
    ensures rows[a].email == rows[b].email ==> a == b
  {
  }

  /** Storing a record that conflicts with no other record keeps the constraints. */
  lemma StoreKeepsUniqueKeys(rows: map<Id, User>, u: User)
    requires UniqueKeys(rows)
    requires !Conflicts(rows, u)
    ensures UniqueKeys(rows[u.id := u])
  {
  }

  /** Changing duo_verified never creates a conflict. */
  lemma SetDuoVerifiedKeepsUniqueKeys(rows: map<Id, User>, id: Id, v: bool)
    requires UniqueKeys(rows)
    ensures UniqueKeys(SetDuoVerified(rows, id, v))
  {
  }

  /** Setting the flag twice to the same value leaves the same table as setting it once. */
  lemma SetDuoVerifiedIdempotent(rows: map<Id, User>, id: Id, v: bool)
    ensures SetDuoVerified(SetDuoVerified(rows, id, v), id, v) == SetDuoVerified(rows, id, v)
  {
  }

  /** A record whose flag already has the value is left as it is: the update is a no-op. */
  lemma SetDuoVerifiedNoop(rows: map<Id, User>, id: Id, v: bool)
    requires id in rows && rows[id].duo_verified == v
    ensures SetDuoVerified(rows, id, v) == rows
  {
    assert rows[id].(duo_verified := v) == rows[id];
  }
}
