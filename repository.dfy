/**
 * The TypeORM Repository<User> the services share: the `users` table as a map from key
 * to record, with the table's unique constraints as the class invariant.
 *
 * `available` stands for the reachability of the database: when it is false every call
 * fails with StorageError and changes nothing. A write that would break a unique
 * constraint fails with StorageError too.
 */
module Repository {
  import opened Outcomes
  import opened UserEntity

  /** Some record has this email, or this username. */
  ghost predicate AnyMatch(rows: map<Id, User>, email: string, username: string) {
    exists k :: k in rows && (rows[k].email == email || rows[k].username == username)
  }

  ghost predicate HasUsername(rows: map<Id, User>, username: string) {
    exists k :: k in rows && rows[k].username == username
  }

  class UserRepository {
    var rows: map<Id, User>
    /** The next key the database hands out; all stored keys are below it. */
    var nextId: Id
    const available: bool

    ghost predicate Valid()
      reads this
    {
      UniqueKeys(rows) && forall k :: k in rows ==> k < nextId
    }

    constructor(available: bool)
      ensures Valid() && rows == map[] && this.available == available
    {
      rows := map[];
      nextId := 0;
      this.available := available;
    }

    /** findOne({ where: { username } }). */
    method FindOneByUsername(username: string) returns (r: Result<Option<User>>)
      requires Valid()
      ensures r.Err? <==> !available
      ensures r.Err? ==> r.error == StorageError
      ensures r.Ok? && r.value.Some? ==>
        r.value.value.id in rows && rows[r.value.value.id] == r.value.value && r.value.value.username == username
      ensures r == Ok(None) <==> available && !HasUsername(rows, username)
    {
      if !available {
        return Err(StorageError);
      }
      if k :| k in rows && rows[k].username == username {
        r := Ok(Some(rows[k]));
      } else {
        r := Ok(None);
      }
    }

    /** findOne({ where: { id } }). */
    method FindOneById(id: Id) returns (r: Result<Option<User>>)
      requires Valid()
      ensures r.Err? <==> !available
      ensures r.Err? ==> r.error == StorageError
      ensures r.Ok? ==> r.value == if id in rows then Some(rows[id]) else None
    {
      if !available {
        return Err(StorageError);
      }
      r := Ok(if id in rows then Some(rows[id]) else None);
    }

    /**
     * findOne({ where: [{ email }, { username }] }): a record matching either condition.
     * When one record has the email and another the username, either may come back.
     */
    method FindOneByEmailOrUsername(email: string, username: string) returns (r: Result<Option<User>>)
      requires Valid()
      ensures r.Err? <==> !available
      ensures r.Err? ==> r.error == StorageError
      ensures r.Ok? && r.value.Some? ==>
        var u := r.value.value;
        u.id in rows && rows[u.id] == u && (u.email == email || u.username == username)
      ensures r == Ok(None) <==> available && !AnyMatch(rows, email, username)
    {
      if !available {
        return Err(StorageError);
      }
      if k :| k in rows && (rows[k].email == email || rows[k].username == username) {
        r := Ok(Some(rows[k]));
      } else {
        r := Ok(None);
      }
    }

    /** create(draft) followed by save: insert under a fresh key, which the returned entity carries. */
    method Insert(d: UserDraft) returns (r: Result<User>)
      requires Valid()
      modifies this
      ensures Valid()
      ensures r.Err? ==> r.error == StorageError && rows == old(rows)
      ensures r.Ok? <==> available && !Conflicts(old(rows), Materialize(d, old(nextId)))
      ensures r.Ok? ==>
        r.value.id !in old(rows) && r.value == Materialize(d, r.value.id) &&
        rows == old(rows)[r.value.id := r.value]
    {
      if !available {
        return Err(StorageError);
      }
      var u := Materialize(d, nextId);
      if Conflicts(rows, u) {
        return Err(StorageError);
      }
      StoreKeepsUniqueKeys(rows, u);
      rows := rows[u.id := u];
      nextId := nextId + 1;
      r := Ok(u);
    }

    /** save(entity): write every column of the record stored under entity.id (inserting it if absent). */
    method Save(u: User) returns (r: Result<User>)
      requires Valid()
      modifies this
      ensures Valid()
      ensures r.Err? ==> r.error == StorageError && rows == old(rows)
      ensures r.Ok? <==> available && !Conflicts(old(rows), u)
      ensures r.Ok? ==> r.value == u && rows == old(rows)[u.id := u]
    {
      if !available {
        return Err(StorageError);
      }
      if Conflicts(rows, u) {
        return Err(StorageError);
      }
      StoreKeepsUniqueKeys(rows, u);
      rows := rows[u.id := u];
      if nextId <= u.id {
        nextId := u.id + 1;
      }
      r := Ok(u);
    }

    /** update(id, { duo_verified: v }): a missing id matches no row and is not an error. */
    method UpdateDuoVerified(id: Id, v: bool) returns (r: Result<()>)
      requires Valid()
      modifies this
      ensures Valid()
      ensures r.Ok? <==> available
      ensures r.Err? ==> r.error == StorageError
      ensures rows == if available then SetDuoVerified(old(rows), id, v) else old(rows)
    {
      if !available {
        return Err(StorageError);
      }
      SetDuoVerifiedKeepsUniqueKeys(rows, id, v);
      rows := SetDuoVerified(rows, id, v);
      r := Ok(());
    }
  }

  /** Setting one record's flag on a record the table holds never conflicts, so save succeeds. */
  lemma FlagChangeNeverConflicts(rows: map<Id, User>, id: Id, v: bool)
    requires UniqueKeys(rows) && id in rows
    ensures !Conflicts(rows, rows[id].(duo_verified := v))
  {
  }
}
