/** UsersService: account lookups and the duo_verified update over the shared repository. */
module Users {
  import opened Outcomes
  import opened UserEntity
  import opened Repository

  class UsersService {
    const repo: UserRepository

    constructor(repo: UserRepository)
      ensures this.repo == repo
    {
      this.repo := repo;
    }

    /**
     * The record with this username; NotFound('User not found') when there is none.
     * A repository failure propagates unchanged. Reads only: the store is not in any frame.
     */
    method FindByUsername(username: string) returns (r: Result<User>)
      requires repo.Valid()
      ensures r.Ok? ==> r.value.id in repo.rows && repo.rows[r.value.id] == r.value && r.value.username == username
      ensures r.Ok? <==> repo.available && HasUsername(repo.rows, username)
      ensures r.Err? ==> r.error == if repo.available then NotFound("User not found") else StorageError
    {
      var found := repo.FindOneByUsername(username);
      match found
      case Err(e) => r := Err(e);
      case Ok(None) => r := Err(NotFound("User not found"));
      case Ok(Some(u)) => r := Ok(u);
    }

    /** Set duo_verified of record `id` to `verified`; no other column and no other record changes. */
    method UpdateDuoVerification(id: Id, verified: bool) returns (r: Result<()>)
      requires repo.Valid()
      modifies repo
      ensures repo.Valid()
      ensures r.Ok? <==> repo.available
      ensures r.Err? ==> r.error == StorageError
      ensures repo.rows == if repo.available then SetDuoVerified(old(repo.rows), id, verified) else old(repo.rows)
    {
      r := repo.UpdateDuoVerified(id, verified);
    }

    /**
     * The record with this key; NotFound('User not found') when there is none. The catch
     * block rethrows, so a repository failure reaches the caller unchanged.
     */
    method GetCurrentUser(id: Id) returns (r: Result<User>)
      requires repo.Valid()
      ensures r.Ok? <==> repo.available && id in repo.rows
      ensures r.Ok? ==> r.value == repo.rows[id] && r.value.id == id
      ensures r.Err? ==> r.error == if repo.available then NotFound("User not found") else StorageError
    {
      var found := repo.FindOneById(id);
      match found
      case Err(e) => r := Err(e);
      case Ok(None) => r := Err(NotFound("User not found"));
      case Ok(Some(u)) => r := Ok(u);
    }
  }
}
