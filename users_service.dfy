/** `UsersService`: creation, update and lookups on the users table. */
module Users {
  import opened Wrappers
  import opened Errors
  import opened Crypto
  import opened Bcrypt
  import opened UserEntity
  import opened Db
  import CreateUserDto

  const AlreadyExists := "User already exists"

  class UsersService {
    const db: Database

    constructor (db: Database)
      ensures this.db == db
    {
      this.db := db;
    }

    /**
     * `create(dto)`: refuses an email already on file; otherwise stores a new
     * row under the generated id with the password's digest in place of the
     * plaintext and no refresh session.
     */
    method Create(dto: CreateUserDto.SignupDto, newId: UserId, salt: nat) returns (r: Outcome<User>)
      requires db.Valid()
      requires IndexOfId(db.users, newId).None?  // the generated primary key is fresh
      modifies db
      ensures db.Valid() && db.ideas == old(db.ideas)
      ensures IndexOfEmail(old(db.users), dto.email).Some? ==>
                r == Err(Conflict(AlreadyExists)) && db.users == old(db.users)
      ensures IndexOfEmail(old(db.users), dto.email).None? ==>
                && r == Ok(User(newId, dto.email, dto.username, Hash(dto.password, salt), None))
                && db.users == old(db.users) + [r.value]
    {
      if IndexOfEmail(db.users, dto.email).Some? {
        return Err(Conflict(AlreadyExists));
      }
      var user := User(newId, dto.email, dto.username, Hash(dto.password, salt), None);
      InsertKeepsConsistent(db.users, db.ideas, user);
      db.users := db.users + [user];
      r := Ok(user);
    }

    /**
     * `update(id, attrs)`: an unknown id throws a plain `Error` (a 500, not a
     * 404); otherwise the given fields replace the row's and nothing else
     * changes, unless the new email is another row's.
     */
    method Update(id: UserId, attrs: UserAttrs) returns (r: Outcome<User>)
      requires db.Valid()
      modifies db
      ensures db.Valid() && db.ideas == old(db.ideas)
      ensures IndexOfId(old(db.users), id).None? ==>
                r == Err(ServerError(UserNotFound)) && db.users == old(db.users)
      ensures IndexOfId(old(db.users), id).Some? ==>
                var i := IndexOfId(old(db.users), id).value;
                if attrs.email.Some? && EmailHeldByOther(old(db.users), i, attrs.email.value)
                then r == Err(QueryFailed) && db.users == old(db.users)
                else r == Ok(Assign(old(db.users)[i], attrs)) && db.users == old(db.users)[i := r.value]
    {
      var found := IndexOfId(db.users, id);
      if found.None? {
        return Err(ServerError(UserNotFound));
      }
      var i := found.value;
      var saved := SaveAssigned(db.users, i, attrs);
      if saved.Err? {
        return Err(saved.error);
      }
      var user := Assign(db.users[i], attrs);
      RowUpdateKeepsConsistent(db.users, db.ideas, i, user);
      db.users := saved.value;
      r := Ok(user);
    }

    /** `findAll()`: every row, password digests included, in table order. */
    function FindAll(): (r: seq<User>)
      reads db
      ensures |r| == |db.users| && forall u :: u in r <==> u in db.users
    {
      db.users
    }

    /** `findOne(id)`: the whole row, password digest included, or a 404. */
    function FindOne(id: UserId): (r: Outcome<User>)
      reads db
      ensures r.Ok? <==> exists k :: 0 <= k < |db.users| && db.users[k].id == id
      ensures r.Ok? ==> r.value in db.users && r.value.id == id
      ensures r.Err? ==> r.error == NotFound(UserNotFound)
    {
      match IndexOfId(db.users, id)
      case Some(k) => Ok(db.users[k])
      case None => Err(NotFound(UserNotFound))
    }

    /** `findOneByEmail(email)`: the row, or null instead of an exception. */
    function FindOneByEmail(email: string): (r: Option<User>)
      reads db
      ensures r.Some? <==> exists k :: 0 <= k < |db.users| && db.users[k].email == email
      ensures r.Some? ==> r.value in db.users && r.value.email == email
    {
      match IndexOfEmail(db.users, email)
      case Some(k) => Some(db.users[k])
      case None => None
    }
  }
}
