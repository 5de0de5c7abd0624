/** The user table, keyed by id, with the unique index on `Email`. */
module UserRepository {
  import opened Wrappers
  import opened Domain

  /** Every row is stored under its own id. */
  predicate Keyed(users: map<Id, Usuario>) {
    forall id :: id in users ==> users[id].id == id
  }

  /** The unique index on `Email`: no two rows share an address. */
  predicate UniqueEmails(users: map<Id, Usuario>) {
    forall a, b :: a in users && b in users && a != b ==> users[a].email != users[b].email
  }

  /** Some row other than the one with `u`'s id already holds `u`'s address. */
  predicate EmailTaken(users: map<Id, Usuario>, u: Usuario) {
    exists id :: id in users && id != u.id && users[id].email == u.email
  }

  class Repository {
    var users: map<Id, Usuario>

    ghost predicate Valid()
      reads this
    {
      Keyed(users) && UniqueEmails(users)
    }

    constructor ()
      ensures Valid() && users == map[]
    {
      users := map[];
    }

    /** `AddAsync`: a null user is refused; a repeated key or a repeated address is refused by the database. */
    method Add(usuario: Option<Usuario>) returns (r: Outcome<()>)
      requires Valid()
      modifies this
      ensures Valid()
      ensures usuario.None? ==> r == Err(NullArgument("usuario")) && users == old(users)
      ensures usuario.Some? && (usuario.value.id in old(users) || EmailTaken(old(users), usuario.value)) ==>
        r == Err(SaveRefused) && users == old(users)
      ensures usuario.Some? && usuario.value.id !in old(users) && !EmailTaken(old(users), usuario.value) ==>
        r == Ok(()) && users == old(users)[usuario.value.id := usuario.value]
    {
      if usuario.None? {
        return Err(NullArgument("usuario"));
      }
      if usuario.value.id in users || EmailTaken(users, usuario.value) {
        return Err(SaveRefused);
      }
      users := users[usuario.value.id := usuario.value];
      r := Ok(());
    }

    /**
     * `UpdateAsync`: overwrites the stored row with the user's id; an address held by another row is
     * refused by the database. A row that keeps its own address is always written.
     */
    method Update(usuario: Option<Usuario>) returns (r: Outcome<()>)
      requires Valid()
      modifies this
      ensures Valid()
      ensures usuario.None? ==> r == Err(NullArgument("usuario")) && users == old(users)
      ensures usuario.Some? && usuario.value.id !in old(users) ==> r == Err(RowMissing) && users == old(users)
      ensures usuario.Some? && usuario.value.id in old(users) && EmailTaken(old(users), usuario.value) ==>
        r == Err(SaveRefused) && users == old(users)
      ensures usuario.Some? && usuario.value.id in old(users) && !EmailTaken(old(users), usuario.value) ==>
        r == Ok(()) && users == old(users)[usuario.value.id := usuario.value]
      ensures usuario.Some? && usuario.value.id in old(users) && usuario.value.email == old(users)[usuario.value.id].email ==>
        r == Ok(()) && users == old(users)[usuario.value.id := usuario.value]
    {
      if usuario.None? {
        return Err(NullArgument("usuario"));
      }
      if usuario.value.id !in users {
        return Err(RowMissing);
      }
      if EmailTaken(users, usuario.value) {
        return Err(SaveRefused);
      }
      users := users[usuario.value.id := usuario.value];
      r := Ok(());
    }
  }

  /** `GetByIdAsync`: the user with that id, or null. */
  function GetById(users: map<Id, Usuario>, id: Id): (r: Option<Usuario>)
    requires Keyed(users)
    ensures r.None? <==> id !in users
    ensures r.Some? ==> r.value.id == id && r.value == users[id]
  {
    if id in users then Some(users[id]) else None
  }

  /** `user?.Nombre ?? fallback`: the stored user's name, or the fallback when there is no such user. */
  function NameOr(users: map<Id, Usuario>, id: Id, fallback: string): string {
    if id in users then users[id].nombre else fallback
  }
}
