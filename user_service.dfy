/**
 * The user service: lookup, profile edit (name and photo), role change and activation. Every write
 * loads the stored user, changes the named fields and writes the row back.
 */
module UserService {
  import opened Wrappers
  import opened Domain
  import Text
  import UserRepository

  datatype UserDto = UserDto(id: Id, nombre: string, email: string, rol: Rol, fotoPerfilUrl: Option<string>)

  /** The profile form: a name that may be null and whether a photo file was sent. */
  datatype UpdateUserProfileDto = UpdateUserProfileDto(nombre: Option<string>, fotoPerfil: bool)

  function UserIdNotFound(userId: Id): Failure {
    Failure(KeyNotFound, "Usuario con id '" + IdText(userId) + "' no encontrado.")
  }

  /** `MapToDto`: the user's public fields. */
  function MapToDto(u: Usuario): UserDto {
    UserDto(u.id, u.nombre, u.email, u.rol, u.fotoPerfilUrl)
  }

  /** `GetByIdAsync`: the stored user's public fields, or null for an unknown id. */
  function GetById(users: map<Id, Usuario>, userId: Id): (r: Option<UserDto>)
    requires UserRepository.Keyed(users)
    ensures r.None? <==> userId !in users
    ensures r.Some? ==> r.value == MapToDto(users[userId]) && r.value.id == userId
  {
    match UserRepository.GetById(users, userId)
    case None => None
    case Some(u) => Some(MapToDto(u))
  }

  /**
   * The user after the profile edit: a null name keeps the old one; the photo URL changes only when a
   * file was sent and the store answered with a non-blank URL. `uploadedUrl` is that answer.
   */
  function EditProfile(u: Usuario, dto: UpdateUserProfileDto, uploadedUrl: Option<string>): (r: Usuario)
    ensures r.nombre == (if dto.nombre.Some? then dto.nombre.value else u.nombre)
    ensures dto.fotoPerfil && !Text.IsNullOrWhiteSpace(uploadedUrl) ==> r.fotoPerfilUrl == uploadedUrl
    ensures !(dto.fotoPerfil && !Text.IsNullOrWhiteSpace(uploadedUrl)) ==> r.fotoPerfilUrl == u.fotoPerfilUrl
    ensures r.id == u.id && r.email == u.email && r.rol == u.rol && r.areaId == u.areaId && r.activo == u.activo
  {
    var named := u.(nombre := if dto.nombre.Some? then dto.nombre.value else u.nombre);
    if dto.fotoPerfil && !Text.IsNullOrWhiteSpace(uploadedUrl) then named.(fotoPerfilUrl := uploadedUrl) else named
  }

  /** Sending the same profile form twice leaves the user as sending it once. */
  lemma EditProfileIdempotent(u: Usuario, dto: UpdateUserProfileDto, uploadedUrl: Option<string>)
    ensures EditProfile(EditProfile(u, dto, uploadedUrl), dto, uploadedUrl) == EditProfile(u, dto, uploadedUrl)
  {
  }

  /** An empty form (no name, no photo) changes nothing. */
  lemma EmptyProfileKeepsUser(u: Usuario, uploadedUrl: Option<string>)
    ensures EditProfile(u, UpdateUserProfileDto(None, false), uploadedUrl) == u
  {
  }

  class Service {
    const users: UserRepository.Repository

    ghost predicate Valid()
      reads users
    {
      users.Valid()
    }

    constructor (users: UserRepository.Repository)
      ensures this.users == users
    {
      this.users := users;
    }

    /** `UpdateProfileAsync`: a null form is refused first, then an unknown user. */
    method UpdateProfile(userId: Id, dto: Option<UpdateUserProfileDto>, uploadedUrl: Option<string>)
      returns (r: Outcome<UserDto>)
      requires Valid()
      modifies users
      ensures Valid()
      ensures dto.None? ==> r == Err(NullArgument("dto")) && users.users == old(users.users)
      ensures dto.Some? && userId !in old(users.users) ==>
        r == Err(UserIdNotFound(userId)) && users.users == old(users.users)
      ensures dto.Some? && userId in old(users.users) ==>
        var edited := EditProfile(old(users.users)[userId], dto.value, uploadedUrl);
        r == Ok(MapToDto(edited)) && users.users == old(users.users)[userId := edited]
    {
      if dto.None? {
        return Err(NullArgument("dto"));
      }
      var usuario := UserRepository.GetById(users.users, userId);
      if usuario.None? {
        return Err(UserIdNotFound(userId));
      }
      var u := usuario.value;
      u := u.(nombre := if dto.value.nombre.Some? then dto.value.nombre.value else u.nombre);
      if dto.value.fotoPerfil {
        if !Text.IsNullOrWhiteSpace(uploadedUrl) {
          u := u.(fotoPerfilUrl := uploadedUrl);
        }
      }
      var _ := users.Update(Some(u));
      r := Ok(MapToDto(u));
    }

    /** `ChangeRoleAsync`: only the role changes; the user keeps its area link whatever the new role. */
    method ChangeRole(userId: Id, newRole: Rol) returns (r: Outcome<UserDto>)
      requires Valid()
      modifies users
      ensures Valid()
      ensures userId !in old(users.users) ==> r == Err(UserIdNotFound(userId)) && users.users == old(users.users)
      ensures userId in old(users.users) ==>
        users.users == old(users.users)[userId := old(users.users)[userId].(rol := newRole)]
        && users.users[userId].areaId == old(users.users)[userId].areaId
        && r == Ok(MapToDto(users.users[userId]))
    {
      var usuario := UserRepository.GetById(users.users, userId);
      if usuario.None? {
        return Err(UserIdNotFound(userId));
      }
      var u := usuario.value.(rol := newRole);
      var _ := users.Update(Some(u));
      r := Ok(MapToDto(u));
    }

    /** `ActivateAsync` (`activo` true) and `DeactivateAsync` (`activo` false): only the flag changes. */
    method SetActive(userId: Id, activo: bool) returns (r: Outcome<()>)
      requires Valid()
      modifies users
      ensures Valid()
      ensures userId !in old(users.users) ==> r == Err(UserIdNotFound(userId)) && users.users == old(users.users)
      ensures userId in old(users.users) ==>
        r == Ok(()) && users.users == old(users.users)[userId := old(users.users)[userId].(activo := activo)]
    {
      var usuario := UserRepository.GetById(users.users, userId);
      if usuario.None? {
        return Err(UserIdNotFound(userId));
      }
      var _ := users.Update(Some(usuario.value.(activo := activo)));
      r := Ok(());
    }
  }
}
