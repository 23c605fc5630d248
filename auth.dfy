/**
 * The open authentication endpoints: self-registration, which resolves the
 * role by its name, and login, which checks the password and issues an
 * access token whose identity is the user's key.
 */
module Auth {
  import opened Wrappers
  import opened Strings
  import opened Security
  import opened Modelos
  import opened Peticiones

  /** `Rol.query.filter_by(nombre=nombre).first()`; a null name matches a role whose name is NULL. */
  function FindRol(roles: Table<Rol>, nombre: Option<string>): (r: Option<nat>)
    requires roles.Valid()
    ensures r.Some? ==> r.value in roles.rows && roles.rows[r.value].nombre == nombre
    ensures r.None? <==> forall id :: id in roles.rows ==> roles.rows[id].nombre != nombre
  {
    roles.FindFirst((x: Rol) => x.nombre == nombre)
  }

  /** `Usuario.query.filter_by(nombre=nombre).first()`. */
  function FindUsuario(users: Table<Usuario>, nombre: Option<string>): (r: Option<nat>)
    requires users.Valid()
    ensures r.Some? ==> r.value in users.rows && users.rows[r.value].nombre == nombre
    ensures r.Some? ==> forall id :: id in users.rows && id < r.value ==> users.rows[id].nombre != nombre
    ensures r.None? <==> forall id :: id in users.rows ==> users.rows[id].nombre != nombre
  {
    users.FindFirst((x: Usuario) => x.nombre == nombre)
  }

  /**
   * `registro` answers 400: a key is missing (each `data[...]` raising
   * KeyError) or no role has the given name.
   */
  predicate RegistroRefused(data: RegistroBody, roles: Table<Rol>)
    requires roles.Valid()
  {
    data.rol.Absent? || FindRol(roles, Column(data.rol)).None?
    || data.nombre.Absent? || data.direccion.Absent? || data.telefono.Absent? || data.contrasena.Absent?
  }

  /** The account a registration creates; only the hash of the password is kept. */
  function NuevoUsuario(nombre: Json<string>, direccion: Json<string>, telefono: Json<string>,
                        contrasena: string, rolId: nat, salt: nat): (u: Usuario)
    ensures u.contrasenaHash == Some(GeneratePasswordHash(contrasena, salt))
    ensures VerificarContrasena(u, Some(contrasena)) == Returned(true)
  {
    CheckGeneratedHash(contrasena, contrasena, salt);
    Usuario(Column(nombre), Column(direccion), Column(telefono), Some(GeneratePasswordHash(contrasena, salt)), Some(rolId))
  }

  /** `db.session.add(u)` then `db.session.commit()` for a user whose role exists. */
  method AddUsuario(db: Session, u: Usuario) returns (id: nat)
    requires db.Valid() && db.Clean() && RefOk(u.rolId, db.staged.roles)
    modifies db
    ensures db.Valid() && db.Clean()
    ensures id == old(db.committed.usuarios.next) && id !in old(db.committed.usuarios.rows)
    ensures db.committed == old(db.committed).(usuarios := old(db.committed.usuarios).Insert(u))
  {
    IntegrityInsertUsuario(db.staged, u);
    id := db.staged.usuarios.next;
    db.staged := db.staged.(usuarios := db.staged.usuarios.Insert(u));
    var ok := db.Commit();
  }

  /**
   * `POST /registro` (auth blueprint): finds the role by name and inserts
   * exactly one user with that role and the hash of the password.
   */
  method Registro(db: Session, data: RegistroBody, salt: nat) returns (status: int)
    requires db.Valid() && db.Clean()
    modifies db
    ensures db.Valid() && db.Clean()
    ensures status == 201 || status == 400 || status == 500
    ensures status == 400 <==> RegistroRefused(data, old(db.committed.roles))
    ensures status == 500 <==> !RegistroRefused(data, old(db.committed.roles)) && data.contrasena.Null?
    ensures status != 201 ==> db.committed == old(db.committed)
    ensures status == 201 ==>
              var rolId := FindRol(old(db.committed.roles), Column(data.rol)).value;
              var u := NuevoUsuario(data.nombre, data.direccion, data.telefono, data.contrasena.value, rolId, salt);
              && db.committed == old(db.committed).(usuarios := old(db.committed.usuarios).Insert(u))
              && old(db.committed.roles).rows[rolId].nombre == Column(data.rol)
              && VerificarContrasena(db.committed.usuarios.rows[old(db.committed.usuarios.next)], Some(data.contrasena.value))
                 == Returned(true)
  {
    if data.rol.Absent? {
      return 400;
    }
    var rolId := FindRol(db.staged.roles, Column(data.rol));
    if rolId.None? {
      return 400;
    }
    if data.nombre.Absent? || data.direccion.Absent? || data.telefono.Absent? || data.contrasena.Absent? {
      return 400;
    }
    if data.contrasena.Null? {
      // `generate_password_hash(None)` raises TypeError.
      db.Rollback();
      return 500;
    }
    var u := NuevoUsuario(data.nombre, data.direccion, data.telefono, data.contrasena.value, rolId.value, salt);
    var id := AddUsuario(db, u);
    status := 201;
  }

  /** The JSON a successful login answers with, besides the token. */
  datatype LoginResponse = LoginResponse(rol: Option<string>, nombre: Option<string>, usuarioId: string)

  /** Both keys are there and the first user of that name exists and accepts the password. */
  predicate Authenticates(data: LoginBody, users: Table<Usuario>)
    requires users.Valid()
  {
    && !data.nombre.Absent? && !data.contrasena.Absent?
    && var id := FindUsuario(users, Column(data.nombre));
       id.Some? && VerificarContrasena(users.rows[id.value], Column(data.contrasena)) == Returned(true)
  }

  /**
   * `POST /login`: looks up the first user of the given name and checks the
   * password; on success issues a token whose identity is the user's key as
   * a numeral and whose `rol` claim is the role's name. It changes nothing.
   */
  method Login(db: Session, data: LoginBody) returns (status: int, token: Option<Claims>, respuesta: Option<LoginResponse>)
    requires db.Valid()
    ensures status == 200 || status == 400 || status == 401 || status == 500
    ensures status == 400 <==> data.nombre.Absent? || data.contrasena.Absent?
    ensures status == 401 <==>
              && !data.nombre.Absent? && !data.contrasena.Absent?
              && var id := FindUsuario(db.staged.usuarios, Column(data.nombre));
                 id.None? || VerificarContrasena(db.staged.usuarios.rows[id.value], Column(data.contrasena)) == Returned(false)
    ensures status == 200 <==>
              Authenticates(data, db.staged.usuarios)
              && Resolves(db.staged.usuarios.rows[FindUsuario(db.staged.usuarios, Column(data.nombre)).value].rolId,
                          db.staged.roles)
    ensures status != 200 ==> token == None && respuesta == None
    ensures status == 200 ==>
              var id := FindUsuario(db.staged.usuarios, Column(data.nombre)).value;
              var u := db.staged.usuarios.rows[id];
              var rol := db.staged.roles.rows[u.rolId.value as nat].nombre;
              && token == Some(CreateAccessToken(NatToString(id), rol))
              && ParseNat(token.value.identity) == Some(id)
              && respuesta == Some(LoginResponse(rol, u.nombre, NatToString(id)))
  {
    token, respuesta := None, None;
    if data.nombre.Absent? || data.contrasena.Absent? {
      return 400, token, respuesta;
    }
    var id := FindUsuario(db.staged.usuarios, Column(data.nombre));
    if id.None? {
      return 401, token, respuesta;
    }
    var u := db.staged.usuarios.rows[id.value];
    var ok := VerificarContrasena(u, Column(data.contrasena));
    if ok.Raised? {
      // `check_password_hash` raises on a NULL hash or a null password.
      return 500, token, respuesta;
    }
    if !ok.value {
      return 401, token, respuesta;
    }
    var rol := GetRolNombre(u, db.staged.roles);
    if rol.Raised? {
      return 500, token, respuesta;
    }
    ParseNatToString(id.value);
    var identity := NatToString(id.value);
    token := Some(CreateAccessToken(identity, rol.value));
    respuesta := Some(LoginResponse(rol.value, u.nombre, identity));
    status := 200;
  }

  /**
   * A user registered under a name no one else has is the one a login with
   * that name finds, and the password registered is accepted.
   */
  lemma RegisteredUserFound(users: Table<Usuario>, u: Usuario, password: string, salt: nat)
    requires users.Valid() && FindUsuario(users, u.nombre).None?
    requires u.contrasenaHash == Some(GeneratePasswordHash(password, salt))
    ensures FindUsuario(users.Insert(u), u.nombre) == Some(users.next)
    ensures VerificarContrasena(users.Insert(u).rows[users.next], Some(password)) == Returned(true)
  {
    var r := FindUsuario(users.Insert(u), u.nombre);
    assert users.Insert(u).rows[users.next].nombre == u.nombre;
    CheckGeneratedHash(password, password, salt);
  }
}
