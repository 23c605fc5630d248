/**
 * The ORM models of the backend and the database session they live in.
 *
 * Each table is a map from primary key to row with an autoincrement counter.
 * The session keeps the rows it has staged (added, changed or deleted in this
 * request, visible to its own queries) apart from the committed rows; a
 * commit publishes the staged rows if the database accepts them, a rollback
 * discards them.
 */
module Modelos {
  import opened Wrappers
  import opened Security

  datatype Rol = Rol(nombre: Option<string>)

  /** A user; the password is stored only as a hash. */
  datatype Usuario = Usuario(
    nombre: Option<string>,
    direccion: Option<string>,
    telefono: Option<string>,
    contrasenaHash: Option<PasswordHash>,
    rolId: Option<int>)

  datatype TipoServicio = TipoServicio(
    suministroEmergencia: Option<string>,
    controlRoedores: Option<string>,
    lavadoTanques: Option<string>,
    capacitacionSst: Option<string>,
    descripcion: Option<string>,
    ordenServicioId: Option<int>)

  datatype OrdenServicio = OrdenServicio(
    fecha: Option<string>,
    hora: Option<string>,
    precaucion: Option<string>,
    usuarioId: Option<int>,
    tipoServicioId: Option<int>)

  datatype DetalleServicio = DetalleServicio(
    precio: Option<int>,
    nombreOperario: Option<string>,
    cantidadProducto: Option<string>,
    finServicio: Option<string>,
    ordenServicioId: Option<int>)

  datatype Certificado = Certificado(
    fecha: Option<string>,
    estado: Option<string>,
    usuarioId: Option<int>,
    ordenServicioId: Option<int>)

  datatype FichaTecnica = FichaTecnica(
    productoAplicado: Option<string>,
    dosis: Option<string>,
    ingredienteActivo: Option<string>,
    certificadoId: Option<int>,
    detalleServicioId: Option<int>)

  /** One table: rows by primary key, and the key autoincrement hands out next. */
  datatype Table<T> = Table(rows: map<nat, T>, next: nat) {

    ghost predicate Valid() {
      forall id :: id in rows ==> id < next
    }

    /** `Model.query.get(id)` finds a row. */
    predicate Has(id: int) {
      id >= 0 && id as nat in rows
    }

    /** Stages a new row under a fresh key; every other row is kept. */
    function Insert(row: T): (r: Table<T>)
      requires Valid()
      ensures r.Valid()
      ensures next !in rows && r.rows.Keys == rows.Keys + {next}
      ensures r.rows[next] == row
      ensures forall id :: id in rows ==> r.rows[id] == rows[id]
      ensures r.next == next + 1
    {
      Table(rows[next := row], next + 1)
    }

    /**
     * `Model.query.filter_by(...).first()`: the row of lowest key that
     * satisfies `p`.
     */
    function FindFirst(p: T -> bool): (r: Option<nat>)
      requires Valid()
      ensures r.Some? ==> r.value in rows && p(rows[r.value])
      ensures r.Some? ==> forall id :: id in rows && id < r.value ==> !p(rows[id])
      ensures r.None? ==> forall id :: id in rows ==> !p(rows[id])
    {
      FindFrom(p, 0)
    }

    function FindFrom(p: T -> bool, lo: nat): (r: Option<nat>)
      requires Valid()
      ensures r.Some? ==> lo <= r.value && r.value in rows && p(rows[r.value])
      ensures r.Some? ==> forall id :: id in rows && lo <= id < r.value ==> !p(rows[id])
      ensures r.None? ==> forall id :: id in rows && lo <= id ==> !p(rows[id])
      decreases if lo <= next then next - lo else 0
    {
      if lo >= next then None
      else if lo in rows && p(rows[lo]) then Some(lo)
      else FindFrom(p, lo + 1)
    }
  }

  /** `query.get(fk)` on a nullable column finds a row. */
  predicate Resolves<T>(fk: Option<int>, t: Table<T>) {
    fk.Some? && t.Has(fk.value)
  }

  /** A nullable foreign key is NULL or names an existing row. */
  predicate RefOk<T>(fk: Option<int>, t: Table<T>) {
    fk.None? || t.Has(fk.value)
  }

  datatype Tables = Tables(
    roles: Table<Rol>,
    usuarios: Table<Usuario>,
    tipos: Table<TipoServicio>,
    ordenes: Table<OrdenServicio>,
    detalles: Table<DetalleServicio>,
    certificados: Table<Certificado>,
    fichas: Table<FichaTecnica>)
  {
    ghost predicate Valid() {
      roles.Valid() && usuarios.Valid() && tipos.Valid() && ordenes.Valid()
      && detalles.Valid() && certificados.Valid() && fichas.Valid()
    }
  }

  /** A fresh schema: every table empty, autoincrement starting at 1. */
  const EmptyTables := Tables(Table(map[], 1), Table(map[], 1), Table(map[], 1), Table(map[], 1),
                              Table(map[], 1), Table(map[], 1), Table(map[], 1))

  /** The columns declared `nullable=False` hold a value. */
  predicate NonNull(t: Tables) {
    && (forall id | id in t.ordenes.rows :: t.ordenes.rows[id].tipoServicioId.Some?)
    && (forall id | id in t.detalles.rows :: t.detalles.rows[id].ordenServicioId.Some?)
    && (forall id | id in t.certificados.rows ::
          t.certificados.rows[id].usuarioId.Some? && t.certificados.rows[id].ordenServicioId.Some?)
    && (forall id | id in t.fichas.rows ::
          t.fichas.rows[id].certificadoId.Some? && t.fichas.rows[id].productoAplicado.Some?)
  }

  /** Every foreign-key column is NULL or names an existing row. */
  predicate ForeignKeys(t: Tables) {
    && (forall id | id in t.usuarios.rows :: RefOk(t.usuarios.rows[id].rolId, t.roles))
    && (forall id | id in t.tipos.rows :: RefOk(t.tipos.rows[id].ordenServicioId, t.ordenes))
    && (forall id | id in t.ordenes.rows ::
          RefOk(t.ordenes.rows[id].usuarioId, t.usuarios) && RefOk(t.ordenes.rows[id].tipoServicioId, t.tipos))
    && (forall id | id in t.detalles.rows :: RefOk(t.detalles.rows[id].ordenServicioId, t.ordenes))
    && (forall id | id in t.certificados.rows ::
          RefOk(t.certificados.rows[id].usuarioId, t.usuarios)
          && RefOk(t.certificados.rows[id].ordenServicioId, t.ordenes))
    && (forall id | id in t.fichas.rows ::
          RefOk(t.fichas.rows[id].certificadoId, t.certificados)
          && RefOk(t.fichas.rows[id].detalleServicioId, t.detalles))
  }

  /** What the database checks before it accepts a commit. */
  predicate Integrity(t: Tables) {
    NonNull(t) && ForeignKeys(t)
  }

  /** The request-scoped database session (`db.session`) and the database behind it. */
  class Session {
    var committed: Tables
    var staged: Tables

    ghost predicate Valid()
      reads this
    {
      committed.Valid() && staged.Valid() && Integrity(committed)
    }

    /** Nothing is pending: the state every request starts in. */
    predicate Clean()
      reads this
    {
      staged == committed
    }

    constructor ()
      ensures Valid() && Clean() && committed == EmptyTables
    {
      committed := EmptyTables;
      staged := EmptyTables;
    }

    /**
     * `db.session.commit()`: the staged rows become the committed rows when
     * they satisfy the database's constraints; otherwise the database raises
     * IntegrityError and nothing is published.
     */
    method Commit() returns (ok: bool)
      requires Valid()
      modifies this
      ensures Valid()
      ensures ok <==> Integrity(old(staged))
      ensures committed == (if ok then old(staged) else old(committed))
      ensures staged == old(staged)
    {
      ok := Integrity(staged);
      if ok {
        committed := staged;
      }
    }

    /**
     * `db.session.rollback()`, and the session removal that ends every
     * request: what was staged is discarded.
     */
    method Rollback()
      requires Valid()
      modifies this
      ensures Valid() && Clean()
      ensures committed == old(committed)
    {
      staged := committed;
    }
  }

  /** Reading `Usuario.contrasena` raises: the password is not readable. */
  function ContrasenaGetter(u: Usuario): (r: Result<string>)
    ensures r.Raised? && r.error == AttributeError
  {
    Raised(AttributeError)
  }

  /**
   * Assigning `Usuario.contrasena`: only the hash of the new password is
   * stored, and no other column changes.
   */
  function SetContrasena(u: Usuario, password: string, salt: nat): (r: Usuario)
    ensures r.contrasenaHash == Some(GeneratePasswordHash(password, salt))
    ensures r.(contrasenaHash := u.contrasenaHash) == u
  {
    u.(contrasenaHash := Some(GeneratePasswordHash(password, salt)))
  }

  /**
   * `Usuario.verificar_contrasena`: werkzeug raises when the stored hash or
   * the supplied password is None.
   */
  function VerificarContrasena(u: Usuario, password: Option<string>): (r: Result<bool>)
    ensures r.Raised? <==> u.contrasenaHash.None? || password.None?
  {
    if u.contrasenaHash.None? || password.None? then Raised(AttributeError)
    else Returned(CheckPasswordHash(u.contrasenaHash.value, password.value))
  }

  /** After `u.contrasena = p`, exactly `p` verifies. */
  lemma VerificarAfterSet(u: Usuario, password: string, attempt: string, salt: nat)
    ensures VerificarContrasena(SetContrasena(u, password, salt), Some(attempt)) == Returned(attempt == password)
  {
    CheckGeneratedHash(password, attempt, salt);
  }

  /**
   * `Usuario.get_rol_nombre`: the name of the user's role; reading the name
   * of a missing role raises AttributeError.
   */
  function GetRolNombre(u: Usuario, roles: Table<Rol>): (r: Result<Option<string>>)
    ensures r.Returned? <==> Resolves(u.rolId, roles)
    ensures r.Returned? ==> r.value == roles.rows[u.rolId.value as nat].nombre
  {
    if Resolves(u.rolId, roles) then Returned(roles.rows[u.rolId.value as nat].nombre)
    else Raised(AttributeError)
  }

  const AdminRolNombre := "Admin"
  const SuperusuarioNombre := "superAdministrador"

  predicate IsAdminRol(r: Rol) {
    r.nombre == Some(AdminRolNombre)
  }

  predicate IsSuperusuario(u: Usuario) {
    u.nombre == Some(SuperusuarioNombre)
  }

  /** The built-in account `crear_superusuario` creates. */
  function Superusuario(rolId: nat, salt: nat): Usuario {
    SetContrasena(Usuario(Some(SuperusuarioNombre), Some("sena complejo sur"), Some("123456789"), None, Some(rolId)),
                  "cmc123456", salt)
  }

  /** Inserting a role keeps every constraint. */
  lemma IntegrityInsertRol(t: Tables, r: Rol)
    requires t.Valid() && Integrity(t)
    ensures Integrity(t.(roles := t.roles.Insert(r)))
  {
  }

  /** Inserting a user whose role exists keeps every constraint. */
  lemma IntegrityInsertUsuario(t: Tables, u: Usuario)
    requires t.Valid() && Integrity(t) && RefOk(u.rolId, t.roles)
    ensures Integrity(t.(usuarios := t.usuarios.Insert(u)))
  {
    var t' := t.(usuarios := t.usuarios.Insert(u));
    assert forall id :: id in t.usuarios.rows ==> t'.usuarios.Has(id);
  }

  /**
   * `crear_superusuario`, run at start-up: creates the "Admin" role unless
   * one exists, then the "superAdministrador" account with that role unless
   * an account of that name exists; each creation is committed on its own.
   */
  method CrearSuperusuario(db: Session, salt: nat)
    requires db.Valid() && db.Clean()
    modifies db
    ensures db.Valid() && db.Clean()
    ensures db.committed.roles.FindFirst(IsAdminRol).Some?
    ensures db.committed.usuarios.FindFirst(IsSuperusuario).Some?
    ensures db.committed.(roles := old(db.committed.roles), usuarios := old(db.committed.usuarios)) == old(db.committed)
    ensures old(db.committed.roles.FindFirst(IsAdminRol)).Some? ==> db.committed.roles == old(db.committed.roles)
    ensures old(db.committed.roles.FindFirst(IsAdminRol)).None? ==>
              db.committed.roles.rows == old(db.committed.roles.rows)[old(db.committed.roles.next) := Rol(Some(AdminRolNombre))]
              && old(db.committed.roles.next) !in old(db.committed.roles.rows)
    ensures old(db.committed.usuarios.FindFirst(IsSuperusuario)).Some? ==> db.committed.usuarios == old(db.committed.usuarios)
    ensures old(db.committed.usuarios.FindFirst(IsSuperusuario)).None? ==>
              var id := old(db.committed.usuarios.next);
              id !in old(db.committed.usuarios.rows)
              && db.committed.usuarios.rows
                 == old(db.committed.usuarios.rows)[id := Superusuario(db.committed.roles.FindFirst(IsAdminRol).value, salt)]
    ensures old(db.committed.roles.FindFirst(IsAdminRol)).Some? && old(db.committed.usuarios.FindFirst(IsSuperusuario)).Some? ==>
              db.committed == old(db.committed)
  {
    var rolId := db.staged.roles.FindFirst(IsAdminRol);
    if rolId.None? {
      IntegrityInsertRol(db.staged, Rol(Some(AdminRolNombre)));
      db.staged := db.staged.(roles := db.staged.roles.Insert(Rol(Some(AdminRolNombre))));
      var ok := db.Commit();
      rolId := db.staged.roles.FindFirst(IsAdminRol);
    }
    if db.staged.usuarios.FindFirst(IsSuperusuario).None? {
      var u := Superusuario(rolId.value, salt);
      IntegrityInsertUsuario(db.staged, u);
      db.staged := db.staged.(usuarios := db.staged.usuarios.Insert(u));
      var ok := db.Commit();
      assert db.staged.usuarios.rows[old(db.committed.usuarios.next)] == u;
    }
  }
}
