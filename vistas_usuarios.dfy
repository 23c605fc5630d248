/**
 * The user endpoints: the administrator gate, user administration
 * (registration by an administrator, listing, reading, editing, deleting)
 * and the authenticated user's own profile and password.
 */
module VistasUsuarios {
  import opened Wrappers
  import opened Strings
  import opened Security
  import opened Modelos
  import opened Peticiones
  import Auth

  // ---------------------------------------------------------------------
  // The administrator gate

  /** The outcome of the gate in front of a handler: go on, or answer with `status`. */
  datatype Gate = Granted | Refused(status: int)

  const AdminRole := "admin"

  /**
   * `admin_required`: no token is 401; a token is let through when its `rol`
   * claim, lower-cased, is "admin". A missing claim reads as '' (403); a null
   * claim makes `.lower()` raise (500).
   */
  function AdminGate(claims: Option<Claims>): (g: Gate)
    ensures g.Refused? ==> g.status == 401 || g.status == 403 || g.status == 500
    ensures g == Refused(401) <==> claims.None?
    ensures claims.Some? && claims.value.rol.Absent? ==> g == Refused(403)
  {
    if claims.None? then Refused(401)
    else match claims.value.rol
      case Absent => Refused(403)
      case Null => Refused(500)
      case Present(rol) => if Lower(rol) == AdminRole then Granted else Refused(403)
  }

  /** The gate opens exactly for a `rol` claim that spells "admin" in any mix of cases. */
  lemma AdminGateIff(claims: Option<Claims>)
    ensures AdminGate(claims).Granted? <==>
              && claims.Some? && claims.value.rol.Present?
              && |claims.value.rol.value| == |AdminRole|
              && forall i :: 0 <= i < |AdminRole| ==> SpellsLetter(claims.value.rol.value[i], AdminRole[i])
  {
    if claims.Some? && claims.value.rol.Present? {
      LowerEqualsIff(claims.value.rol.value, AdminRole);
    }
  }

  /** The token of a user whose role is the bootstrap "Admin" role opens the gate. */
  lemma AdminRolTokenGranted(identity: string)
    ensures AdminGate(Some(CreateAccessToken(identity, Some(AdminRolNombre)))).Granted?
  {
    var rol := AdminRolNombre;
    AdminGateIff(Some(CreateAccessToken(identity, Some(rol))));
    assert rol[0] == UpperChar(AdminRole[0]);
  }

  // ---------------------------------------------------------------------
  // What the endpoints show of a user

  /** The JSON object a user is shown as: no password and no hash. */
  datatype UsuarioView = UsuarioView(id: nat, nombre: Option<string>, direccion: Option<string>,
                                     telefono: Option<string>, rolId: Option<int>)

  function View(id: nat, u: Usuario): UsuarioView {
    UsuarioView(id, u.nombre, u.direccion, u.telefono, u.rolId)
  }

  /** What is shown of a user does not depend on the password hash. */
  lemma ViewHidesHash(id: nat, u: Usuario, h: Option<PasswordHash>)
    ensures View(id, u.(contrasenaHash := h)) == View(id, u)
  {
  }

  /** The views of the users with keys in `[lo, hi)`, in key order. */
  function ListFrom(rows: map<nat, Usuario>, lo: nat, hi: nat): seq<UsuarioView>
    decreases hi - lo
  {
    if lo >= hi then []
    else if lo in rows then [View(lo, rows[lo])] + ListFrom(rows, lo + 1, hi)
    else ListFrom(rows, lo + 1, hi)
  }

  /** Each entry is the view of a user in range. */
  lemma {:induction false} ListFromEntries(rows: map<nat, Usuario>, lo: nat, hi: nat, k: nat)
    requires k < |ListFrom(rows, lo, hi)|
    ensures var e := ListFrom(rows, lo, hi)[k]; lo <= e.id < hi && e.id in rows && e == View(e.id, rows[e.id])
    decreases hi - lo
  {
    if lo < hi {
      if lo in rows {
        if k > 0 {
          ListFromEntries(rows, lo + 1, hi, k - 1);
        }
      } else {
        ListFromEntries(rows, lo + 1, hi, k);
      }
    }
  }

  /** The keys of the entries strictly increase. */
  lemma {:induction false} ListFromIncreasing(rows: map<nat, Usuario>, lo: nat, hi: nat, j: nat, k: nat)
    requires j < k < |ListFrom(rows, lo, hi)|
    ensures ListFrom(rows, lo, hi)[j].id < ListFrom(rows, lo, hi)[k].id
    decreases hi - lo
  {
    if lo < hi {
      if lo in rows {
        ListFromEntries(rows, lo + 1, hi, k - 1);
        if j > 0 {
          ListFromIncreasing(rows, lo + 1, hi, j - 1, k - 1);
        }
      } else {
        ListFromIncreasing(rows, lo + 1, hi, j, k);
      }
    }
  }

  /** Every user in range has an entry. */
  lemma {:induction false} ListFromComplete(rows: map<nat, Usuario>, lo: nat, hi: nat, id: nat)
    requires lo <= id < hi && id in rows
    ensures exists k :: 0 <= k < |ListFrom(rows, lo, hi)| && ListFrom(rows, lo, hi)[k].id == id
    decreases hi - lo
  {
    var r := ListFrom(rows, lo, hi);
    if id == lo {
      assert r[0].id == id;
    } else {
      ListFromComplete(rows, lo + 1, hi, id);
      var rest := ListFrom(rows, lo + 1, hi);
      var k :| 0 <= k < |rest| && rest[k].id == id;
      if lo in rows {
        assert r[k + 1].id == id;
      } else {
        assert r[k].id == id;
      }
    }
  }

  /**
   * The list `UsuariosResource.get` answers with: one view per user, in key
   * order, each showing that user's columns.
   */
  function ListUsuarios(users: Table<Usuario>): (r: seq<UsuarioView>)
    requires users.Valid()
    ensures forall k :: 0 <= k < |r| ==> r[k].id in users.rows && r[k] == View(r[k].id, users.rows[r[k].id])
    ensures forall j, k :: 0 <= j < k < |r| ==> r[j].id < r[k].id
    ensures forall id :: id in users.rows ==> exists k :: 0 <= k < |r| && r[k].id == id
  {
    var r := ListFrom(users.rows, 0, users.next);
    forall k | 0 <= k < |r| ensures r[k].id in users.rows && r[k] == View(r[k].id, users.rows[r[k].id]) {
      ListFromEntries(users.rows, 0, users.next, k);
    }
    forall j, k | 0 <= j < k < |r| ensures r[j].id < r[k].id {
      ListFromIncreasing(users.rows, 0, users.next, j, k);
    }
    forall id | id in users.rows ensures exists k :: 0 <= k < |r| && r[k].id == id {
      ListFromComplete(users.rows, 0, users.next, id);
    }
    r
  }

  // ---------------------------------------------------------------------
  // Administration

  /**
   * `POST /registro` (administrators): an unknown or missing `rol_id` and
   * any other missing key answer 400 with no insert; a null password 500;
   * otherwise one user is inserted and shown without its hash.
   */
  method RegistrarUsuario(db: Session, claims: Option<Claims>, data: RegistrarUsuarioBody, salt: nat)
    returns (status: int, view: Option<UsuarioView>)
    requires db.Valid() && db.Clean()
    modifies db
    ensures db.Valid() && db.Clean()
    ensures AdminGate(claims).Refused? ==> status == AdminGate(claims).status
    ensures AdminGate(claims).Granted? ==> status == 201 || status == 400 || status == 500
    ensures AdminGate(claims).Granted? ==>
              (status == 400 <==>
                 !Resolves(Column(data.rolId), old(db.committed.roles))
                 || data.nombre.Absent? || data.direccion.Absent? || data.telefono.Absent? || data.contrasena.Absent?)
    ensures AdminGate(claims).Granted? && status != 400 ==> (status == 201 <==> data.contrasena.Present?)
    ensures status != 201 ==> db.committed == old(db.committed) && view == None
    ensures status == 201 ==>
              && AdminGate(claims).Granted? && data.contrasena.Present?
              && var id := old(db.committed.usuarios.next);
                 var u := Auth.NuevoUsuario(data.nombre, data.direccion, data.telefono, data.contrasena.value,
                                            data.rolId.value as nat, salt);
                 && db.committed == old(db.committed).(usuarios := old(db.committed.usuarios).Insert(u))
                 && view == Some(View(id, u))
  {
    view := None;
    var gate := AdminGate(claims);
    if gate.Refused? {
      return gate.status, view;
    }
    if data.rolId.Absent? || !Resolves(Column(data.rolId), db.staged.roles) {
      return 400, view;
    }
    if data.nombre.Absent? || data.direccion.Absent? || data.telefono.Absent? || data.contrasena.Absent? {
      return 400, view;
    }
    if data.contrasena.Null? {
      db.Rollback();
      return 500, view;
    }
    var u := Auth.NuevoUsuario(data.nombre, data.direccion, data.telefono, data.contrasena.value,
                               data.rolId.value as nat, salt);
    var id := Auth.AddUsuario(db, u);
    view := Some(View(id, u));
    status := 201;
  }

  /** `GET /usuarios`: the administrators' list of every user. */
  method GetUsuarios(db: Session, claims: Option<Claims>) returns (status: int, lista: seq<UsuarioView>)
    requires db.Valid()
    ensures AdminGate(claims).Refused? ==> status == AdminGate(claims).status && lista == []
    ensures AdminGate(claims).Granted? ==> status == 200 && lista == ListUsuarios(db.staged.usuarios)
  {
    var gate := AdminGate(claims);
    if gate.Refused? {
      return gate.status, [];
    }
    return 200, ListUsuarios(db.staged.usuarios);
  }

  /** `GET /usuarios/<id>`. */
  method GetUsuario(db: Session, claims: Option<Claims>, id: nat) returns (status: int, view: Option<UsuarioView>)
    ensures AdminGate(claims).Refused? ==> status == AdminGate(claims).status && view == None
    ensures AdminGate(claims).Granted? ==> (status == 404 <==> id !in db.staged.usuarios.rows)
    ensures AdminGate(claims).Granted? && id in db.staged.usuarios.rows ==>
              status == 200 && view == Some(View(id, db.staged.usuarios.rows[id]))
    ensures status != 200 ==> view == None
  {
    var gate := AdminGate(claims);
    if gate.Refused? {
      return gate.status, None;
    }
    if id !in db.staged.usuarios.rows {
      return 404, None;
    }
    return 200, Some(View(id, db.staged.usuarios.rows[id]));
  }

  /** A user after a partial edit: each key given replaces its column, a null clears it. */
  function PatchUsuario(u: Usuario, p: UsuarioPatch): (r: Usuario)
    ensures r.contrasenaHash == u.contrasenaHash
    ensures p.nombre.Absent? ==> r.nombre == u.nombre
    ensures p.direccion.Absent? ==> r.direccion == u.direccion
    ensures p.telefono.Absent? ==> r.telefono == u.telefono
    ensures p.rolId.Absent? ==> r.rolId == u.rolId
  {
    Usuario(if p.nombre.Absent? then u.nombre else Column(p.nombre),
            if p.direccion.Absent? then u.direccion else Column(p.direccion),
            if p.telefono.Absent? then u.telefono else Column(p.telefono),
            u.contrasenaHash,
            if p.rolId.Absent? then u.rolId else Column(p.rolId))
  }

  /** Applying the same edit twice is applying it once. */
  lemma PatchUsuarioIdempotent(u: Usuario, p: UsuarioPatch)
    ensures PatchUsuario(PatchUsuario(u, p), p) == PatchUsuario(u, p)
  {
  }

  /** A user row replaced by one whose role exists keeps every constraint. */
  lemma IntegrityReplaceUsuario(t: Tables, id: nat, u: Usuario)
    requires t.Valid() && Integrity(t) && id in t.usuarios.rows && RefOk(u.rolId, t.roles)
    ensures var t' := t.(usuarios := Table(t.usuarios.rows[id := u], t.usuarios.next));
            t'.Valid() && Integrity(t')
  {
    var t' := t.(usuarios := Table(t.usuarios.rows[id := u], t.usuarios.next));
    assert forall x :: t.usuarios.Has(x) ==> t'.usuarios.Has(x);
  }

  /** The edit names a `rol_id` that does not exist: the database refuses the commit. */
  predicate UnknownRol(p: UsuarioPatch, roles: Table<Rol>) {
    p.rolId.Present? && !roles.Has(p.rolId.value)
  }

  /**
   * `PUT /usuarios/<id>`: applies the keys given among `nombre`,
   * `direccion`, `telefono` and `rol_id`; the hash is never touched. The
   * role is not checked by the handler: an unknown one fails the commit.
   */
  method PutUsuario(db: Session, claims: Option<Claims>, id: nat, p: UsuarioPatch)
    returns (status: int, view: Option<UsuarioView>)
    requires db.Valid() && db.Clean()
    modifies db
    ensures db.Valid() && db.Clean()
    ensures AdminGate(claims).Refused? ==> status == AdminGate(claims).status
    ensures AdminGate(claims).Granted? ==> status == 200 || status == 404 || status == 500
    ensures AdminGate(claims).Granted? ==> (status == 404 <==> id !in old(db.committed.usuarios.rows))
    ensures AdminGate(claims).Granted? && id in old(db.committed.usuarios.rows) ==>
              (status == 500 <==> UnknownRol(p, old(db.committed.roles)))
    ensures status != 200 ==> db.committed == old(db.committed) && view == None
    ensures status == 200 ==>
              && AdminGate(claims).Granted? && id in old(db.committed.usuarios.rows)
              && var u := PatchUsuario(old(db.committed.usuarios.rows[id]), p);
                 && db.committed == old(db.committed).(usuarios := Table(old(db.committed.usuarios.rows)[id := u],
                                                                         old(db.committed.usuarios.next)))
                 && view == Some(View(id, u))
  {
    view := None;
    var gate := AdminGate(claims);
    if gate.Refused? {
      return gate.status, view;
    }
    if id !in db.staged.usuarios.rows {
      return 404, view;
    }
    ghost var t := db.staged;
    var u := PatchUsuario(db.staged.usuarios.rows[id], p);
    db.staged := db.staged.(usuarios := Table(db.staged.usuarios.rows[id := u], db.staged.usuarios.next));
    if UnknownRol(p, db.staged.roles) {
      var ok := db.Commit();
      assert !ok by {
        var t' := db.staged;
        assert id in t'.usuarios.rows && !RefOk(t'.usuarios.rows[id].rolId, t'.roles);
      }
      db.Rollback();
      return 500, view;
    }
    IntegrityReplaceUsuario(t, id, u);
    var ok := db.Commit();
    return 200, Some(View(id, u));
  }

  /**
   * Table `t` with every row that `owner` says belongs to user `id` replaced
   * by `detach` of it (its user column set to NULL); the other rows unchanged.
   */
  function Nullify<T>(t: Table<T>, owner: T -> Option<int>, detach: T -> T, id: nat): (r: Table<T>)
    ensures r.next == t.next && r.rows.Keys == t.rows.Keys
    ensures forall k :: k in t.rows ==>
              r.rows[k] == if owner(t.rows[k]) == Some(id) then detach(t.rows[k]) else t.rows[k]
  {
    Table(map k | k in t.rows :: if owner(t.rows[k]) == Some(id) then detach(t.rows[k]) else t.rows[k], t.next)
  }

  /**
   * What deleting user `id` stages: the row goes, and the session sets the
   * user's orders and certificates to point at no user.
   */
  function RemoveUsuario(t: Tables, id: nat): (r: Tables)
    ensures r.usuarios.rows == t.usuarios.rows - {id}
    ensures r.(usuarios := t.usuarios, ordenes := t.ordenes, certificados := t.certificados) == t
  {
    t.(usuarios := Table(t.usuarios.rows - {id}, t.usuarios.next),
       ordenes := Nullify(t.ordenes, (o: OrdenServicio) => o.usuarioId, (o: OrdenServicio) => o.(usuarioId := None), id),
       certificados := Nullify(t.certificados, (c: Certificado) => c.usuarioId, (c: Certificado) => c.(usuarioId := None), id))
  }

  /** Some certificate belongs to user `id`. */
  predicate HasCertificados(t: Tables, id: nat) {
    exists k :: k in t.certificados.rows && t.certificados.rows[k].usuarioId == Some(id)
  }

  /**
   * The database accepts the deletion of a user exactly when no certificate
   * belongs to it: certificates may not lose their user.
   */
  lemma IntegrityRemoveUsuario(t: Tables, id: nat)
    requires t.Valid() && Integrity(t)
    ensures RemoveUsuario(t, id).Valid()
    ensures Integrity(RemoveUsuario(t, id)) <==> !HasCertificados(t, id)
  {
    var r := RemoveUsuario(t, id);
    if HasCertificados(t, id) {
      var k :| k in t.certificados.rows && t.certificados.rows[k].usuarioId == Some(id);
      assert r.certificados.rows[k].usuarioId.None?;
    } else {
      RemoveUsuarioNonNull(t, id);
      RemoveUsuarioForeignKeys(t, id);
    }
  }

  lemma RemoveUsuarioNonNull(t: Tables, id: nat)
    requires t.Valid() && NonNull(t) && !HasCertificados(t, id)
    ensures NonNull(RemoveUsuario(t, id))
  {
    var r := RemoveUsuario(t, id);
    assert forall k :: k in t.certificados.rows ==> r.certificados.rows[k] == t.certificados.rows[k];
  }

  /** The nullified references keep every foreign key valid, certificates or not. */
  lemma RemoveUsuarioForeignKeys(t: Tables, id: nat)
    requires t.Valid() && ForeignKeys(t)
    ensures ForeignKeys(RemoveUsuario(t, id))
  {
    var r := RemoveUsuario(t, id);
    forall k | k in r.ordenes.rows
      ensures RefOk(r.ordenes.rows[k].usuarioId, r.usuarios) && RefOk(r.ordenes.rows[k].tipoServicioId, r.tipos)
    {
      assert RefOk(t.ordenes.rows[k].usuarioId, t.usuarios);
    }
    forall k | k in r.certificados.rows
      ensures RefOk(r.certificados.rows[k].usuarioId, r.usuarios)
      ensures RefOk(r.certificados.rows[k].ordenServicioId, r.ordenes)
    {
      assert RefOk(t.certificados.rows[k].usuarioId, t.usuarios);
      assert RefOk(t.certificados.rows[k].ordenServicioId, t.ordenes);
    }
    forall k | k in r.tipos.rows ensures RefOk(r.tipos.rows[k].ordenServicioId, r.ordenes) {
      assert RefOk(t.tipos.rows[k].ordenServicioId, t.ordenes);
    }
    forall k | k in r.detalles.rows ensures RefOk(r.detalles.rows[k].ordenServicioId, r.ordenes) {
      assert RefOk(t.detalles.rows[k].ordenServicioId, t.ordenes);
    }
    forall k | k in r.fichas.rows ensures RefOk(r.fichas.rows[k].certificadoId, r.certificados) {
      assert RefOk(t.fichas.rows[k].certificadoId, t.certificados);
    }
  }

  /**
   * `DELETE /usuarios/<id>`: removes exactly that user; the commit fails
   * (500) when the user still has certificates.
   */
  method DeleteUsuario(db: Session, claims: Option<Claims>, id: nat) returns (status: int)
    requires db.Valid() && db.Clean()
    modifies db
    ensures db.Valid() && db.Clean()
    ensures AdminGate(claims).Refused? ==> status == AdminGate(claims).status
    ensures AdminGate(claims).Granted? ==> status == 200 || status == 404 || status == 500
    ensures AdminGate(claims).Granted? ==> (status == 404 <==> id !in old(db.committed.usuarios.rows))
    ensures AdminGate(claims).Granted? && id in old(db.committed.usuarios.rows) ==>
              (status == 500 <==> HasCertificados(old(db.committed), id))
    ensures status != 200 ==> db.committed == old(db.committed)
    ensures status == 200 ==>
              && AdminGate(claims).Granted? && id in old(db.committed.usuarios.rows)
              && db.committed == RemoveUsuario(old(db.committed), id)
  {
    var gate := AdminGate(claims);
    if gate.Refused? {
      return gate.status;
    }
    if id !in db.staged.usuarios.rows {
      return 404;
    }
    IntegrityRemoveUsuario(db.staged, id);
    db.staged := RemoveUsuario(db.staged, id);
    var ok := db.Commit();
    if !ok {
      db.Rollback();
      return 500;
    }
    status := 200;
  }

  // ---------------------------------------------------------------------
  // The authenticated user's own account

  /**
   * `Usuario.query.get(get_jwt_identity())`: the user whose key the token's
   * identity spells; none without a token or for an identity that is not a
   * numeral of an existing key.
   */
  function IdentityUser(claims: Option<Claims>, users: Table<Usuario>): (r: Option<nat>)
    ensures r.Some? ==> r.value in users.rows
    ensures r.Some? ==> claims.Some? && ParseNat(claims.value.identity) == Some(r.value)
  {
    if claims.None? then None
    else
      var n := ParseNat(claims.value.identity);
      if n.Some? && n.value in users.rows then n else None
  }

  /** The token a login issues for user `id` finds that user again. */
  lemma LoginIdentityFindsUser(users: Table<Usuario>, id: nat, rol: Option<string>)
    requires id in users.rows
    ensures IdentityUser(Some(CreateAccessToken(NatToString(id), rol)), users) == Some(id)
  {
    ParseNatToString(id);
  }

  /** `GET /perfil`: the caller's own user, 404 without a token or for an unknown identity. */
  method ObtenerPerfil(db: Session, claims: Option<Claims>) returns (status: int, view: Option<UsuarioView>)
    ensures status == 200 || status == 404
    ensures status == 200 <==> IdentityUser(claims, db.staged.usuarios).Some?
    ensures status == 200 ==>
              var id := IdentityUser(claims, db.staged.usuarios).value;
              view == Some(View(id, db.staged.usuarios.rows[id]))
    ensures status == 404 ==> view == None
  {
    var id := IdentityUser(claims, db.staged.usuarios);
    if id.None? {
      return 404, None;
    }
    return 200, Some(View(id.value, db.staged.usuarios.rows[id.value]));
  }

  /** The caller's user after `PUT /perfil`: only `nombre`, `direccion` and `telefono` can change. */
  function PatchPerfil(u: Usuario, p: UsuarioPatch): (r: Usuario)
    ensures r.rolId == u.rolId && r.contrasenaHash == u.contrasenaHash
  {
    Usuario(if p.nombre.Absent? then u.nombre else Column(p.nombre),
            if p.direccion.Absent? then u.direccion else Column(p.direccion),
            if p.telefono.Absent? then u.telefono else Column(p.telefono),
            u.contrasenaHash, u.rolId)
  }

  /** A profile edit is the administrators' edit with `rol_id` ignored. */
  lemma PatchPerfilIgnoresRol(u: Usuario, p: UsuarioPatch)
    ensures PatchPerfil(u, p) == PatchUsuario(u, p.(rolId := Absent))
  {
  }

  /** `PUT /perfil`: edits the caller's own name, address and phone. */
  method ActualizarPerfil(db: Session, claims: Option<Claims>, p: UsuarioPatch)
    returns (status: int, view: Option<UsuarioView>)
    requires db.Valid() && db.Clean()
    modifies db
    ensures db.Valid() && db.Clean()
    ensures status == 200 || status == 404
    ensures status == 404 <==> IdentityUser(claims, old(db.committed.usuarios)).None?
    ensures status == 404 ==> db.committed == old(db.committed) && view == None
    ensures status == 200 ==>
              var id := IdentityUser(claims, old(db.committed.usuarios)).value;
              var u := PatchPerfil(old(db.committed.usuarios.rows[id]), p);
              && db.committed == old(db.committed).(usuarios := Table(old(db.committed.usuarios.rows)[id := u],
                                                                      old(db.committed.usuarios.next)))
              && view == Some(View(id, u))
  {
    var id := IdentityUser(claims, db.staged.usuarios);
    if id.None? {
      return 404, None;
    }
    var u := PatchPerfil(db.staged.usuarios.rows[id.value], p);
    IntegrityReplaceUsuario(db.staged, id.value, u);
    db.staged := db.staged.(usuarios := Table(db.staged.usuarios.rows[id.value := u], db.staged.usuarios.next));
    var ok := db.Commit();
    return 200, Some(View(id.value, u));
  }

  /** `not nueva_contrasena`: a missing, null or empty new password. */
  predicate NoNewPassword(nueva: Json<string>) {
    !nueva.Present? || nueva.value == ""
  }

  /**
   * `PUT /cambiar-contrasena`: a missing or empty new password answers 400
   * before any lookup; otherwise only the caller's hash is replaced, and
   * from then on exactly the new password verifies.
   */
  method CambiarContrasena(db: Session, claims: Option<Claims>, nueva: Json<string>, salt: nat) returns (status: int)
    requires db.Valid() && db.Clean()
    modifies db
    ensures db.Valid() && db.Clean()
    ensures status == 200 || status == 400 || status == 401 || status == 404
    ensures status == 401 <==> claims.None?
    ensures status == 400 <==> claims.Some? && NoNewPassword(nueva)
    ensures status == 404 <==> claims.Some? && !NoNewPassword(nueva) && IdentityUser(claims, old(db.committed.usuarios)).None?
    ensures status != 200 ==> db.committed == old(db.committed)
    ensures status == 200 ==>
              var id := IdentityUser(claims, old(db.committed.usuarios)).value;
              var u := SetContrasena(old(db.committed.usuarios.rows[id]), nueva.value, salt);
              && db.committed == old(db.committed).(usuarios := Table(old(db.committed.usuarios.rows)[id := u],
                                                                      old(db.committed.usuarios.next)))
              && forall attempt :: VerificarContrasena(db.committed.usuarios.rows[id], Some(attempt))
                                   == Returned(attempt == nueva.value)
  {
    if claims.None? {
      return 401;
    }
    if NoNewPassword(nueva) {
      return 400;
    }
    var id := IdentityUser(claims, db.staged.usuarios);
    if id.None? {
      return 404;
    }
    var u := SetContrasena(db.staged.usuarios.rows[id.value], nueva.value, salt);
    IntegrityReplaceUsuario(db.staged, id.value, u);
    db.staged := db.staged.(usuarios := Table(db.staged.usuarios.rows[id.value := u], db.staged.usuarios.next));
    var ok := db.Commit();
    forall attempt ensures VerificarContrasena(u, Some(attempt)) == Returned(attempt == nueva.value) {
      VerificarAfterSet(db.staged.usuarios.rows[id.value], nueva.value, attempt, salt);
    }
    status := 200;
  }
}
