/**
 * The certificate endpoints: issuing a certificate with its whole chain of
 * rows and rendering its document, reading, deleting and partially updating
 * one certificate.
 */
module VistaCertificado {
  import opened Wrappers
  import opened Modelos
  import opened Peticiones
  import opened DocumentoCertificado

  // ---------------------------------------------------------------------
  // The rows an issuance creates

  /** `TipoServicio(**tipo_servicio)`: the keys given, the rest NULL. */
  function NewTipo(t: TipoServicioBody): TipoServicio {
    TipoServicio(Column(t.suministroEmergencia), Column(t.controlRoedores), Column(t.lavadoTanques),
                 Column(t.capacitacionSst), Column(t.descripcion), None)
  }

  function NewOrden(o: OrdenServicioBody, tipoId: nat): OrdenServicio {
    OrdenServicio(Column(o.fecha), Column(o.hora), Column(o.precaucion), Column(o.usuarioId), Some(tipoId))
  }

  function NewDetalle(dd: DetalleServicioBody, ordenId: nat): DetalleServicio {
    DetalleServicio(Column(dd.precio), Column(dd.nombreOperario), Column(dd.cantidadProducto),
                    Column(dd.finServicio), Some(ordenId))
  }

  function NewCertificado(d: CertificadoBody, ordenId: nat): Certificado {
    Certificado(Column(d.fecha), Column(d.estado), Column(d.usuarioId), Some(ordenId))
  }

  function NewFicha(f: FichaTecnicaBody, certId: nat): FichaTecnica {
    FichaTecnica(Column(f.productoAplicado), Column(f.dosis), Column(f.ingredienteActivo), Some(certId), None)
  }

  /** The keys of the rows an issuance created. */
  datatype IssuedIds = IssuedIds(tipo: nat, orden: nat, detalle: nat, certificado: nat, fichas: seq<nat>)

  // ---------------------------------------------------------------------
  // When an issuance is refused, and when its rows persist

  /**
   * The top-level `usuario_id`, or the order's `usuario_id` when the order
   * is an object, names no user: the request is refused with 400.
   */
  predicate UserReferenceBroken(d: CertificadoBody, users: Table<Usuario>) {
    !Resolves(Column(d.usuarioId), users)
    || (d.ordenServicio.Present? && !Resolves(Column(d.ordenServicio.value.usuarioId), users))
  }

  predicate OrdenComplete(o: OrdenServicioBody) {
    o.tipoServicio.Present? && !o.fecha.Absent? && !o.hora.Absent? && !o.precaucion.Absent?
  }

  predicate DetalleComplete(dd: DetalleServicioBody) {
    !dd.precio.Absent? && !dd.nombreOperario.Absent? && !dd.cantidadProducto.Absent? && !dd.finServicio.Absent?
  }

  /**
   * Every key the issuance indexes is there, both users exist, and every
   * sheet names its product, so the commit goes through.
   */
  predicate Persists(d: CertificadoBody, users: Table<Usuario>) {
    && !UserReferenceBroken(d, users)
    && d.ordenServicio.Present? && OrdenComplete(d.ordenServicio.value)
    && d.detalleServicio.Present? && DetalleComplete(d.detalleServicio.value)
    && !d.fecha.Absent? && !d.estado.Absent?
    && d.fichasTecnicas.Present?
    && forall j :: 0 <= j < |d.fichasTecnicas.value| ==>
         FichaKeysPresent(d.fichasTecnicas.value[j]) && d.fichasTecnicas.value[j].productoAplicado.Present?
  }

  /** `row` was added to `before` under the fresh key `id`, and nothing else changed. */
  ghost predicate Added<T>(before: Table<T>, after: Table<T>, id: nat, row: T) {
    id !in before.rows && after.rows == before.rows[id := row]
  }

  /**
   * One new sheet per entry of `fs`, in input order (strictly increasing
   * fresh keys), each pointing at certificate `certId`; old sheets kept.
   */
  ghost predicate AddedFichas(before: Table<FichaTecnica>, after: Table<FichaTecnica>, ids: seq<nat>,
                              fs: seq<FichaTecnicaBody>, certId: nat)
  {
    && |ids| == |fs|
    && (forall j, k :: 0 <= j < k < |ids| ==> ids[j] < ids[k])
    && (forall j :: 0 <= j < |ids| ==> ids[j] !in before.rows)
    && (forall id :: id in after.rows <==> id in before.rows || id in ids)
    && (forall id :: id in before.rows ==> after.rows[id] == before.rows[id])
    && (forall j :: 0 <= j < |ids| ==> after.rows[ids[j]] == NewFicha(fs[j], certId))
  }

  /**
   * The chain of rows an issuance adds: a service type, an order pointing
   * at it, a detail and a certificate pointing at the order, one sheet per
   * entry pointing at the certificate. Roles and users are untouched.
   */
  ghost predicate Staging(before: Tables, after: Tables, d: CertificadoBody, ids: IssuedIds)
    requires d.ordenServicio.Present? && d.ordenServicio.value.tipoServicio.Present?
    requires d.detalleServicio.Present? && d.fichasTecnicas.Present?
  {
    var o := d.ordenServicio.value;
    && after.roles == before.roles
    && after.usuarios == before.usuarios
    && Added(before.tipos, after.tipos, ids.tipo, NewTipo(o.tipoServicio.value))
    && Added(before.ordenes, after.ordenes, ids.orden, NewOrden(o, ids.tipo))
    && Added(before.detalles, after.detalles, ids.detalle, NewDetalle(d.detalleServicio.value, ids.orden))
    && Added(before.certificados, after.certificados, ids.certificado, NewCertificado(d, ids.orden))
    && AddedFichas(before.fichas, after.fichas, ids.fichas, d.fichasTecnicas.value, ids.certificado)
  }

  /** The committed outcome of a successful issuance. */
  ghost predicate IssuedChain(before: Tables, after: Tables, d: CertificadoBody, ids: IssuedIds) {
    Persists(d, before.usuarios) && Staging(before, after, d, ids)
  }

  /** The links of an issued chain, spelled out. */
  lemma IssuedChainLinks(before: Tables, after: Tables, d: CertificadoBody, ids: IssuedIds)
    requires IssuedChain(before, after, d, ids)
    ensures ids.tipo in after.tipos.rows && ids.orden in after.ordenes.rows
    ensures ids.detalle in after.detalles.rows && ids.certificado in after.certificados.rows
    ensures after.ordenes.rows[ids.orden].tipoServicioId == Some(ids.tipo)
    ensures after.detalles.rows[ids.detalle].ordenServicioId == Some(ids.orden)
    ensures after.certificados.rows[ids.certificado].ordenServicioId == Some(ids.orden)
    ensures after.certificados.rows[ids.certificado].usuarioId == Column(d.usuarioId)
    ensures Resolves(after.certificados.rows[ids.certificado].usuarioId, after.usuarios)
    ensures |ids.fichas| == |d.fichasTecnicas.value|
    ensures forall j :: 0 <= j < |ids.fichas| ==>
              ids.fichas[j] in after.fichas.rows
              && after.fichas.rows[ids.fichas[j]].certificadoId == Some(ids.certificado)
              && after.fichas.rows[ids.fichas[j]].productoAplicado == Column(d.fichasTecnicas.value[j].productoAplicado)
  {
  }

  // ---------------------------------------------------------------------
  // Integrity of the staged chain

  lemma {:induction false} TableHasGrows<T>(before: Table<T>, after: Table<T>, id: nat, row: T, x: int)
    requires Added(before, after, id, row)
    ensures before.Has(x) ==> after.Has(x)
    ensures after.Has(x) <==> before.Has(x) || x == id
  {
  }

  /**
   * The staged chain satisfies every constraint of the database exactly
   * when every new sheet names its product (the one NOT NULL column the
   * request can leave empty).
   */
  lemma StagingIntegrity(before: Tables, after: Tables, d: CertificadoBody, ids: IssuedIds)
    requires before.Valid() && Integrity(before)
    requires d.ordenServicio.Present? && d.ordenServicio.value.tipoServicio.Present?
    requires d.detalleServicio.Present? && d.fichasTecnicas.Present?
    requires !UserReferenceBroken(d, before.usuarios)
    requires Staging(before, after, d, ids)
    ensures Integrity(after) <==>
              forall j :: 0 <= j < |d.fichasTecnicas.value| ==> d.fichasTecnicas.value[j].productoAplicado.Present?
  {
    var fs := d.fichasTecnicas.value;
    if forall j :: 0 <= j < |fs| ==> fs[j].productoAplicado.Present? {
      StagingNonNull(before, after, d, ids);
      StagingForeignKeys(before, after, d, ids);
    } else {
      var j :| 0 <= j < |fs| && !fs[j].productoAplicado.Present?;
      assert ids.fichas[j] in after.fichas.rows;
    }
  }

  lemma StagingNonNull(before: Tables, after: Tables, d: CertificadoBody, ids: IssuedIds)
    requires before.Valid() && Integrity(before)
    requires d.ordenServicio.Present? && d.ordenServicio.value.tipoServicio.Present?
    requires d.detalleServicio.Present? && d.fichasTecnicas.Present?
    requires !UserReferenceBroken(d, before.usuarios)
    requires Staging(before, after, d, ids)
    requires forall j :: 0 <= j < |d.fichasTecnicas.value| ==> d.fichasTecnicas.value[j].productoAplicado.Present?
    ensures NonNull(after)
  {
    var fs := d.fichasTecnicas.value;
    forall id | id in after.fichas.rows
      ensures after.fichas.rows[id].certificadoId.Some? && after.fichas.rows[id].productoAplicado.Some?
    {
      if id !in before.fichas.rows {
        var j :| 0 <= j < |ids.fichas| && ids.fichas[j] == id;
      }
    }
  }

  lemma StagingForeignKeys(before: Tables, after: Tables, d: CertificadoBody, ids: IssuedIds)
    requires before.Valid() && Integrity(before)
    requires d.ordenServicio.Present? && d.ordenServicio.value.tipoServicio.Present?
    requires d.detalleServicio.Present? && d.fichasTecnicas.Present?
    requires !UserReferenceBroken(d, before.usuarios)
    requires Staging(before, after, d, ids)
    ensures ForeignKeys(after)
  {
    var fs := d.fichasTecnicas.value;
    forall x: int ensures before.ordenes.Has(x) ==> after.ordenes.Has(x) {
      TableHasGrows(before.ordenes, after.ordenes, ids.orden, NewOrden(d.ordenServicio.value, ids.tipo), x);
    }
    forall x: int ensures before.tipos.Has(x) ==> after.tipos.Has(x) {
      TableHasGrows(before.tipos, after.tipos, ids.tipo, NewTipo(d.ordenServicio.value.tipoServicio.value), x);
    }
    forall x: int ensures before.detalles.Has(x) ==> after.detalles.Has(x) {
      TableHasGrows(before.detalles, after.detalles, ids.detalle, NewDetalle(d.detalleServicio.value, ids.orden), x);
    }
    forall x: int ensures before.certificados.Has(x) ==> after.certificados.Has(x) {
      TableHasGrows(before.certificados, after.certificados, ids.certificado, NewCertificado(d, ids.orden), x);
    }
    forall id | id in after.fichas.rows
      ensures RefOk(after.fichas.rows[id].certificadoId, after.certificados)
      ensures RefOk(after.fichas.rows[id].detalleServicioId, after.detalles)
    {
      if id !in before.fichas.rows {
        var j :| 0 <= j < |ids.fichas| && ids.fichas[j] == id;
      }
    }
  }

  // ---------------------------------------------------------------------
  // The document

  /**
   * `datos_docx` of an issued certificate: its date, the stored client's
   * columns, the service description and the sheets of the request.
   */
  function DatosDocx(d: CertificadoBody, users: Table<Usuario>): seq<Field>
    requires Persists(d, users) && d.fecha.Present?
  {
    FieldMap(d.fecha.value, users.rows[d.usuarioId.value as nat],
             d.ordenServicio.value.tipoServicio.value.descripcion, d.fichasTecnicas.value)
  }

  // ---------------------------------------------------------------------
  // The handlers

  /**
   * Stages one sheet per entry of `fs`, each pointing at `certId`, stopping
   * at the first entry that lacks a key the handler indexes.
   */
  method StageFichas(db: Session, fs: seq<FichaTecnicaBody>, certId: nat) returns (ok: bool, ids: seq<nat>)
    requires db.Valid()
    modifies db
    ensures db.Valid() && db.committed == old(db.committed)
    ensures ok <==> forall j :: 0 <= j < |fs| ==> FichaKeysPresent(fs[j])
    ensures ok ==> db.staged == old(db.staged).(fichas := db.staged.fichas)
    ensures ok ==> AddedFichas(old(db.staged.fichas), db.staged.fichas, ids, fs, certId)
  {
    ids := [];
    for j := 0 to |fs|
      invariant db.Valid() && db.committed == old(db.committed)
      invariant forall k :: 0 <= k < j ==> FichaKeysPresent(fs[k])
      invariant db.staged == old(db.staged).(fichas := db.staged.fichas)
      invariant AddedFichas(old(db.staged.fichas), db.staged.fichas, ids, fs[..j], certId)
      invariant forall k :: 0 <= k < |ids| ==> ids[k] < db.staged.fichas.next
    {
      if !FichaKeysPresent(fs[j]) {
        return false, ids;
      }
      var id := db.staged.fichas.next;
      ids := ids + [id];
      db.staged := db.staged.(fichas := db.staged.fichas.Insert(NewFicha(fs[j], certId)));
    }
    assert fs[..|fs|] == fs;
    ok := true;
  }

  /** The keys after the user checks that the issuance indexes before it stages its last row. */
  predicate ChainKeysPresent(d: CertificadoBody) {
    && d.ordenServicio.Present? && OrdenComplete(d.ordenServicio.value)
    && d.detalleServicio.Present? && DetalleComplete(d.detalleServicio.value)
    && !d.fecha.Absent? && !d.estado.Absent?
    && d.fichasTecnicas.Present?
    && forall j :: 0 <= j < |d.fichasTecnicas.value| ==> FichaKeysPresent(d.fichasTecnicas.value[j])
  }

  /**
   * Stages the service type, the order, the detail, the certificate and the
   * sheets in that order, each carrying the key generated before it;
   * stops, without a commit, at the first key the request lacks.
   */
  method StageChain(db: Session, d: CertificadoBody) returns (ok: bool, ids: IssuedIds)
    requires db.Valid() && d.ordenServicio.Present?
    modifies db
    ensures db.Valid() && db.committed == old(db.committed)
    ensures ok <==> ChainKeysPresent(d)
    ensures ok ==> Staging(old(db.staged), db.staged, d, ids)
  {
    ids := IssuedIds(0, 0, 0, 0, []);
    var o := d.ordenServicio.value;
    if !o.tipoServicio.Present? {
      return false, ids;
    }
    var tipoId := db.staged.tipos.next;
    db.staged := db.staged.(tipos := db.staged.tipos.Insert(NewTipo(o.tipoServicio.value)));
    if o.fecha.Absent? || o.hora.Absent? || o.precaucion.Absent? {
      return false, ids;
    }
    var ordenId := db.staged.ordenes.next;
    db.staged := db.staged.(ordenes := db.staged.ordenes.Insert(NewOrden(o, tipoId)));
    if !d.detalleServicio.Present? || !DetalleComplete(d.detalleServicio.value) {
      return false, ids;
    }
    var detalleId := db.staged.detalles.next;
    db.staged := db.staged.(detalles := db.staged.detalles.Insert(NewDetalle(d.detalleServicio.value, ordenId)));
    if d.fecha.Absent? || d.estado.Absent? {
      return false, ids;
    }
    var certId := db.staged.certificados.next;
    db.staged := db.staged.(certificados := db.staged.certificados.Insert(NewCertificado(d, ordenId)));
    if !d.fichasTecnicas.Present? {
      return false, ids;
    }
    var fichaIds;
    ok, fichaIds := StageFichas(db, d.fichasTecnicas.value, certId);
    ids := IssuedIds(tipoId, ordenId, detalleId, certId, fichaIds);
  }

  /** The template with every paragraph filled from `fields`, built in an array and rewritten in place. */
  method Render(template: seq<Paragraph>, fields: seq<Field>) returns (documento: seq<Paragraph>)
    ensures documento == FillDocument(template, fields)
  {
    var doc := new Paragraph[|template|](i requires 0 <= i < |template| => template[i]);
    assert doc[..] == template;
    FillTemplate(doc, fields);
    documento := doc[..];
  }

  /**
   * `POST /certificados`. Checks both users before any write; stages the
   * chain of rows; commits once; then fills the template's placeholders.
   * A missing key or a failed commit rolls everything back with 500; a
   * failure after the commit (a null date, a missing template) answers 500
   * with the rows committed.
   */
  method PostCertificados(db: Session, d: CertificadoBody, plantilla: Option<seq<Paragraph>>)
    returns (status: int, persisted: bool, ids: IssuedIds, documento: Option<seq<Paragraph>>)
    requires db.Valid() && db.Clean()
    modifies db
    ensures db.Valid() && db.Clean()
    ensures status == 201 || status == 400 || status == 500
    ensures status == 400 <==> UserReferenceBroken(d, old(db.committed.usuarios))
    ensures persisted <==> Persists(d, old(db.committed.usuarios))
    ensures persisted ==> IssuedChain(old(db.committed), db.committed, d, ids)
    ensures !persisted ==> db.committed == old(db.committed)
    ensures status == 201 <==> persisted && d.fecha.Present? && plantilla.Some?
    ensures status == 201 ==> documento == Some(FillDocument(plantilla.value, DatosDocx(d, db.committed.usuarios)))
    ensures status != 201 ==> documento == None
  {
    persisted, ids, documento := false, IssuedIds(0, 0, 0, 0, []), None;
    ghost var before := db.committed;
    var users := db.staged.usuarios;
    if !Resolves(Column(d.usuarioId), users) {
      status := 400;
      return;
    }
    if !d.ordenServicio.Present? {
      db.Rollback();
      status := 500;
      return;
    }
    if !Resolves(Column(d.ordenServicio.value.usuarioId), users) {
      status := 400;
      return;
    }
    var ok;
    ok, ids := StageChain(db, d);
    if !ok {
      db.Rollback();
      status := 500;
      return;
    }
    StagingIntegrity(before, db.staged, d, ids);
    ok := db.Commit();
    if !ok {
      db.Rollback();
      status := 500;
      return;
    }
    persisted := true;
    assert IssuedChain(before, db.committed, d, ids);
    if d.fecha.Null? {
      // `certificado.fecha.strftime(...)` on a NULL date raises after the commit.
      db.Rollback();
      status := 500;
      return;
    }
    if plantilla.None? {
      status := 500;
      return;
    }
    var fields := BuildFieldMap(d.fecha.value, users.rows[d.usuarioId.value as nat],
                                d.ordenServicio.value.tipoServicio.value.descripcion, d.fichasTecnicas.value);
    var filled := Render(plantilla.value, fields);
    documento := Some(filled);
    status := 201;
  }

  /** `GET /certificados/<id>`. */
  method GetCertificado(db: Session, id: nat) returns (status: int, cert: Option<Certificado>)
    ensures status == 200 || status == 404
    ensures status == 200 <==> id in db.staged.certificados.rows
    ensures status == 200 ==> cert == Some(db.staged.certificados.rows[id])
    ensures status == 404 ==> cert == None
  {
    if id in db.staged.certificados.rows {
      return 200, Some(db.staged.certificados.rows[id]);
    }
    return 404, None;
  }

  /** The sheets of `t` that do not point at certificate `certId`. */
  function FichasWithout(t: Table<FichaTecnica>, certId: nat): (r: Table<FichaTecnica>)
    ensures r.next == t.next
    ensures forall id :: id in r.rows <==> id in t.rows && t.rows[id].certificadoId != Some(certId)
    ensures forall id :: id in r.rows ==> r.rows[id] == t.rows[id]
  {
    Table(map id | id in t.rows && t.rows[id].certificadoId != Some(certId) :: t.rows[id], t.next)
  }

  /** Removing a certificate together with its sheets keeps every constraint. */
  lemma IntegrityRemoveCertificado(t: Tables, id: nat)
    requires t.Valid() && Integrity(t)
    ensures var t' := t.(certificados := Table(t.certificados.rows - {id}, t.certificados.next),
                         fichas := FichasWithout(t.fichas, id));
            t'.Valid() && Integrity(t')
  {
  }

  /**
   * `DELETE /certificados/<id>`: deletes the sheets that point at the
   * certificate, then the certificate, and commits; 404 for an unknown id.
   */
  method DeleteCertificado(db: Session, id: nat) returns (status: int)
    requires db.Valid() && db.Clean()
    modifies db
    ensures db.Valid() && db.Clean()
    ensures status == 204 || status == 404
    ensures status == 404 <==> id !in old(db.committed.certificados.rows)
    ensures status == 404 ==> db.committed == old(db.committed)
    ensures status == 204 ==>
              && db.committed.certificados.rows == old(db.committed.certificados.rows) - {id}
              && db.committed.fichas == FichasWithout(old(db.committed.fichas), id)
              && db.committed.(certificados := old(db.committed.certificados), fichas := old(db.committed.fichas))
                 == old(db.committed)
    ensures status == 204 ==>
              && !db.committed.certificados.Has(id)
              && forall f :: f in db.committed.fichas.rows ==> db.committed.fichas.rows[f].certificadoId != Some(id)
  {
    if id !in db.staged.certificados.rows {
      return 404;
    }
    IntegrityRemoveCertificado(db.staged, id);
    db.staged := db.staged.(fichas := FichasWithout(db.staged.fichas, id));
    db.staged := db.staged.(certificados := Table(db.staged.certificados.rows - {id}, db.staged.certificados.next));
    var ok := db.Commit();
    status := 204;
  }

  /** The certificate after a partial update: each key given replaces its column, a null clears it. */
  function PatchCertificado(c: Certificado, p: CertificadoPatch): (r: Certificado)
    ensures r.ordenServicioId == c.ordenServicioId
    ensures p.estado.Absent? ==> r.estado == c.estado
    ensures p.fecha.Absent? ==> r.fecha == c.fecha
    ensures p.usuarioId.Absent? ==> r.usuarioId == c.usuarioId
  {
    Certificado(if p.fecha.Absent? then c.fecha else Column(p.fecha),
                if p.estado.Absent? then c.estado else Column(p.estado),
                if p.usuarioId.Absent? then c.usuarioId else Column(p.usuarioId),
                c.ordenServicioId)
  }

  /** Applying the same update twice is applying it once. */
  lemma PatchCertificadoIdempotent(c: Certificado, p: CertificadoPatch)
    ensures PatchCertificado(PatchCertificado(c, p), p) == PatchCertificado(c, p)
  {
  }

  /** An update that supplies every key determines the whole row but its order. */
  lemma PatchCertificadoFull(c: Certificado, c2: Certificado, p: CertificadoPatch)
    requires !p.estado.Absent? && !p.fecha.Absent? && !p.usuarioId.Absent?
    requires c.ordenServicioId == c2.ordenServicioId
    ensures PatchCertificado(c, p) == PatchCertificado(c2, p)
  {
  }

  /** The update the handler accepts names an existing user, or none. */
  predicate UnknownNewUser(p: CertificadoPatch, users: Table<Usuario>) {
    !p.usuarioId.Absent? && !Resolves(Column(p.usuarioId), users)
  }

  lemma IntegrityPatchCertificado(t: Tables, id: nat, p: CertificadoPatch)
    requires t.Valid() && Integrity(t) && id in t.certificados.rows
    requires !UnknownNewUser(p, t.usuarios)
    ensures var t' := t.(certificados := Table(t.certificados.rows[id := PatchCertificado(t.certificados.rows[id], p)],
                                                t.certificados.next));
            t'.Valid() && Integrity(t')
  {
  }

  /**
   * `PUT /certificados/<id>`: applies the keys given among `estado`,
   * `fecha` and `usuario_id`; a `usuario_id` naming no user answers 400
   * before the commit, so nothing persists.
   */
  method PutCertificado(db: Session, id: nat, p: CertificadoPatch) returns (status: int)
    requires db.Valid() && db.Clean()
    modifies db
    ensures db.Valid() && db.Clean()
    ensures status == 200 || status == 400 || status == 404
    ensures status == 404 <==> id !in old(db.committed.certificados.rows)
    ensures status == 400 <==> id in old(db.committed.certificados.rows) && UnknownNewUser(p, old(db.committed.usuarios))
    ensures status != 200 ==> db.committed == old(db.committed)
    ensures status == 200 ==>
              db.committed == old(db.committed).(certificados := Table(
                old(db.committed.certificados.rows)[id := PatchCertificado(old(db.committed.certificados.rows[id]), p)],
                old(db.committed.certificados.next)))
  {
    if id !in db.staged.certificados.rows {
      return 404;
    }
    ghost var t := db.staged;
    var c := db.staged.certificados.rows[id];
    if !p.estado.Absent? {
      c := c.(estado := Column(p.estado));
    }
    if !p.fecha.Absent? {
      c := c.(fecha := Column(p.fecha));
    }
    db.staged := db.staged.(certificados := db.staged.certificados.(rows := db.staged.certificados.rows[id := c]));
    if !p.usuarioId.Absent? {
      if !Resolves(Column(p.usuarioId), db.staged.usuarios) {
        // The request ends without a commit; the session is discarded.
        db.Rollback();
        return 400;
      }
      c := c.(usuarioId := Column(p.usuarioId));
      db.staged := db.staged.(certificados := db.staged.certificados.(rows := db.staged.certificados.rows[id := c]));
    }
    assert c == PatchCertificado(t.certificados.rows[id], p);
    assert db.staged == t.(certificados := Table(t.certificados.rows[id := c], t.certificados.next));
    IntegrityPatchCertificado(t, id, p);
    var ok := db.Commit();
    status := 200;
  }
}
