/**
 * The JSON bodies the handlers read, one field per key they look up. Each
 * field says whether the key was missing, null or present (see
 * `Wrappers.Json`); keys a handler never reads are not represented.
 */
module Peticiones {
  import opened Wrappers

  /** `orden_servicio.tipo_servicio`, passed to `TipoServicio(**...)`. */
  datatype TipoServicioBody = TipoServicioBody(
    suministroEmergencia: Json<string>,
    controlRoedores: Json<string>,
    lavadoTanques: Json<string>,
    capacitacionSst: Json<string>,
    descripcion: Json<string>)

  datatype OrdenServicioBody = OrdenServicioBody(
    usuarioId: Json<int>,
    fecha: Json<string>,
    hora: Json<string>,
    precaucion: Json<string>,
    tipoServicio: Json<TipoServicioBody>)

  datatype DetalleServicioBody = DetalleServicioBody(
    precio: Json<int>,
    nombreOperario: Json<string>,
    cantidadProducto: Json<string>,
    finServicio: Json<string>)

  /** One entry of `fichas_tecnicas`; the last three keys are read only for the document. */
  datatype FichaTecnicaBody = FichaTecnicaBody(
    productoAplicado: Json<string>,
    dosis: Json<string>,
    ingredienteActivo: Json<string>,
    categoriaToxica: Json<string>,
    lugarAplicado: Json<string>,
    presentacion: Json<string>)

  /** The keys the issuance indexes on every technical sheet. */
  predicate FichaKeysPresent(f: FichaTecnicaBody) {
    !f.productoAplicado.Absent? && !f.dosis.Absent? && !f.ingredienteActivo.Absent?
  }

  /** The body of `POST /certificados`. */
  datatype CertificadoBody = CertificadoBody(
    usuarioId: Json<int>,
    fecha: Json<string>,
    estado: Json<string>,
    ordenServicio: Json<OrdenServicioBody>,
    detalleServicio: Json<DetalleServicioBody>,
    fichasTecnicas: Json<seq<FichaTecnicaBody>>)

  /** The body of `PUT /certificados/<id>`. */
  datatype CertificadoPatch = CertificadoPatch(
    estado: Json<string>,
    fecha: Json<string>,
    usuarioId: Json<int>)

  /** The body of the administrators' `POST /registro`. */
  datatype RegistrarUsuarioBody = RegistrarUsuarioBody(
    nombre: Json<string>,
    direccion: Json<string>,
    telefono: Json<string>,
    contrasena: Json<string>,
    rolId: Json<int>)

  /** The body of `PUT /usuarios/<id>` and of `PUT /perfil`. */
  datatype UsuarioPatch = UsuarioPatch(
    nombre: Json<string>,
    direccion: Json<string>,
    telefono: Json<string>,
    rolId: Json<int>)

  /** The body of the open `POST /registro`, which names the role. */
  datatype RegistroBody = RegistroBody(
    rol: Json<string>,
    nombre: Json<string>,
    direccion: Json<string>,
    telefono: Json<string>,
    contrasena: Json<string>)

  datatype LoginBody = LoginBody(
    nombre: Json<string>,
    contrasena: Json<string>)
}
