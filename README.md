# Certificate management backend — a Dafny model

This project models the core of a Flask + SQLAlchemy + MySQL backend used by a
pest-control company to issue service certificates and to manage its users.

The database is a `Modelos.Session` object. It holds the committed tables
and the tables staged by the current request. `Commit` makes the staged
tables durable only when they satisfy the schema's constraints: the NOT NULL
columns and the foreign keys. Otherwise it leaves the committed state alone,
which is what a failed `commit()` followed by `rollback()` does.

Every HTTP handler is a method on that session. It receives these as
parameters:

- the JSON body, with each key absent, `null` or present;
- the already-decoded JWT claims;
- the password salt, and for the certificate the template document.

It returns the status code, and the model proves how the committed database
changed.

The modules:

- `Wrappers`: option, JSON-field and exception-result types.
- `Strings`: decimal numerals, `str.lower()`, substring search and
  replacement.
- `Security`: a symbolic password hash and the token claims.
- `Modelos`: the tables, their constraints, the session, the `Usuario`
  password property and the creation of the super-user.
- `Peticiones`: the request bodies.
- `DocumentoCertificado`: the placeholder dictionary of a certificate and
  the run-by-run placeholder substitution in a document template.
- `VistaCertificado`: issuing, reading, deleting and editing certificates.
- `Auth`: open registration by role name, and login.
- `VistasUsuarios`: the administrator gate, user administration, and the
  authenticated user's profile and password.

## Model

Functions that only compute have no row of their own: `HeaderFields`, `FieldMap`, `FillStep`, `FillParagraph`, `IsSubstring` and `View`. The lemmas listed against the same source lines are their specification.

| member | source | states |
|---|---|---|
| Wrappers.Column | API-Proyect1.1/backend/vistas/vista_certificado.py:65-71 | A JSON value stored in a nullable column is NULL exactly when it was `null`, and otherwise it is the value sent |
| Modelos.Table.Insert | API-Proyect1.1/backend/modelos/modelos.py:25 | An added row gets the next autoincrement key, which was free; every other row is kept and the counter advances |
| Modelos.Table.FindFirst | API-Proyect1.1/backend/modelos/modelos.py:197 | `filter_by(...).first()` returns a row satisfying the filter with no smaller matching key, or None exactly when no row matches |
| Modelos.Session.constructor | API-Proyect1.1/backend/modelos/modelos.py:6 | A new database is empty and the session has nothing pending |
| Modelos.Session.Commit | API-Proyect1.1/backend/vistas/vista_certificado.py:102 | A commit succeeds exactly when the staged tables satisfy every NOT NULL and foreign-key constraint; on success they become the committed state, otherwise that state is unchanged |
| Modelos.Session.Rollback | API-Proyect1.1/backend/vistas/vista_certificado.py:166 | A rollback discards pending changes and leaves the committed state unchanged |
| Modelos.ContrasenaGetter | API-Proyect1.1/backend/modelos/modelos.py:34-36 | Reading `contrasena` always raises AttributeError |
| Modelos.SetContrasena | API-Proyect1.1/backend/modelos/modelos.py:38-40 | Setting the password stores its hash and changes no other column |
| Modelos.VerificarContrasena | API-Proyect1.1/backend/modelos/modelos.py:42-43 | Checking a password raises exactly when the stored hash or the password is NULL |
| Modelos.VerificarAfterSet | API-Proyect1.1/backend/modelos/modelos.py:38-43 | After a password is set, checking accepts that password and rejects every other |
| Modelos.GetRolNombre | API-Proyect1.1/backend/modelos/modelos.py:48-49 | The role name is returned exactly when the user's `rol_id` names an existing role, and it is that role's name; otherwise the attribute access raises |
| Modelos.IntegrityInsertRol | API-Proyect1.1/backend/modelos/modelos.py:199-201 | Inserting a role into a consistent database keeps every constraint |
| Modelos.IntegrityInsertUsuario | API-Proyect1.1/backend/modelos/modelos.py:212-213 | Inserting a user whose role exists keeps every constraint |
| Modelos.CrearSuperusuario | API-Proyect1.1/backend/modelos/modelos.py:196-216 | Afterwards an "Admin" role and a "superAdministrador" user exist. Each is inserted only when missing, with the fixed columns and the hashed password. Nothing else changes, and a second run changes nothing |
| Security.CheckGeneratedHash | API-Proyect1.1/backend/modelos/modelos.py:38-43 | A generated hash verifies exactly the password it was generated from |
| Security.CreateAccessToken | API-Proyect1.1/backend/vistas/auth.py:45-46 | The token's identity is the one given, and its `rol` claim is always there: the role's name, or null when the role's name is NULL |
| Strings.NatToString | API-Proyect1.1/backend/vistas/auth.py:52 | `str(id)` is a non-empty run of digits without a leading zero |
| Strings.ParseNat | API-Proyect1.1/backend/vistas/vistas_usuarios.py:161 | A key is read back from text exactly when the text is a non-empty run of digits |
| Strings.ParseNatToString | API-Proyect1.1/backend/vistas/auth.py:45 | Reading back the token identity `str(id)` gives `id` |
| Strings.NatToStringInjective | API-Proyect1.1/backend/vistas/auth.py:45 | Different user keys give different token identities |
| Strings.Lower | API-Proyect1.1/backend/vistas/vistas_usuarios.py:25 | `lower()` keeps the length |
| Strings.LowerAt | API-Proyect1.1/backend/vistas/vistas_usuarios.py:25 | `lower()` maps each character on its own |
| Strings.LowerEqualsIff | API-Proyect1.1/backend/vistas/vistas_usuarios.py:25 | A text lower-cases to a given lower-case word exactly when it spells that word letter by letter in either case |
| Strings.IsSubstringIff | API-Proyect1.1/backend/vistas/vista_certificado.py:155 | The `in` test on text holds exactly when the pattern occurs at some position |
| Strings.ReplaceAll | API-Proyect1.1/backend/vistas/vista_certificado.py:157 | `str.replace` leaves a text without the pattern unchanged |
| Strings.ReplaceAllWhole | API-Proyect1.1/backend/vistas/vista_certificado.py:157 | A run that is exactly the placeholder becomes exactly the value |
| Strings.ReplaceAllKeepsOccurrence | API-Proyect1.1/backend/vistas/vista_certificado.py:157 | `str.replace` keeps every occurrence of another text that no occurrence of the replaced pattern overlaps |
| DocumentoCertificado.LookupIff | API-Proyect1.1/backend/vistas/vista_certificado.py:154 | A dictionary entry is found exactly when some entry has the key, and it is the first one with that key |
| DocumentoCertificado.SheetsAppend | API-Proyect1.1/backend/vistas/vista_certificado.py:115-121 | Numbering one more sheet appends exactly that sheet's six entries |
| DocumentoCertificado.BuildFieldMap | API-Proyect1.1/backend/vistas/vista_certificado.py:105-121 | The dictionary the loop builds is the header entries, then six entries for each of the first three sheets, numbered from 1 |
| DocumentoCertificado.SlotKeyInjective | API-Proyect1.1/backend/vistas/vista_certificado.py:116-121 | Two numbered keys are equal only for the same stem and the same number |
| DocumentoCertificado.FieldMapSlots | API-Proyect1.1/backend/vistas/vista_certificado.py:115-121 | The key `stem_i` holds sheet `i`'s value for that stem exactly when 1 <= i <= min(3, number of sheets), and is absent otherwise |
| DocumentoCertificado.FieldMapHeader | API-Proyect1.1/backend/vistas/vista_certificado.py:105-113 | The seven header keys hold the date, the client's name, phone and address (`None` when NULL), "N/A" for the legal representative and NIT, and the service description or "N/A" |
| DocumentoCertificado.SheetsLength | API-Proyect1.1/backend/vistas/vista_certificado.py:115-121 | Each rendered sheet contributes six entries |
| DocumentoCertificado.SheetsKeyAt | API-Proyect1.1/backend/vistas/vista_certificado.py:115-121 | Entry `k` of the sheet entries has the key for stem `k mod 6` of sheet `start + k div 6` |
| DocumentoCertificado.HeaderKeysDistinct | API-Proyect1.1/backend/vistas/vista_certificado.py:105-113 | The header keys are pairwise different and none ends in a digit |
| DocumentoCertificado.SheetsKeysDistinct | API-Proyect1.1/backend/vistas/vista_certificado.py:115-121 | The numbered keys are pairwise different and all end in a digit |
| DocumentoCertificado.FieldMapDistinctKeys | API-Proyect1.1/backend/vistas/vista_certificado.py:105-121 | No key is assigned twice, so the entry list is a faithful dict |
| DocumentoCertificado.Placeholder | API-Proyect1.1/backend/vistas/vista_certificado.py:155 | The placeholder `{{key}}` is the key plus four brace characters |
| DocumentoCertificado.FillDocument | API-Proyect1.1/backend/vistas/vista_certificado.py:153-157 | Substitution keeps the number of paragraphs |
| DocumentoCertificado.FillParagraphAppend | API-Proyect1.1/backend/vistas/vista_certificado.py:154-157 | Dictionary entries are applied one after another, each to the text the previous ones left |
| DocumentoCertificado.FillTemplate | API-Proyect1.1/backend/vistas/vista_certificado.py:153-157 | The in-place loop over paragraphs and entries leaves the document equal to the specification of the substitution applied to the original |
| DocumentoCertificado.FillWithoutPlaceholders | API-Proyect1.1/backend/vistas/vista_certificado.py:155 | A paragraph whose text contains none of the placeholders is left unchanged |
| DocumentoCertificado.FillRunsWithoutPlaceholders | API-Proyect1.1/backend/vistas/vista_certificado.py:156-157 | When no run contains a placeholder, the paragraph is unchanged; the `in` test may still succeed on the joined text |
| DocumentoCertificado.SplitPlaceholderKept | API-Proyect1.1/backend/vistas/vista_certificado.py:155-157 | For every key without `}`, the placeholder split after the key, as the runs `{{key` and `}}`, is found by the test on the paragraph text, yet every dictionary leaves the paragraph unchanged |
| DocumentoCertificado.PlaceholderOccursOnlyInItself | API-Proyect1.1/backend/vistas/vista_certificado.py:155 | For brace-free keys, one placeholder occurs in another only when the keys are equal |
| DocumentoCertificado.PlaceholdersDoNotOverlap | API-Proyect1.1/backend/vistas/vista_certificado.py:155-157 | Occurrences of the placeholders of two different brace-free keys never overlap |
| DocumentoCertificado.UnknownPlaceholderKept | API-Proyect1.1/backend/vistas/vista_certificado.py:155-157 | If a run of any paragraph contains the placeholder of a brace-free key that is not in the dictionary (whose keys are brace-free), the filled run still contains it, whatever else the run and the paragraph hold |
| DocumentoCertificado.FillParagraphConcat | API-Proyect1.1/backend/vistas/vista_certificado.py:154-157 | Filling with two dictionaries in turn is filling with their concatenation |
| DocumentoCertificado.FillKeepsRun | API-Proyect1.1/backend/vistas/vista_certificado.py:155-157 | Entries none of whose placeholders occur in run `j` leave that run unchanged, whatever the paragraph's other runs hold |
| DocumentoCertificado.NoPlaceholderInBraceFree | API-Proyect1.1/backend/vistas/vista_certificado.py:155-157 | A text without braces contains no placeholder |
| DocumentoCertificado.OtherPlaceholderNotInSurrounded | API-Proyect1.1/backend/vistas/vista_certificado.py:155-157 | A brace-free key's placeholder written between brace-free texts contains no placeholder of any other brace-free key |
| DocumentoCertificado.ReplaceSurrounded | API-Proyect1.1/backend/vistas/vista_certificado.py:157 | `replace` turns `a + {{key}} + b` into `a + value + b` when `a`, `b` and the key are brace-free |
| DocumentoCertificado.TextHoldsRun | API-Proyect1.1/backend/vistas/vista_certificado.py:155 | Whatever a run contains, the paragraph's joined text contains too |
| DocumentoCertificado.StepReplacesRun | API-Proyect1.1/backend/vistas/vista_certificado.py:155-157 | One entry's step turns run `j = a + {{key}} + b` into `a + value + b` for brace-free `a`, `b` and key, whatever the other runs hold |
| DocumentoCertificado.PlaceholderReplacedAmong | API-Proyect1.1/backend/vistas/vista_certificado.py:154-157 | When entry `f` comes after entries with other brace-free keys, the whole fold turns run `j = a + {{f.key}} + b` into `a + f.value + b` (brace-free `a`, `b` and value), whatever follows |
| DocumentoCertificado.KnownPlaceholderReplaced | API-Proyect1.1/backend/vistas/vista_certificado.py:153-157 | Take any dictionary with distinct brace-free keys and any paragraph. If run `j` is `a + {{key_i}} + b` with `a` and `b` brace-free, the filled run is `a + value_i + b`, when that value holds no braces |
| DocumentoCertificado.FieldMapKeysBraceFree | API-Proyect1.1/backend/vistas/vista_certificado.py:105-121 | Every key of the certificate's dictionary is free of braces |
| DocumentoCertificado.FieldMapPlaceholderReplaced | API-Proyect1.1/backend/vistas/vista_certificado.py:105-157 | In an issued certificate, take any template paragraph whose run `j` is `a + {{key}} + b`, for a dictionary key and brace-free `a` and `b`. The filled run is `a + value + b`, when the value holds no braces |
| VistaCertificado.IssuedChainLinks | API-Proyect1.1/backend/vistas/vista_certificado.py:61-100 | An issuance links the rows it creates: the order points to the service type, the detail and the certificate point to the order, the certificate points to an existing user, and each sheet, in input order, points to the certificate with its product |
| VistaCertificado.StagingIntegrity | API-Proyect1.1/backend/vistas/vista_certificado.py:102 | The staged issuance commits exactly when every sheet's `producto_aplicado` is non-null |
| VistaCertificado.StagingNonNull | API-Proyect1.1/backend/vistas/vista_certificado.py:102 | With every product given, the staged rows satisfy every NOT NULL column |
| VistaCertificado.StagingForeignKeys | API-Proyect1.1/backend/vistas/vista_certificado.py:102 | The staged rows satisfy every foreign key |
| VistaCertificado.StageFichas | API-Proyect1.1/backend/vistas/vista_certificado.py:93-100 | The loop stages one sheet per input entry, in order and pointing at the certificate, exactly when every entry has its three keys |
| VistaCertificado.StageChain | API-Proyect1.1/backend/vistas/vista_certificado.py:61-100 | The issuance stages its rows exactly when every key it indexes is present, and nothing is committed yet |
| VistaCertificado.Render | API-Proyect1.1/backend/vistas/vista_certificado.py:152-157 | The rendered document is the template with the dictionary substituted |
| VistaCertificado.PostCertificados | API-Proyect1.1/backend/vistas/vista_certificado.py:50-167 | 400 exactly when a referenced user is missing. The rows persist exactly when every key is there and every sheet names its product, and then form a linked chain; otherwise nothing changes. 201, with the filled template, exactly when they persist and the date and the template exist |
| VistaCertificado.GetCertificado | API-Proyect1.1/backend/vistas/vista_certificado.py:186-190 | 200 with the row exactly when the certificate exists, else 404 |
| VistaCertificado.FichasWithout | API-Proyect1.1/backend/vistas/vista_certificado.py:206 | The bulk delete removes exactly the sheets of that certificate and keeps the others as they were |
| VistaCertificado.IntegrityRemoveCertificado | API-Proyect1.1/backend/vistas/vista_certificado.py:206-208 | Deleting a certificate together with its sheets keeps every constraint |
| VistaCertificado.DeleteCertificado | API-Proyect1.1/backend/vistas/vista_certificado.py:202-210 | 404 and no change for an unknown id. Otherwise 204, with the certificate and its sheets gone and every other table unchanged |
| VistaCertificado.PatchCertificado | API-Proyect1.1/backend/vistas/vista_certificado.py:243-251 | Only the keys present in the body change, and the order link never does |
| VistaCertificado.PatchCertificadoIdempotent | API-Proyect1.1/backend/vistas/vista_certificado.py:243-251 | Applying the same edit twice is the same as once |
| VistaCertificado.PatchCertificadoFull | API-Proyect1.1/backend/vistas/vista_certificado.py:243-251 | An edit that sends all three keys gives the same row whatever the row held before, for the same order |
| VistaCertificado.IntegrityPatchCertificado | API-Proyect1.1/backend/vistas/vista_certificado.py:253 | An edit whose new user exists keeps every constraint |
| VistaCertificado.PutCertificado | API-Proyect1.1/backend/vistas/vista_certificado.py:236-258 | 404 for an unknown certificate. 400 when the body names a user that does not exist. Otherwise 200, with only that certificate replaced by its edit; on 404 and 400 nothing changes |
| Auth.FindRol | API-Proyect1.1/backend/vistas/auth.py:13 | The role found has the given name; none is found exactly when no role has it |
| Auth.FindUsuario | API-Proyect1.1/backend/vistas/auth.py:41 | The user found is the first with the given name; none exactly when no user has it |
| Auth.NuevoUsuario | API-Proyect1.1/backend/vistas/auth.py:17-23 | A registered account stores the hash of its password, and that password verifies |
| Auth.AddUsuario | API-Proyect1.1/backend/vistas/auth.py:24-25 | Adding a user whose role exists commits exactly that user under a fresh key |
| Auth.Registro | API-Proyect1.1/backend/vistas/auth.py:8-32 | 400 exactly when a key is missing or no role has the name. 500 when the password is null. Otherwise 201: exactly one user is added, with that role and a hash that verifies the password |
| Auth.Login | API-Proyect1.1/backend/vistas/auth.py:34-55 | 400 exactly when a key is missing. 401 exactly when no user has the name or the password is wrong. 200 exactly when it is right and the role resolves, with a token whose identity reads back as the user's key and whose `rol` is the role's name. Nothing changes |
| Auth.RegisteredUserFound | API-Proyect1.1/backend/vistas/auth.py:41-43 | A user registered under a fresh name is the one a login with that name finds, and the registered password is accepted |
| VistasUsuarios.AdminGate | API-Proyect1.1/backend/vistas/vistas_usuarios.py:16-29 | No token gives 401, a token without a `rol` claim gives 403, and a refusal is always 401, 403 or 500 |
| VistasUsuarios.AdminGateIff | API-Proyect1.1/backend/vistas/vistas_usuarios.py:25 | The gate lets a request through exactly when the `rol` claim spells "admin" in any mix of cases |
| VistasUsuarios.AdminRolTokenGranted | API-Proyect1.1/backend/vistas/vistas_usuarios.py:25 | A login token for a user of the "Admin" role passes the administrator gate |
| VistasUsuarios.ViewHidesHash | API-Proyect1.1/backend/vistas/vistas_usuarios.py:83-89 | What is shown of a user never depends on the password hash |
| VistasUsuarios.ListFromEntries | API-Proyect1.1/backend/vistas/vistas_usuarios.py:82-89 | Every listed entry is the view of an existing row in range |
| VistasUsuarios.ListFromIncreasing | API-Proyect1.1/backend/vistas/vistas_usuarios.py:82-89 | Listed keys strictly increase |
| VistasUsuarios.ListFromComplete | API-Proyect1.1/backend/vistas/vistas_usuarios.py:82-89 | Every row in range is listed |
| VistasUsuarios.ListUsuarios | API-Proyect1.1/backend/vistas/vistas_usuarios.py:82-89 | The listing shows every user exactly once, in key order, as the view of its row |
| VistasUsuarios.RegistrarUsuario | API-Proyect1.1/backend/vistas/vistas_usuarios.py:32-67 | The gate's refusal is passed on. Behind it the status is 201, 400 or 500. It is 400 exactly when the role id names no role or a key is missing. Otherwise it is 201 exactly when the password is not null, and 500 when it is. 201 adds exactly one user with the hashed password and echoes its view; otherwise nothing changes |
| VistasUsuarios.GetUsuarios | API-Proyect1.1/backend/vistas/vistas_usuarios.py:72-94 | The gate's refusal is passed on with an empty list; otherwise 200 with the listing of all users |
| VistasUsuarios.GetUsuario | API-Proyect1.1/backend/vistas/vistas_usuarios.py:98-113 | Behind the gate: 404 exactly for an unknown id, else 200 with that user's view |
| VistasUsuarios.PatchUsuario | API-Proyect1.1/backend/vistas/vistas_usuarios.py:122-129 | Only the keys present in the body change, never the password hash |
| VistasUsuarios.PatchUsuarioIdempotent | API-Proyect1.1/backend/vistas/vistas_usuarios.py:122-129 | Applying the same edit twice is the same as once |
| VistasUsuarios.IntegrityReplaceUsuario | API-Proyect1.1/backend/vistas/vistas_usuarios.py:130 | Replacing a user's columns keeps every constraint when its role exists |
| VistasUsuarios.PutUsuario | API-Proyect1.1/backend/vistas/vistas_usuarios.py:115-137 | Behind the gate the status is 200, 404 or 500. It is 404 exactly for an unknown id. It is 500, with nothing changed, exactly when a present `rol_id` names no role. A null `rol_id` gives 200 and clears the role. Otherwise it is 200, with only that user replaced by its edit and the view echoed |
| VistasUsuarios.Nullify | API-Proyect1.1/backend/vistas/vistas_usuarios.py:145 | Deleting a user sets the `usuario_id` of exactly that user's rows to NULL, in orders and certificates alike, and keeps every row's key |
| VistasUsuarios.RemoveUsuario | API-Proyect1.1/backend/vistas/vistas_usuarios.py:145 | Only the user row goes, plus the nulling of references to it; other tables are untouched |
| VistasUsuarios.IntegrityRemoveUsuario | API-Proyect1.1/backend/vistas/vistas_usuarios.py:145-146 | The deletion commits exactly when the user holds no certificate |
| VistasUsuarios.RemoveUsuarioNonNull | API-Proyect1.1/backend/vistas/vistas_usuarios.py:146 | Without certificates of the user, no NOT NULL column is broken |
| VistasUsuarios.RemoveUsuarioForeignKeys | API-Proyect1.1/backend/vistas/vistas_usuarios.py:146 | After the deletion every foreign key still resolves |
| VistasUsuarios.DeleteUsuario | API-Proyect1.1/backend/vistas/vistas_usuarios.py:139-147 | Behind the gate the status is 200, 404 or 500. It is 404 exactly for an unknown id. It is 500, with nothing changed, exactly when the user holds certificates. Otherwise it is 200, with the user removed and its orders detached |
| VistasUsuarios.IdentityUser | API-Proyect1.1/backend/vistas/vistas_usuarios.py:160-161 | The profile's user is an existing row whose key the token identity reads back as |
| VistasUsuarios.LoginIdentityFindsUser | API-Proyect1.1/backend/vistas/vistas_usuarios.py:160-161 | The token a login issues leads the profile endpoints back to the same user |
| VistasUsuarios.ObtenerPerfil | API-Proyect1.1/backend/vistas/vistas_usuarios.py:154-168 | 200 with the view of the token's user exactly when it exists, else 404 |
| VistasUsuarios.PatchPerfil | API-Proyect1.1/backend/vistas/vistas_usuarios.py:182-187 | A profile edit never changes the role or the password hash |
| VistasUsuarios.PatchPerfilIgnoresRol | API-Proyect1.1/backend/vistas/vistas_usuarios.py:182-187 | A profile edit is the administrator's edit with `rol_id` ignored |
| VistasUsuarios.ActualizarPerfil | API-Proyect1.1/backend/vistas/vistas_usuarios.py:172-199 | 404 exactly when the token's user does not exist. Otherwise 200, with only that user's name, address and phone edited |
| VistasUsuarios.CambiarContrasena | API-Proyect1.1/backend/vistas/vistas_usuarios.py:203-220 | 401 without a token. 400 when the new password is missing or empty. 404 for an unknown user. Otherwise only the hash changes, and afterwards exactly the new password verifies |

## Left out

- Flask routing, CORS, the Swagger descriptions and the `OPTIONS` branches of the profile routes are not modelled. Every handler is a method called with the decoded body and claims.
- JWT signing, expiry and decoding are not modelled. A token is its claims, and a missing token is `None`. On routes with `@jwt_required()`, the JWT library refuses a missing token with 401, and the model returns that 401 when the claims are `None`. Only the two profile routes, which use `@jwt_required(optional=True)`, let a missing token through, as no identity (404). An invalid or expired token is refused by the library (401 or 422) before any handler runs, so it never reaches the model.
- The password hash is symbolic. The salt that werkzeug draws at random is a parameter, and the hash is idealised as collision-free.
- Bodies that are not JSON objects are not modelled, nor are list items that are not objects.
- The `id` and `orden_servicio_id` keys of a `tipo_servicio` body are not modelled. `TipoServicio(**...)` accepts both, because they are mapped columns, and the model always stages the type with no key of its own and no order. In the source, an `orden_servicio_id` naming an existing order links the type to that order; one naming no order fails the foreign key at the flush (500 after a rollback); an `id` already taken fails as a duplicate key (500). Keys that map to no column are not modelled either; in the source they make the constructor raise TypeError (500).
- Value types are not checked. A body field carries a value of the column's type, or null.
- Dates are kept as text. MySQL's parsing of date strings, `strftime`, the `String(n)` length limits and the collation's case-insensitive comparison are not modelled.
- `Usuario.query.get(x)` coerces a non-integer key in the driver; only integer keys and decimal identities are modelled.
- `Query.all()` and `.first()` are taken in key order; MySQL gives no order without `ORDER BY`.
- A rolled-back insert here gives its key back. MySQL's autoincrement counter does not, so keys after a failed issuance may differ from MySQL's.
- The `Categoria` table and the `detalle_servicio_has_orden_servicio` association table are not modelled. No handler in the core inserts into them.
- VistasUsuarios.DeleteUsuario: does not show that the deletion also sets `usuario_id` to NULL in the user's categories, because the `Categoria` table is not modelled. That column is nullable, so this does not change when the commit succeeds.
- The marshmallow schemas and the serialisation of certificates are not modelled. A certificate is returned as its row, and the 201 of an issuance as the keys of the rows it created.
- Template loading, `os.path` checks, `doc.save` and the debug prints are not modelled. The template is the `plantilla` parameter (`None` when the file is missing), and the filled document is returned.
- The listing of certificates and the download endpoints are not modelled. Nor are `vista_rol.py`, `vista_login.py`, `app.py`, the package `__init__` wiring and the copies of the views at the top of the repository.
- Logging is not modelled.
- Two handlers register `POST /registro` on the same blueprint. Which one Flask dispatches to is a matter of registration order; each is modelled on its own (`Auth.Registro`, `VistasUsuarios.RegistrarUsuario`).
- Concurrent requests and the isolation between them are not modelled. Each handler runs alone against the session.
- `Strings.Lower` only folds ASCII letters. Python's `str.lower()` also folds other scripts, which matters for the `rol` claim only if a role name has non-ASCII capitals.
- Modelos.SetContrasena: modelled as a function on row values rather than a property setter on a mapped object.
