# Users, groups and facial login of the municipal intranet, in Dafny

This project models the `usuarios` app of the intranet and proves properties of that model. It covers five parts:

- **Groups (`Grupo`).** Groups form a hierarchy through an optional parent group. The model covers the full path text, the depth, the cycle check that `clean` runs, the recursive list of subgroups and the user counts.
- **Users (`Usuario`).** A user has one primary group and a set of secondary groups. The model covers the membership queries, the rule that the primary may not also be secondary, and the automatic fix applied on save.
- **Admin and forms.** The checks of the admin and creation forms, the display columns, and the group texts of the profile form.
- **Facial security (`FacialSecurityManager`).** The attempt limiter over the cache and the lazily built cipher. The login flow either verifies one given user or identifies the best match among all enrolled users. Enrolment is also modelled.
- **Foreign libraries.** The face libraries, Fernet and pickle are inputs to the model: the fields of `FacialSecurity.Foreign` and the sealed tokens of `Cifra`.

Files and modules:

| file | module | models |
|---|---|---|
| `wrappers.dfy` | `Wrappers` | `Option`, `Result`, `Outcome` |
| `text.dfy` | `Text` | `' > '.join`, `c * n`, `str(n)`, many-to-many removal, primary keys |
| `validacao.dfy` | `Validacao` | Django's `ValidationError`, form-wide or attached to one field |
| `grupos.dfy` | `Grupos` | `Grupo` in `usuarios/models.py` |
| `usuarios.dfy` | `Usuarios` | `Usuario` in `usuarios/models.py`, and the per-group user counts |
| `admin.dfy` | `Admin` | `usuarios/admin.py` |
| `forms.dfy` | `Forms` | `usuarios/forms.py` |
| `cifra.dfy` | `Cifra` | Fernet over pickle: an authenticated token opens only under its key |
| `attempt_cache.dfy` | `Cache` | the Django cache entries used by the limiter, with expiry |
| `facial_security.dfy` | `FacialSecurity` | `FacialSecurityManager` in `usuarios/facial_security.py` |

How the model represents the system:

- **Groups.** The group table is a map from primary key to `Grupo(nome, grupoPai, ativo)`.
- **Ancestor chain.** The ancestors of a group are its chain: the group, its parent, its grandparent, and so on up to a root.
  - `Rooted` holds when this chain ends, that is, when no cycle lies above the group.
  - `Forest` says that every group is rooted: the table has no cycle. This is the invariant that `Grupo.clean` keeps, since it refuses every parent that would close a cycle.
  - The walks without a visited set are modelled for tables that keep that invariant. `__str__`, `get_hierarquia_completa` and `get_nivel_hierarquia` require their group to be rooted; `get_todos_subgrupos` requires `Forest`. On a cycle the two `while` loops (`get_hierarquia_completa`, `get_nivel_hierarquia`) run forever, and the two recursions (`__str__`, `get_todos_subgrupos`) end in Python's `RecursionError`.
  - `Grupo.clean` has a visited set. It only requires that every parent key is present in the table.
- **Subgroups.** `subgrupos.all()` lists the children in the table's `ordering`. That ordering is given as a sequence of keys.
- **Users.** A user is a class whose fields the operations update. The secondary groups are a sequence without repeats, because the many-to-many table holds each pair once.
- **Attempt counters.** The user's own counter methods are not defined in the files modelled here. The model records the calls made to them, in order.
- **Cache and clock.** The cache is a class holding a map from key to `Entry(value, expiresAt)`. An entry is seen while the clock is before its expiry. The clock is an explicit integer parameter.

## Model

| member | source | states |
|---|---|---|
| Grupos.Str | usuarios/models.py:26-29 | the text ends with the group's own name, is only that name at a root, and is at least as long as one separator per proper ancestor plus the name |
| Grupos.StrIsPath | usuarios/models.py:26-29 | `__str__` is the names of the ancestor chain, root first, joined by `' > '`; it has one name per level plus one and ends with the group's own name |
| Grupos.GetHierarquiaCompleta | usuarios/models.py:31-38 | the loop that prepends each name while walking up returns the root-first path joined by `' > '`, the same text as `__str__` |
| Grupos.LevelOfParent | usuarios/models.py:63-70 | the depth is 0 exactly for a group without parent, and otherwise one more than the parent's depth |
| Grupos.GetNivelHierarquia | usuarios/models.py:63-70 | the counting loop returns the number of proper ancestors; 0 exactly when there is no parent |
| Grupos.Clean | usuarios/models.py:40-54 | refuses a group as its own parent (exactly when saved and parent == self); passes exactly when there is no parent, or the parent's chain ends without meeting the group's key; 'este grupo está na sua própria hierarquia pai' exactly when a saved group is not its own parent and the walk up from the parent reaches the group's key before it revisits any group; the revisit error comes only from a parent whose chain never ends, and is the error for every such parent of an unsaved group |
| Grupos.Filhos | usuarios/models.py:58 | the children are exactly the groups of the table whose parent is the group |
| Grupos.SubgruposExact | usuarios/models.py:56-61 | in a forest, the recursive list contains exactly the proper descendants, each once |
| Grupos.GetTodosSubgrupos | usuarios/models.py:56-61 | the method builds the list of children extended by each child's subgroups; it has exactly the proper descendants, without repeats, direct children first |
| Usuarios.Usuario.Clean | usuarios/models.py:113-129 | refuses a missing primary group and an inactive one, and for a saved user a primary that is also secondary; passes exactly when none of these holds |
| Usuarios.Usuario.GetTodosGrupos | usuarios/models.py:131-135 | for a saved user with a primary: the primary first, followed by exactly the secondaries; membership is primary or secondary |
| Usuarios.Usuario.PertenceGrupo | usuarios/models.py:146-150 | a user always belongs to its primary group; a saved user belongs to a group exactly when it is in the list of all the user's groups |
| Usuarios.Usuario.ValidarSetoresUnicos | usuarios/models.py:157-172 | with the primary set: True exactly when there is no duplication (always for an unsaved user); otherwise False, or the error naming the primary when asked to raise |
| Usuarios.Usuario.CorrigirSetoresDuplicados | usuarios/models.py:186-194 | with the primary set: for a saved user, the secondaries lose the primary and keep every other group in order; afterwards no duplication remains |
| Usuarios.Usuario.Save | usuarios/models.py:174-184 | a saved user gets the result of `clean`, keeps its key and, when that passes, has no duplication; a new user gets the key from the store; in every case the correction finds nothing to remove, so the secondaries are unchanged |
| Usuarios.CleanPassesValidation | usuarios/models.py:113-172 | a user passing `clean` passes `validar_setores_unicos` and belongs to its primary group |
| Usuarios.Usuario.ResetarTentativasFacial | usuarios/facial_security.py:235 | a call to the user's reset is recorded once, after the earlier calls |
| Usuarios.Usuario.IncrementarTentativasFacial | usuarios/facial_security.py:244 | a call to the user's increment is recorded once, after the earlier calls |
| Usuarios.ContarPrimarios | usuarios/models.py:72-74 | at most the number of users; 0 exactly when no user has the group as primary, and all of them exactly when every user has |
| Usuarios.ContarSecundarios | usuarios/models.py:76-78 | at most the number of users; 0 exactly when no user has the group among the secondaries, and all of them exactly when every user has |
| Usuarios.GetTotalUsuarios | usuarios/models.py:80-82 | at most twice the number of users, and 0 exactly when no user belongs to the group |
| Usuarios.TotalUsuariosContaMembros | usuarios/models.py:72-82 | primary count plus secondary count counts each member once, plus once more for each user with the group as both primary and secondary |
| Admin.UsuarioAdminClean | usuarios/admin.py:13-32 | refuses a missing primary, then an inactive primary, then a primary among the secondaries (error on `grupos_secundarios`); otherwise the data come back unchanged |
| Admin.UsuarioAdminCleanAgreesWithModel | usuarios/admin.py:13-32 | for a saved user the admin form accepts exactly what `Usuario.clean` accepts |
| Admin.CleanGrupoPai | usuarios/admin.py:40-48 | as written: for a saved instance and a parent, refuses the instance itself and any parent the instance descends from; otherwise returns the parent |
| Admin.ComoEscritoRejeitaPaiAtual | usuarios/admin.py:46-47 | as written, a child group saved with its current parent is refused, though that parent is not its subgroup |
| Admin.ComoEscritoAceitaDescendente | usuarios/admin.py:46-47 | as written, a group's own child passes as its new parent |
| Admin.ExemploDoisGrupos | usuarios/admin.py:40-48 | with "B" under "A": editing "B" with parent "A" is refused; editing "A" with parent "B" passes |
| Admin.ExemploCleanPegaCiclo | usuarios/models.py:40-54 | in the same table, `Grupo.clean` refuses "A" under "B" with 'este grupo está na sua própria hierarquia pai' |
| Admin.CleanGrupoPaiCorrigido | usuarios/admin.py:40-48 | corrected: refuses the instance itself and exactly the instance's subgroups |
| Admin.CorrigidoConcordaComClean | usuarios/admin.py:40-48 | the corrected check refuses exactly the parents whose chain contains the group, which `Grupo.clean` refuses |
| Admin.ExibirHierarquia | usuarios/admin.py:75-79 | the bare name at level 0; at level n > 0, n dashes, a space, then the name |
| Admin.ContagemUsuarios | usuarios/admin.py:100-110 | the decimal count (reading back as the count), then " usuário", with a final `s` exactly when the count is not 1 |
| Admin.ExibirUsuariosPrimarios | usuarios/admin.py:100-104 | shows the number of users having the group as primary, plural exactly when it is not 1 |
| Admin.ExibirUsuariosSecundarios | usuarios/admin.py:106-110 | shows the number of users having the group as secondary, plural exactly when it is not 1 |
| Admin.ExibirGrupoPrimario | usuarios/admin.py:142-146 | the primary's full path, read from the root down and joined by ` > ` |
| Forms.CleanPassword2 | usuarios/forms.py:112-117 | refuses exactly when both passwords are non-empty and differ; otherwise returns the second |
| Forms.CleanGrupoPrimario | usuarios/forms.py:119-125 | refuses a missing or inactive primary with its message; otherwise returns it |
| Forms.CleanGruposSecundarios | usuarios/forms.py:127-133 | the scan refuses exactly when some chosen group is inactive, naming the first one; otherwise returns the choice unchanged |
| Forms.CreateFormClean | usuarios/forms.py:135-148 | refuses exactly when the primary is among the secondaries, with the error on `grupos_secundarios` |
| Forms.CreateFormAgreesWithModel | usuarios/forms.py:119-148 | the three group checks of the creation form accept exactly what `Usuario.clean` accepts, with every secondary active and the primary not secondary; for a saved user that is `clean` plus active secondaries; for a user not yet saved the form refuses a duplicate that `clean` lets through |
| Forms.PerfilUsuarioForm.constructor | usuarios/forms.py:40-60 | saved user: primary path or 'Não definido', secondary paths joined by ', ' or 'Nenhum setor secundário', both placeholders after a read failure; unsaved: both unset |
| Cifra.Decrypt | usuarios/facial_security.py:68-76 | a token opens exactly when it was sealed under the same key, and then to what was sealed |
| Cifra.WrongKeyFails | usuarios/facial_security.py:68-76 | a token sealed under another key does not open |
| Cache.Bump | usuarios/facial_security.py:179-184 | the key gets the live count plus one, expiring `timeout` after now; other keys keep their entries |
| Cache.ReplayCount | usuarios/facial_security.py:179-184 | increments that each come before the previous expires add up: the count live at the first plus their number, expiring after the last |
| Cache.ReplayIsolated | usuarios/facial_security.py:179-184 | increments for one user never change another user's entry |
| FacialSecurity.FacialSecurityManager.constructor | usuarios/facial_security.py:25-32 | the settings with defaults 0.6, 3 and 300, and no cipher yet |
| FacialSecurity.FacialSecurityManager.Cipher | usuarios/facial_security.py:34-46 | returns the cipher for the configured key, or the key derived from `SECRET_KEY` when none is set; it is built once and kept, and nothing is cached when the key is refused |
| FacialSecurity.FacialSecurityManager.Criptografado | usuarios/facial_security.py:48-61 | None for None and when the cipher cannot be built; otherwise a token that decrypts to the encoding |
| FacialSecurity.FacialSecurityManager.EncryptEncoding | usuarios/facial_security.py:48-61 | the method returns what `Criptografado` specifies and keeps the cached cipher valid |
| FacialSecurity.FacialSecurityManager.Descriptografado | usuarios/facial_security.py:63-76 | an encoding exactly for a token sealed under this manager's cipher, and then the sealed one |
| FacialSecurity.FacialSecurityManager.DecryptEncoding | usuarios/facial_security.py:63-76 | the method returns what `Descriptografado` specifies and keeps the cached cipher valid |
| FacialSecurity.FacialSecurityManager.CriptografiaIdaEVolta | usuarios/facial_security.py:48-76 | whatever `encrypt_encoding` produces, `decrypt_encoding` gives back |
| FacialSecurity.FacialSecurityManager.ExtractFaceEncoding | usuarios/facial_security.py:78-111 | an encoding exactly when the libraries are present, exactly one face is found and an encoding is computed; otherwise the reason |
| FacialSecurity.FacialSecurityManager.CompareFaces | usuarios/facial_security.py:113-135 | a match exactly when the distance is within the tolerance (inclusive, default 1 - threshold); confidence (1 - distance) * 100, unclamped; (False, 0) without libraries or distance |
| FacialSecurity.FacialSecurityManager.MatchSeAtingeLimiar | usuarios/facial_security.py:113-131 | over exact reals, with the default tolerance, a match exactly when the confidence reaches the threshold in percent; distance 0 gives 100 |
| FacialSecurity.FacialSecurityManager.ValidateLiveness | usuarios/facial_security.py:137-167 | refuses exactly a blurred or low-entropy image when the libraries are present; passes without libraries and when the probes raise |
| FacialSecurity.FacialSecurityManager.CheckAttemptLimit | usuarios/facial_security.py:169-177 | blocked exactly when the live count (0 if missing or expired) is at least `max_attempts`; otherwise allowed with that count |
| FacialSecurity.FacialSecurityManager.IncrementAttempts | usuarios/facial_security.py:179-184 | returns the old live count plus one and stores exactly that, expiring `attempt_timeout` from now |
| FacialSecurity.FacialSecurityManager.ResetAttempts | usuarios/facial_security.py:186-189 | deletes the user's key; afterwards the limiter allows with 0 whenever `max_attempts` > 0 |
| FacialSecurity.FacialSecurityManager.BloqueioAposFalhas | usuarios/facial_security.py:169-189 | a burst of failures locks the user out once it reaches `max_attempts`, for `attempt_timeout` after the last; afterwards the count is 0 again |
| FacialSecurity.FacialSecurityManager.Preparar | usuarios/facial_security.py:195-211 | an encoding exactly when liveness passes and extraction succeeds; a failure carries the liveness or extraction message, never empty |
| FacialSecurity.FacialSecurityManager.VereditoUsuario | usuarios/facial_security.py:214-232 | not configured exactly when the flag is off or nothing is stored; compared exactly when the stored token decrypts, against that encoding |
| FacialSecurity.FacialSecurityManager.VerificarUsuario | usuarios/facial_security.py:214-251 | a match logs the user in and resets both counters; a non-match increments both once; not configured or unreadable changes neither; the limit is not checked |
| FacialSecurity.Melhor | usuarios/facial_security.py:259-271 | a selected candidate matched with positive confidence equal to the best; with no selection the best is 0 |
| FacialSecurity.MelhorCaracterizado | usuarios/facial_security.py:259-271 | the selected candidate has the greatest confidence among matches, earlier matches are strictly lower (ties keep the earlier); none is selected exactly when no match has positive confidence |
| FacialSecurity.FacialSecurityManager.Identificar | usuarios/facial_security.py:259-271 | the loop, which skips candidates that do not decrypt, returns the selection `Melhor` makes over the candidates' scores |
| FacialSecurity.FacialSecurityManager.Cadastrados | usuarios/facial_security.py:254-257 | the candidates are exactly the users with the flag on and a stored encoding |
| FacialSecurity.FacialSecurityManager.ScoresAt | usuarios/facial_security.py:262-267 | the score at each position is that candidate's stored encoding decrypted and compared with the probe, or nothing when it does not decrypt |
| FacialSecurity.FacialSecurityManager.Vencedor | usuarios/facial_security.py:253-273 | a selected user is in the table, has the flag on and a stored encoding, and a user is selected exactly when the loop's selection picks an index |
| FacialSecurity.FacialSecurityManager.IdentificarEntre | usuarios/facial_security.py:253-288 | the selected user is logged in with the best confidence, its cache key is deleted and its counter log gains one reset; every other user and every user's fields stay as they were; with no selection 'Usuário não identificado' with confidence 0 and nothing changes |
| FacialSecurity.FacialSecurityManager.ProcessFacialLogin | usuarios/facial_security.py:191-288 | liveness or extraction failure: no counter touched; with a user: the single-user outcome; otherwise the best match is logged in and its counters reset, or 'Usuário não identificado' with confidence 0 and no counter touched |
| FacialSecurity.FacialSecurityManager.Registro | usuarios/facial_security.py:290-305 | a token exactly when liveness, extraction and encryption succeed, and it decrypts to the extracted encoding; otherwise a non-empty message |
| FacialSecurity.FacialSecurityManager.RegisterFace | usuarios/facial_security.py:290-312 | a liveness, extraction or encryption failure returns its message and leaves the user unchanged; otherwise the token, the flag and the enrolment time are set, and the save that follows raises for a user without a key, raises `clean`'s error for a saved user that fails it, and otherwise succeeds with 'Face cadastrada com sucesso' and leaves the secondaries unchanged |
| FacialSecurity.FacialSecurityManager.CadastroHabilitaVerificacao | usuarios/facial_security.py:290-312 | after enrolment the single-user login reaches the comparison, against exactly the encoding extracted at enrolment |

## Left out

- Image processing is not modelled: colour conversion, Laplacian variance and histogram entropy. Liveness is an oracle returning one of four probe outcomes.
- Face detection, encoding and distance are foreign calls. Detection is represented by the number of faces found, encoding by the encodings computed at that face, and distance by an optional real.
- Fernet and pickle are modelled as sealed tokens. The random IV, the byte format and the base64 key derivation from `SECRET_KEY` are foreign. The derived key and whether `Fernet(key)` accepts a key are inputs.
- The text of messages with formatted numbers (`{confidence:.1f}`, `Limite de {n} tentativas`) and `get_full_name()` is not modelled. Such messages are constructors carrying their values.
- The ORM is replaced by sequences. Query order, `.count()` and `.exists()` are represented by the table given as a sequence and by counts over it. Writing rows (`super().save()`) is not modelled, apart from the key a new user receives; the checks that `Usuario.save` runs before writing are modelled, including inside `register_face`.
- Usuarios.Usuario.Save: a key given explicitly to a row that is still being added (`_state.adding`) is not distinguished from a saved row. A new user's secondaries stand for the choice a form writes after `save` returns; the correction on save finds no rows then, so no absence of duplication is promised for a new user. `UsuarioCreateForm.clean` and the admin change form (`UsuarioAdminForm`) reject that choice beforehand, but the admin add page builds its form from `UserAdmin.add_form`, not from `UsuarioAdminForm`, while still offering both group fields; a user added there can keep its primary among its secondaries, and nothing corrects it. Saving a new user without a primary fails in the database (NOT NULL) and is excluded by a precondition.
- Usuarios.Usuario.GetTodosGrupos, Usuarios.Usuario.PertenceGrupo, Usuarios.Usuario.ValidarSetoresUnicos, Usuarios.Usuario.CorrigirSetoresDuplicados, Admin.ExibirGrupoPrimario: reading the required primary while it is unset raises `RelatedObjectDoesNotExist`, and reading the secondaries of an unsaved user raises `ValueError`. These exceptions are not modelled; the preconditions exclude the calls that raise them. The `-` branch of `exibir_grupo_primario` is therefore never taken.
- `timezone.now()` and the cache's clock are an integer parameter.
- A cache timeout of `None` (never expires) is not modelled.
- Concurrency between requests racing on the counters is not modelled.
- Logging and `print` are not modelled.
- `processar_nova_foto_usuario` is not modelled: it is file I/O around `register_face`.
- usuarios/views.py and usuarios/urls.py are not part of this model.
- Widgets, querysets restricted to active groups, fieldsets, `get_queryset`, `has_module_permission`, and the password handling in `UsuarioCreateForm.save` are not modelled.
- `get_grupos_hierarquia` and `get_permissoes_grupos` are not modelled.
- FacialSecurity.FacialSecurityManager.MatchSeAtingeLimiar, FacialSecurity.FacialSecurityManager.CompareFaces: distance, tolerance and confidence are exact reals, so the rounding of floating-point numbers at the threshold is lost. For instance, with threshold 0.7 and distance 0.30000000000000010 the comparison `distance <= 1 - threshold` and the confidence test can disagree in floating point.
- Usuarios.Usuario.CorrigirSetoresDuplicados: the secondaries are a list without repeats, so removing the primary once and filtering it out coincide.
- FacialSecurity.FacialSecurityManager.ProcessFacialLogin: as in the source, it never consults `check_attempt_limit`, so a blocked user can still log in by face. The model keeps this behaviour.
- Forms.PerfilUsuarioForm.constructor: the `try` can fail part-way. Every failure leads to both placeholders, so the model uses one flag for "reading the groups raised".
- Grupos.Str, Grupos.GetHierarquiaCompleta, Grupos.GetNivelHierarquia: require the group to be rooted. On a parent chain with a cycle, `__str__` ends in `RecursionError` and the two `while` loops never end; neither outcome is modelled.
- Grupos.GetTodosSubgrupos: requires `Forest`, a table with no cycle at all. The source's recursion fails (`RecursionError`) only when the start group lies on a cycle; a cycle elsewhere in the table does not affect it, and such tables are not modelled.
- Admin.CleanGrupoPai: requires `Forest`, because it calls `get_todos_subgrupos` on the proposed parent. The case where that parent lies on a cycle, and the form then fails with `RecursionError`, is not modelled. The same holds for Admin.CleanGrupoPaiCorrigido.

## Findings

| source | as written | input that shows it | evidently intended | confidence | as-written member | corrected member |
|---|---|---|---|---|---|---|
| usuarios/admin.py:46 | the check tests whether the instance is among the proposed parent's subgroups | groups "A" (key 1, root) and "B" (key 2, parent "A"). (1) Editing "B" and keeping its parent "A" is refused with 'Não é possível definir um subgrupo como pai.', although nothing changed. (2) Editing "A" with parent "B" passes this check, although it closes a cycle. `Grupo.clean` catches that cycle later, with another message | refuse a parent that is one of the instance's subgroups (the proposed parent among the instance's subgroups) | not executed; high | Admin.CleanGrupoPai, Admin.ComoEscritoRejeitaPaiAtual | Admin.CleanGrupoPaiCorrigido |
