/** The person-management screen of src/pages/Personas.js: who may edit, which rows and
    roles a session sees, the search box, and the guards and request built by the open,
    save and delete actions. The session role `auth.rol` is a parameter; requests are
    returned instead of sent. */
module Personas {
  import opened Js
  import opened Text
  import opened Seqs

  predicate IsAdmin(authRol: Json) {
    authRol == Str("admin")
  }

  predicate IsMedico(authRol: Json) {
    authRol == Str("medico")
  }

  /** `canEdit = isAdmin || isMedico` */
  predicate CanEdit(authRol: Json)
    ensures CanEdit(authRol) <==> authRol == Str("admin") || authRol == Str("medico")
  {
    IsAdmin(authRol) || IsMedico(authRol)
  }

  /** `p.rol === "padre" || p.rol === "hijo"`: the roles a medico may manage. */
  predicate IsPatientRole(rol: Json) {
    rol == Str("padre") || rol == Str("hijo")
  }

  /** `filtrarVisibles(data)`: a medico sees only parents and children, anyone else all rows. */
  function FiltrarVisibles(authRol: Json, data: seq<Record>): (r: seq<Record>)
    ensures IsMedico(authRol) ==> forall p :: p in r <==> p in data && IsPatientRole(Get(p, "rol"))
    ensures !IsMedico(authRol) ==> r == data
    ensures IsSubsequence(r, data)
  {
    if IsMedico(authRol) then
      FilterIsSubsequence(data, p => IsPatientRole(Get(p, "rol")));
      Filter(data, p => IsPatientRole(Get(p, "rol")))
    else
      SubsequenceOfSelf(data);
      data
  }

  /** `rolesDisponibles()`: the roles the form offers. */
  function RolesDisponibles(authRol: Json): (r: seq<string>)
    ensures IsAdmin(authRol) ==> r == ["admin", "medico", "padre", "hijo"]
    ensures IsMedico(authRol) ==> r == ["padre", "hijo"]
    ensures !CanEdit(authRol) ==> r == []
  {
    if IsAdmin(authRol) then ["admin", "medico", "padre", "hijo"]
    else if IsMedico(authRol) then ["padre", "hijo"]
    else []
  }

  /** A session may edit exactly when the form offers it some role. */
  lemma CanEditIffSomeRole(authRol: Json)
    ensures CanEdit(authRol) <==> RolesDisponibles(authRol) != []
  {
  }

  /** The rows a medico sees carry exactly the roles the form lets the medico assign. */
  lemma MedicoSeesAssignableRoles(data: seq<Record>, p: Record)
    requires p in FiltrarVisibles(Str("medico"), data)
    ensures Get(p, "rol").Str? && Get(p, "rol").s in RolesDisponibles(Str("medico"))
  {
    assert IsPatientRole(Get(p, "rol"));
  }

  /** `(p.f || "")`, the text of a field the search looks at. */
  function SearchField(p: Record, f: string): string {
    FalsyToEmpty(Get(p, f))
  }

  /** The search test one row passes for the normalized text `texto`. */
  predicate MatchesTexto(p: Record, texto: string) {
    Contains(Lower(SearchField(p, "nombres")), texto) ||
    Contains(Lower(SearchField(p, "apellidos")), texto) ||
    Contains(Lower(SearchField(p, "numero_documento")), texto)
  }

  /** `personasFiltradas` */
  function PersonasFiltradas(personas: seq<Record>, busqueda: string): (r: seq<Record>)
    ensures Lower(Trim(busqueda)) == "" ==> r == personas
    ensures Lower(Trim(busqueda)) != "" ==>
      forall p :: p in r <==> p in personas && MatchesTexto(p, Lower(Trim(busqueda)))
    ensures IsSubsequence(r, personas)
  {
    var texto := Lower(Trim(busqueda));
    FilterIsSubsequence(personas, p => texto == "" || MatchesTexto(p, texto));
    if texto == "" then
      FilterKeepsAll(personas, p => texto == "" || MatchesTexto(p, texto));
      Filter(personas, p => texto == "" || MatchesTexto(p, texto))
    else
      Filter(personas, p => texto == "" || MatchesTexto(p, texto))
  }

  /** The fields of the modal's form. */
  datatype PersonaForm = PersonaForm(nombres: Json, apellidos: Json, numero_documento: Json, rol: Json, password: Json)

  /** What opening the edit modal does. */
  datatype EditOutcome = EditDenied(warning: string) | Editing(editando: Record, form: PersonaForm)

  /** `abrirEditar(p)`: a medico is refused a person who is not a parent or child; otherwise
      the form is loaded from the person with an empty password. */
  function AbrirEditar(authRol: Json, p: Record): (r: EditOutcome)
    ensures r.EditDenied? <==> IsMedico(authRol) && !IsPatientRole(Get(p, "rol"))
    ensures r.Editing? ==> r.editando == p && r.form.password == Str("")
    ensures r.Editing? ==> (r.form.nombres == Get(p, "nombres") && r.form.apellidos == Get(p, "apellidos") &&
      r.form.numero_documento == Get(p, "numero_documento") && r.form.rol == Get(p, "rol"))
  {
    if IsMedico(authRol) && !IsPatientRole(Get(p, "rol")) then
      EditDenied("No tienes permisos para editar este usuario.")
    else
      Editing(p, PersonaForm(Get(p, "nombres"), Get(p, "apellidos"), Get(p, "numero_documento"), Get(p, "rol"), Str("")))
  }

  datatype HttpMethod = Put | Post

  /** What `guardar` does: a warning and no request, or the request it sends. */
  datatype SaveOutcome = SaveWarning(warning: string) | Send(verb: HttpMethod, path: string, payload: Record)

  /** The guards of `guardar` let the form through: a role is chosen, and a medico chose a
      parent or child. */
  predicate MaySave(authRol: Json, form: PersonaForm) {
    IsTruthy(form.rol) && (!IsMedico(authRol) || IsPatientRole(form.rol))
  }

  /** `payload.password` is set: the role is not "hijo" and a password was typed. */
  predicate SendsPassword(form: PersonaForm) {
    form.rol != Str("hijo") && IsTruthy(form.password)
  }

  /** `guardar(e)`: the two guards, then the payload built field by field, then PUT for an
      edit and POST for a new person. */
  method Guardar(authRol: Json, form: PersonaForm, editando: Option<Record>) returns (out: SaveOutcome)
    ensures IsFalsy(form.rol) ==> out == SaveWarning("Selecciona un rol.")
    ensures IsTruthy(form.rol) && IsMedico(authRol) && !IsPatientRole(form.rol) ==>
      out == SaveWarning("Médico solo puede crear/editar padre o hijo.")
    ensures out.Send? <==> MaySave(authRol, form)
    ensures out.Send? ==> out.verb == (if editando.Some? then Put else Post)
    ensures out.Send? && editando.Some? ==> out.path == "/personas/" + ToStr(Get(editando.value, "id_persona"))
    ensures out.Send? && editando.None? ==> out.path == "/personas/"
    ensures out.Send? ==> (out.payload.Keys ==
      {"nombres", "apellidos", "numero_documento", "rol"} + (if SendsPassword(form) then {"password"} else {}))
    ensures out.Send? ==> (out.payload["nombres"] == form.nombres && out.payload["apellidos"] == form.apellidos &&
      out.payload["numero_documento"] == form.numero_documento && out.payload["rol"] == form.rol)
    ensures out.Send? && SendsPassword(form) ==> out.payload["password"] == form.password
  {
    if IsFalsy(form.rol) {
      return SaveWarning("Selecciona un rol.");
    }
    if IsMedico(authRol) && !IsPatientRole(form.rol) {
      return SaveWarning("Médico solo puede crear/editar padre o hijo.");
    }
    var payload: Record := map[];
    payload := payload["nombres" := form.nombres];
    payload := payload["apellidos" := form.apellidos];
    payload := payload["numero_documento" := form.numero_documento];
    payload := payload["rol" := form.rol];
    if form.rol != Str("hijo") && IsTruthy(form.password) {
      payload := payload["password" := form.password];
    }
    if editando.Some? {
      out := Send(Put, "/personas/" + ToStr(Get(editando.value, "id_persona")), payload);
    } else {
      out := Send(Post, "/personas/", payload);
    }
  }

  /** What `eliminar` does. */
  datatype DeleteOutcome = Cancelled | DeleteWarning(warning: string) | Delete(path: string)

  /** `eliminar(id, rolPersona)`, with the answer to `window.confirm` as `confirmed`. */
  function Eliminar(authRol: Json, id: Json, rolPersona: Json, confirmed: bool): (r: DeleteOutcome)
    ensures !confirmed <==> r == Cancelled
    ensures confirmed && IsMedico(authRol) && !IsPatientRole(rolPersona) <==> r.DeleteWarning?
    ensures r.Delete? ==> r.path == "/personas/" + ToStr(id)
  {
    if !confirmed then Cancelled
    else if IsMedico(authRol) && !IsPatientRole(rolPersona) then
      DeleteWarning("No tienes permisos para eliminar este usuario.")
    else Delete("/personas/" + ToStr(id))
  }

  /** A medico can open, save or delete a person only when that person is a parent or a child
      (for saving, when the role chosen in the form is). */
  lemma MedicoTouchesOnlyPatients(p: Record, form: PersonaForm, id: Json, confirmed: bool)
    ensures AbrirEditar(Str("medico"), p).Editing? ==> IsPatientRole(Get(p, "rol"))
    ensures MaySave(Str("medico"), form) ==> form.rol.s in RolesDisponibles(Str("medico"))
    ensures Eliminar(Str("medico"), id, Get(p, "rol"), confirmed).Delete? ==> IsPatientRole(Get(p, "rol"))
  {
  }
}
