/**
 * The member form: the name must be 2 to 50 UTF-16 units once trimmed and,
 * compared without case, must differ from the name of every other member;
 * submitting sends the trimmed name with the colour and avatar, as an edit of
 * the member being edited or as a new member.
 */
module FormularioMiembro {
  import opened Wrappers
  import opened Tipos
  import opened Texto
  import Reducer
  import Fachada
  import PropiedadesReducer

  const NombreObligatorio := "El nombre es obligatorio"
  const NombreCorto := "El nombre debe tener al menos 2 caracteres"
  const NombreLargo := "El nombre no puede tener más de 50 caracteres"
  const NombreRepetido := "Ya existe un miembro con este nombre"

  /** The length checks on the trimmed name, first failing one first. */
  function ErrorLongitud(nombre: string): Option<string>
  {
    var t := Trim(nombre);
    if t == [] then Some(NombreObligatorio)
    else if Utf16Length(t) < 2 then Some(NombreCorto)
    else if Utf16Length(t) > 50 then Some(NombreLargo)
    else None
  }

  /**
   * Some member other than the one being edited has the name, compared in
   * lower case; `editado` is `None` for a new member, whose id matches no one.
   */
  predicate NombreExiste(ms: seq<Miembro>, nombre: string, editado: Option<string>)
  {
    exists j :: 0 <= j < |ms| && Minusculas(ms[j].nombre) == Minusculas(Trim(nombre))
                && (editado.None? || ms[j].id != editado.value)
  }

  /** `validarFormulario`'s one possible message. */
  function Validar(ms: seq<Miembro>, nombre: string, editado: Option<string>): Option<string>
  {
    if ErrorLongitud(nombre).Some? then ErrorLongitud(nombre)
    else if NombreExiste(ms, nombre, editado) then Some(NombreRepetido)
    else None
  }

  /**
   * `handleSubmit`: nothing when the form is invalid, otherwise the action the
   * store dispatches. A non-empty `editado` edits that member; otherwise a new
   * member is added under the fresh id `idNuevo`.
   */
  function Enviar(ms: seq<Miembro>, nombre: string, color: string, avatar: string,
                  editado: Option<string>, idNuevo: string): Option<Reducer.Accion>
  {
    if Validar(ms, nombre, editado).Some? then None
    else if editado.Some? && editado.value != "" then
      Some(Reducer.EditarMiembro(editado.value, PropiedadesReducer.CambiosDeFormulario(Trim(nombre), color, avatar)))
    else Some(Reducer.AgregarMiembro(Fachada.NuevoMiembro(idNuevo, Trim(nombre), color, avatar)))
  }

  // ---------------------------------------------------------------------------
  // Properties
  // ---------------------------------------------------------------------------

  /**
   * The form is accepted exactly when the trimmed name has 2 to 50 units and no
   * other member has it, ignoring case.
   */
  lemma ValidarSiYSoloSi(ms: seq<Miembro>, nombre: string, editado: Option<string>)
    ensures Validar(ms, nombre, editado).None? <==>
              && 2 <= Utf16Length(Trim(nombre)) <= 50
              && forall j :: 0 <= j < |ms| && Minusculas(ms[j].nombre) == Minusculas(Trim(nombre)) ==>
                   editado.Some? && ms[j].id == editado.value
  {
  }

  /**
   * One message at most, and the duplicate check only speaks once the length
   * checks pass.
   */
  lemma OrdenDeErrores(ms: seq<Miembro>, nombre: string, editado: Option<string>)
    ensures ErrorLongitud(nombre).Some? ==> Validar(ms, nombre, editado) == ErrorLongitud(nombre)
    ensures Validar(ms, nombre, editado) == Some(NombreRepetido) <==>
              ErrorLongitud(nombre).None? && NombreExiste(ms, nombre, editado)
  {
  }

  /** A new member may not reuse an existing name in another case. */
  lemma NombreRepetidoSinCaso(ms: seq<Miembro>, j: int, nombre: string)
    requires 0 <= j < |ms| && Minusculas(ms[j].nombre) == Minusculas(Trim(nombre))
    requires ErrorLongitud(nombre).None?
    ensures Validar(ms, nombre, None) == Some(NombreRepetido)
  {
  }

  /**
   * Saving a member under its own name is never a duplicate of itself: with
   * no other member sharing the name, the edit is accepted.
   */
  lemma EditarSinRenombrar(ms: seq<Miembro>, i: int)
    requires 0 <= i < |ms| && Trim(ms[i].nombre) == ms[i].nombre && ErrorLongitud(ms[i].nombre).None?
    requires forall j :: 0 <= j < |ms| && Minusculas(ms[j].nombre) == Minusculas(ms[i].nombre) ==> ms[j].id == ms[i].id
    ensures Validar(ms, ms[i].nombre, Some(ms[i].id)).None?
  {
  }

  /**
   * An accepted edit changes only the name (trimmed), colour and avatar of the
   * member being edited: every other member and the rest of the state stay.
   */
  lemma EnvioEdicion(s: AppState, nombre: string, color: string, avatar: string, id: string, idNuevo: string, reloj: Reloj)
    requires id != "" && Validar(s.miembros, nombre, Some(id)).None?
    ensures Enviar(s.miembros, nombre, color, avatar, Some(id), idNuevo).Some?
    ensures var s' := Reducer.Reduce(s, Enviar(s.miembros, nombre, color, avatar, Some(id), idNuevo).value, reloj);
      && s' == s.(miembros := s'.miembros)
      && |s'.miembros| == |s.miembros|
      && forall i :: 0 <= i < |s.miembros| ==>
           if s.miembros[i].id == id
           then s'.miembros[i] == s.miembros[i].(nombre := Trim(nombre), color := color, avatar := avatar)
           else s'.miembros[i] == s.miembros[i]
  {
    var a := Reducer.EditarMiembro(id, PropiedadesReducer.CambiosDeFormulario(Trim(nombre), color, avatar));
    assert Enviar(s.miembros, nombre, color, avatar, Some(id), idNuevo) == Some(a);
    PropiedadesReducer.EditarMiembroConservaPuntos(s, id, Trim(nombre), color, avatar, reloj);
  }

  /** An accepted new member joins at the end with 0 points and empty lists under the fresh id. */
  lemma EnvioAlta(s: AppState, nombre: string, color: string, avatar: string,
                  editado: Option<string>, idNuevo: string, reloj: Reloj)
    requires editado.None? || editado.value == ""
    requires Validar(s.miembros, nombre, editado).None?
    ensures Enviar(s.miembros, nombre, color, avatar, editado, idNuevo).Some?
    ensures var s' := Reducer.Reduce(s, Enviar(s.miembros, nombre, color, avatar, editado, idNuevo).value, reloj);
      && s'.miembros == s.miembros + [Miembro(idNuevo, Trim(nombre), color, avatar, 0, [], [], [])]
      && (PuntosNoNegativos(s.miembros) ==> PuntosNoNegativos(s'.miembros))
  {
    var m := Fachada.NuevoMiembro(idNuevo, Trim(nombre), color, avatar);
    assert Enviar(s.miembros, nombre, color, avatar, editado, idNuevo) == Some(Reducer.AgregarMiembro(m));
    assert m == Miembro(idNuevo, Trim(nombre), color, avatar, 0, [], [], []);
  }
}
