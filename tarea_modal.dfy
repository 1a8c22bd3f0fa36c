/**
 * The task form: its validation (a name error and a members error, each at
 * most one message), the member-assignment toggle, the collaborative switch,
 * and the submission, which sends the trimmed name.
 */
module FormularioTarea {
  import opened Wrappers
  import opened Tipos
  import opened Texto
  import Listas

  const NombreObligatorio := "El nombre de la tarea es obligatorio"
  const NombreCorto := "El nombre debe tener al menos 3 caracteres"
  const NombreLargo := "El nombre no puede tener más de 100 caracteres"
  const SinMiembros := "Debe asignar al menos un miembro a la tarea"
  const ColaborativaPocos := "Las tareas colaborativas requieren al menos 2 miembros"
  const ColaborativaNoPermitida := "Selecciona al menos 2 miembros para hacer la tarea colaborativa"

  datatype Errores = Errores(nombre: Option<string>, miembros: Option<string>)

  const SinErrores := Errores(None, None)

  /** What a valid form hands to `agregarTarea` or `editarTarea`. */
  datatype DatosTarea = DatosTarea(nombre: string, puntos: int, frecuencia: Frecuencia,
                                   miembrosAsignados: seq<string>, esColaborativa: bool)

  /** The name check: empty, then too short, then too long (lengths in UTF-16 units). */
  function ErrorNombre(nombre: string): Option<string>
  {
    var t := Trim(nombre);
    if t == [] then Some(NombreObligatorio)
    else if Utf16Length(t) < 3 then Some(NombreCorto)
    else if Utf16Length(t) > 100 then Some(NombreLargo)
    else None
  }

  /** The members check; the collaborative rule runs second and overwrites. */
  function ErrorMiembros(asignados: seq<string>, colaborativa: bool): Option<string>
  {
    if colaborativa && |asignados| < 2 then Some(ColaborativaPocos)
    else if |asignados| == 0 then Some(SinMiembros)
    else None
  }

  /** `validarFormulario`'s error record. */
  function Validar(nombre: string, asignados: seq<string>, colaborativa: bool): Errores
  {
    Errores(ErrorNombre(nombre), ErrorMiembros(asignados, colaborativa))
  }

  predicate Valido(e: Errores)
  {
    e.nombre.None? && e.miembros.None?
  }

  // ---------------------------------------------------------------------------
  // Validation
  // ---------------------------------------------------------------------------

  /** The form is accepted exactly when the three rules hold. */
  lemma ValidarSiYSoloSi(nombre: string, asignados: seq<string>, colaborativa: bool)
    ensures Valido(Validar(nombre, asignados, colaborativa)) <==>
              && 3 <= Utf16Length(Trim(nombre)) <= 100
              && |asignados| > 0
              && (!colaborativa || |asignados| >= 2)
  {
  }

  /** The name error is the first failing check, in order. */
  lemma ErrorNombreEnOrden(nombre: string)
    ensures Trim(nombre) == [] ==> ErrorNombre(nombre) == Some(NombreObligatorio)
    ensures Trim(nombre) != [] && Utf16Length(Trim(nombre)) < 3 ==> ErrorNombre(nombre) == Some(NombreCorto)
    ensures Utf16Length(Trim(nombre)) > 100 ==> ErrorNombre(nombre) == Some(NombreLargo)
    ensures ErrorNombre(nombre).None? <==> 3 <= Utf16Length(Trim(nombre)) <= 100
  {
  }

  /** A name of spaces only is reported as missing, not as short. */
  lemma NombreDeEspacios(nombre: string)
    requires forall i :: 0 <= i < |nombre| ==> EsEspacio(nombre[i])
    ensures ErrorNombre(nombre) == Some(NombreObligatorio)
  {
    TrimVacio(nombre);
  }

  /**
   * A collaborative task with fewer than two members reports the
   * collaborative message, also when no member is assigned at all.
   */
  lemma ColaborativaReemplaza(asignados: seq<string>)
    requires |asignados| < 2
    ensures ErrorMiembros(asignados, true) == Some(ColaborativaPocos)
    ensures ErrorMiembros(asignados, false) == if |asignados| == 0 then Some(SinMiembros) else None
  {
  }

  // ---------------------------------------------------------------------------
  // Toggling a member
  // ---------------------------------------------------------------------------

  /** The list `toggleMiembro` computes. */
  function Alternar(asignados: seq<string>, id: string): seq<string>
  {
    if id in asignados then Listas.Sin(asignados, id) else asignados + [id]
  }

  /** Toggling an absent id adds it last; toggling it again gives back the original list. */
  lemma AlternarDosVeces(asignados: seq<string>, id: string)
    requires id !in asignados
    ensures Alternar(asignados, id) == asignados + [id]
    ensures Alternar(Alternar(asignados, id), id) == asignados
  {
    Listas.SinTrasAgregar(asignados, id);
    Listas.SinAusente(asignados, id);
  }

  /** Toggling a present id removes every copy of it and nothing else. */
  lemma AlternarPresente(asignados: seq<string>, id: string)
    requires id in asignados
    ensures id !in Alternar(asignados, id)
    ensures forall x :: x in Alternar(asignados, id) <==> x in asignados && x != id
  {
  }

  // ---------------------------------------------------------------------------
  // The form's state
  // ---------------------------------------------------------------------------

  class Formulario {
    var nombre: string
    var puntos: int
    var frecuencia: Frecuencia
    var miembrosAsignados: seq<string>
    var esColaborativa: bool
    var errores: Errores

    /** The defaults of a new task. */
    constructor ()
      ensures nombre == "" && puntos == 5 && frecuencia == Diaria
      ensures miembrosAsignados == [] && !esColaborativa && errores == SinErrores
    {
      nombre := "";
      puntos := 5;
      frecuencia := Diaria;
      miembrosAsignados := [];
      esColaborativa := false;
      errores := SinErrores;
    }

    /**
     * Opening the form: editing an existing task loads its values, anything
     * else (a new task, or an id with no task) restores the defaults; either
     * way the errors are cleared.
     */
    method Cargar(t: Option<Tarea>)
      modifies this
      ensures t.Some? ==> nombre == t.value.nombre && puntos == t.value.puntos && frecuencia == t.value.frecuencia
      ensures t.Some? ==> miembrosAsignados == t.value.miembrosAsignados && esColaborativa == t.value.esColaborativa
      ensures t.None? ==> nombre == "" && puntos == 5 && frecuencia == Diaria && miembrosAsignados == [] && !esColaborativa
      ensures errores == SinErrores
    {
      if t.Some? {
        nombre := t.value.nombre;
        puntos := t.value.puntos;
        frecuencia := t.value.frecuencia;
        miembrosAsignados := t.value.miembrosAsignados;
        esColaborativa := t.value.esColaborativa;
      } else {
        Reiniciar();
      }
      errores := SinErrores;
    }

    /** `handleClose`: back to the defaults of a new task, without errors. */
    method Reiniciar()
      modifies this
      ensures nombre == "" && puntos == 5 && frecuencia == Diaria
      ensures miembrosAsignados == [] && !esColaborativa && errores == SinErrores
    {
      nombre := "";
      puntos := 5;
      frecuencia := Diaria;
      miembrosAsignados := [];
      esColaborativa := false;
      errores := SinErrores;
    }

    /**
     * `toggleMiembro`: the id is added or removed, the task stops being
     * collaborative when fewer than two members remain, and the members error
     * is cleared.
     */
    method ToggleMiembro(id: string)
      modifies this
      ensures miembrosAsignados == Alternar(old(miembrosAsignados), id)
      ensures esColaborativa == (old(esColaborativa) && |miembrosAsignados| >= 2)
      ensures errores == old(errores).(miembros := None)
      ensures nombre == old(nombre) && puntos == old(puntos) && frecuencia == old(frecuencia)
    {
      var nuevos := if id in miembrosAsignados then Listas.Sin(miembrosAsignados, id) else miembrosAsignados + [id];
      if esColaborativa && |nuevos| < 2 {
        esColaborativa := false;
      }
      miembrosAsignados := nuevos;
      if errores.miembros.Some? {
        errores := errores.(miembros := None);
      }
    }

    /**
     * `handleColaborativaChange`: switching on with fewer than two members is
     * refused with an error; otherwise the flag takes the new value.
     */
    method CambiarColaborativa(colaborativa: bool)
      modifies this
      ensures colaborativa && |old(miembrosAsignados)| < 2 ==>
                esColaborativa == old(esColaborativa) && errores == old(errores).(miembros := Some(ColaborativaNoPermitida))
      ensures !(colaborativa && |old(miembrosAsignados)| < 2) ==>
                esColaborativa == colaborativa && errores == old(errores)
      ensures miembrosAsignados == old(miembrosAsignados) && nombre == old(nombre)
      ensures puntos == old(puntos) && frecuencia == old(frecuencia)
    {
      if colaborativa && |miembrosAsignados| < 2 {
        errores := errores.(miembros := Some(ColaborativaNoPermitida));
        return;
      }
      esColaborativa := colaborativa;
    }

    /**
     * `handleSubmit`: records the validation errors and, when there are none,
     * hands over the form's values with the trimmed name.
     */
    method Enviar() returns (datos: Option<DatosTarea>)
      modifies this
      ensures (errores, datos) == Envio(old(nombre), old(puntos), old(frecuencia), old(miembrosAsignados), old(esColaborativa))
      ensures nombre == old(nombre) && miembrosAsignados == old(miembrosAsignados) && esColaborativa == old(esColaborativa)
      ensures puntos == old(puntos) && frecuencia == old(frecuencia)
    {
      var e := Validar(nombre, miembrosAsignados, esColaborativa);
      errores := e;
      if !Valido(e) {
        return None;
      }
      datos := Some(DatosTarea(Trim(nombre), puntos, frecuencia, miembrosAsignados, esColaborativa));
    }
  }

  /** What submitting the form records as errors and hands over. */
  function Envio(nombre: string, puntos: int, frecuencia: Frecuencia, asignados: seq<string>, colaborativa: bool)
    : (Errores, Option<DatosTarea>)
  {
    var e := Validar(nombre, asignados, colaborativa);
    (e, if Valido(e) then Some(DatosTarea(Trim(nombre), puntos, frecuencia, asignados, colaborativa)) else None)
  }

  /**
   * The errors shown are the validation's; values are handed over exactly
   * when there are none, with the name trimmed and everything else as typed.
   */
  lemma EnvioSiYSoloSi(nombre: string, puntos: int, frecuencia: Frecuencia, asignados: seq<string>, colaborativa: bool)
    ensures var (e, datos) := Envio(nombre, puntos, frecuencia, asignados, colaborativa);
      && e == Validar(nombre, asignados, colaborativa)
      && (datos.Some? <==> 3 <= Utf16Length(Trim(nombre)) <= 100 && |asignados| > 0 && (!colaborativa || |asignados| >= 2))
      && (datos.Some? ==> datos.value == DatosTarea(Trim(nombre), puntos, frecuencia, asignados, colaborativa))
  {
    ValidarSiYSoloSi(nombre, asignados, colaborativa);
  }

  /** The submitted name is already trimmed and meets the length rule. */
  lemma NombreEnviado(nombre: string, asignados: seq<string>, colaborativa: bool)
    requires Valido(Validar(nombre, asignados, colaborativa))
    ensures Trim(Trim(nombre)) == Trim(nombre)
    ensures 3 <= Utf16Length(Trim(nombre)) <= 100
  {
    assert ErrorNombre(nombre).None?;
    var t := Trim(nombre);
    assert 3 <= Utf16Length(t) <= 100;
    TrimIdempotente(nombre);
  }
}
