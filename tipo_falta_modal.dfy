/**
 * The infraction-type form: the type needs 3 to 100 and the description 5 to
 * 200 UTF-16 units once trimmed, each field checked on its own; submitting
 * sends both fields trimmed.
 */
module FormularioTipoFalta {
  import opened Wrappers
  import opened Tipos
  import opened Texto
  import Reducer
  import Fachada
  import PropiedadesReducer

  const TipoObligatorio := "El tipo de falta es obligatorio"
  const TipoCorto := "El tipo debe tener al menos 3 caracteres"
  const TipoLargo := "El tipo no puede tener más de 100 caracteres"
  const DescripcionObligatoria := "La descripción es obligatoria"
  const DescripcionCorta := "La descripción debe tener al menos 5 caracteres"
  const DescripcionLarga := "La descripción no puede tener más de 200 caracteres"

  datatype Errores = Errores(tipo: Option<string>, descripcion: Option<string>)

  /** One field's chain: empty, then too short, then too long. */
  function ErrorCampo(valor: string, minimo: nat, maximo: nat,
                      vacio: string, corto: string, largo: string): Option<string>
  {
    var t := Trim(valor);
    if t == [] then Some(vacio)
    else if Utf16Length(t) < minimo then Some(corto)
    else if Utf16Length(t) > maximo then Some(largo)
    else None
  }

  /** `validarFormulario`'s error record. */
  function Validar(tipo: string, descripcion: string): Errores
  {
    Errores(ErrorCampo(tipo, 3, 100, TipoObligatorio, TipoCorto, TipoLargo),
            ErrorCampo(descripcion, 5, 200, DescripcionObligatoria, DescripcionCorta, DescripcionLarga))
  }

  /**
   * `handleSubmit`: nothing when a field is invalid; otherwise the trimmed
   * fields, as an edit of the type being edited (a non-empty id) or as a new
   * type under the fresh id `idNuevo`.
   */
  function Enviar(tipo: string, descripcion: string, puntosNegativos: int, compensacion: bool,
                  editado: Option<string>, idNuevo: string): Option<Reducer.Accion>
  {
    var e := Validar(tipo, descripcion);
    if e.tipo.Some? || e.descripcion.Some? then None
    else if editado.Some? && editado.value != "" then
      Some(Reducer.EditarTipoFalta(editado.value,
             TipoFaltaParcial(None, Some(Trim(tipo)), Some(puntosNegativos), Some(Trim(descripcion)), Some(compensacion))))
    else Some(Reducer.AgregarTipoFalta(Fachada.NuevoTipoFalta(idNuevo, Trim(tipo), puntosNegativos, Trim(descripcion), compensacion)))
  }

  // ---------------------------------------------------------------------------
  // Properties
  // ---------------------------------------------------------------------------

  /** The form is accepted exactly when both trimmed lengths are in range. */
  lemma ValidarSiYSoloSi(tipo: string, descripcion: string)
    ensures (Validar(tipo, descripcion).tipo.None? && Validar(tipo, descripcion).descripcion.None?) <==>
              3 <= Utf16Length(Trim(tipo)) <= 100 && 5 <= Utf16Length(Trim(descripcion)) <= 200
  {
  }

  /**
   * The fields are checked independently: each error depends on its own field
   * only, so a bad type and a bad description are reported together.
   */
  lemma CamposIndependientes(tipo: string, descripcion: string, otroTipo: string, otraDescripcion: string)
    ensures Validar(tipo, descripcion).tipo == Validar(tipo, otraDescripcion).tipo
    ensures Validar(tipo, descripcion).descripcion == Validar(otroTipo, descripcion).descripcion
    ensures Validar("", "").tipo == Some(TipoObligatorio) && Validar("", "").descripcion == Some(DescripcionObligatoria)
  {
  }

  /** Each field's message is the first failing check of its chain. */
  lemma ErrorCampoEnOrden(valor: string, minimo: nat, maximo: nat, vacio: string, corto: string, largo: string)
    ensures Trim(valor) == [] ==> ErrorCampo(valor, minimo, maximo, vacio, corto, largo) == Some(vacio)
    ensures Trim(valor) != [] && Utf16Length(Trim(valor)) < minimo ==>
              ErrorCampo(valor, minimo, maximo, vacio, corto, largo) == Some(corto)
    ensures Trim(valor) != [] && minimo <= Utf16Length(Trim(valor)) && Utf16Length(Trim(valor)) > maximo ==>
              ErrorCampo(valor, minimo, maximo, vacio, corto, largo) == Some(largo)
    ensures ErrorCampo(valor, minimo, maximo, vacio, corto, largo).None? <==>
              Trim(valor) != [] && minimo <= Utf16Length(Trim(valor)) <= maximo
  {
  }

  /** What is submitted is the trimmed text of both fields, which trimming again would not change. */
  lemma EnvioRecortado(tipo: string, descripcion: string, puntosNegativos: int, compensacion: bool,
                       editado: Option<string>, idNuevo: string)
    requires Enviar(tipo, descripcion, puntosNegativos, compensacion, editado, idNuevo).Some?
    ensures var a := Enviar(tipo, descripcion, puntosNegativos, compensacion, editado, idNuevo).value;
      && (a.AgregarTipoFalta? ==> a.tipoFalta.tipo == Trim(tipo) && a.tipoFalta.descripcion == Trim(descripcion))
      && (a.EditarTipoFalta? ==> a.cambiosTipoFalta.tipo == Some(Trim(tipo))
                                 && a.cambiosTipoFalta.descripcion == Some(Trim(descripcion)))
      && Trim(Trim(tipo)) == Trim(tipo) && Trim(Trim(descripcion)) == Trim(descripcion)
      && 3 <= Utf16Length(Trim(tipo)) <= 100 && 5 <= Utf16Length(Trim(descripcion)) <= 200
  {
    var e := Validar(tipo, descripcion);
    assert e.tipo.None? && e.descripcion.None?;
    ValidarSiYSoloSi(tipo, descripcion);
    TrimIdempotente(tipo);
    TrimIdempotente(descripcion);
  }

  /**
   * An accepted edit (a non-empty id) rewrites the types with that id: both
   * texts trimmed, the points and the compensation flag as given, the id kept;
   * every other type and everything outside the types stay as they were.
   */
  lemma EnvioEdicion(s: AppState, tipo: string, descripcion: string, puntosNegativos: int, compensacion: bool,
                     id: string, idNuevo: string, reloj: Reloj)
    requires id != ""
    requires 3 <= Utf16Length(Trim(tipo)) <= 100 && 5 <= Utf16Length(Trim(descripcion)) <= 200
    ensures Enviar(tipo, descripcion, puntosNegativos, compensacion, Some(id), idNuevo) ==
            Some(Reducer.EditarTipoFalta(id, TipoFaltaParcial(None, Some(Trim(tipo)), Some(puntosNegativos),
                                                              Some(Trim(descripcion)), Some(compensacion))))
    ensures var s' := Reducer.Reduce(s, Enviar(tipo, descripcion, puntosNegativos, compensacion, Some(id), idNuevo).value, reloj);
      && s' == s.(tiposFaltas := s'.tiposFaltas)
      && |s'.tiposFaltas| == |s.tiposFaltas|
      && forall i :: 0 <= i < |s.tiposFaltas| ==>
           if s.tiposFaltas[i].id == id
           then s'.tiposFaltas[i] == s.tiposFaltas[i].(tipo := Trim(tipo), puntosNegativos := puntosNegativos,
                                                         descripcion := Trim(descripcion),
                                                         compensacionDisponible := compensacion)
           else s'.tiposFaltas[i] == s.tiposFaltas[i]
  {
    ValidarSiYSoloSi(tipo, descripcion);
    var p := TipoFaltaParcial(None, Some(Trim(tipo)), Some(puntosNegativos), Some(Trim(descripcion)), Some(compensacion));
    PropiedadesReducer.TiposFaltasEfecto(s, Fachada.NuevoTipoFalta(idNuevo, Trim(tipo), puntosNegativos, Trim(descripcion), compensacion), id, p, reloj);
  }

  /**
   * An accepted creation (no id, or an empty one) appends one type under the
   * fresh id, with both texts trimmed and the points and the compensation flag
   * as given; nothing else changes.
   */
  lemma EnvioAlta(s: AppState, tipo: string, descripcion: string, puntosNegativos: int, compensacion: bool,
                  editado: Option<string>, idNuevo: string, reloj: Reloj)
    requires editado.None? || editado.value == ""
    requires 3 <= Utf16Length(Trim(tipo)) <= 100 && 5 <= Utf16Length(Trim(descripcion)) <= 200
    ensures Enviar(tipo, descripcion, puntosNegativos, compensacion, editado, idNuevo) ==
            Some(Reducer.AgregarTipoFalta(TipoFalta(idNuevo, Trim(tipo), puntosNegativos, Trim(descripcion), compensacion)))
    ensures Reducer.Reduce(s, Enviar(tipo, descripcion, puntosNegativos, compensacion, editado, idNuevo).value, reloj) ==
            s.(tiposFaltas := s.tiposFaltas + [TipoFalta(idNuevo, Trim(tipo), puntosNegativos, Trim(descripcion), compensacion)])
  {
    ValidarSiYSoloSi(tipo, descripcion);
    var tf := TipoFalta(idNuevo, Trim(tipo), puntosNegativos, Trim(descripcion), compensacion);
    PropiedadesReducer.TiposFaltasEfecto(s, tf, idNuevo, TipoFaltaParcial(None, None, None, None, None), reloj);
  }
}
