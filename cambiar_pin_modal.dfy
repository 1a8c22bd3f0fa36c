/**
 * The PIN-change dialog: a two-step machine. In the first step the current
 * PIN must be entered and accepted by the store; only then does the second
 * step ask for the new PIN twice, and only a valid new PIN reaches the store.
 * "Back" returns to the first step keeping the current PIN typed; "close"
 * clears everything.
 */
module CambioPin {
  import opened Wrappers
  import opened Tipos
  import opened Texto
  import Fachada
  import Store

  const IntroducePinActual := "Introduce el PIN actual"
  const PinIncorrecto := "PIN incorrecto"
  const IntroduceNuevoPin := "Introduce el nuevo PIN"
  const PinCorto := "El PIN debe tener al menos 4 caracteres"
  const PinLargo := "El PIN no puede tener más de 20 caracteres"
  const ConfirmaPin := "Confirma el nuevo PIN"
  const PinsDistintos := "Los PINs no coinciden"

  datatype Paso = Verificar | Cambiar

  datatype ErroresPin = ErroresPin(pinActual: Option<string>, nuevoPin: Option<string>, confirmarPin: Option<string>)

  const SinErrores := ErroresPin(None, None, None)

  /** `validarPinActual`: empty first, then the store's verdict. */
  function ErrorPinActual(pin: string, correcto: bool): Option<string>
  {
    if pin == "" then Some(IntroducePinActual)
    else if !correcto then Some(PinIncorrecto)
    else None
  }

  /** The new PIN's chain; its length is not trimmed and counts UTF-16 units. */
  function ErrorNuevoPin(nuevo: string): Option<string>
  {
    if nuevo == "" then Some(IntroduceNuevoPin)
    else if Utf16Length(nuevo) < 4 then Some(PinCorto)
    else if Utf16Length(nuevo) > 20 then Some(PinLargo)
    else None
  }

  function ErrorConfirmar(nuevo: string, confirmar: string): Option<string>
  {
    if confirmar == "" then Some(ConfirmaPin)
    else if nuevo != confirmar then Some(PinsDistintos)
    else None
  }

  /** `validarNuevoPin`'s error record: both fields are checked. */
  function ValidarNuevoPin(nuevo: string, confirmar: string): ErroresPin
  {
    ErroresPin(None, ErrorNuevoPin(nuevo), ErrorConfirmar(nuevo, confirmar))
  }

  predicate SinFallos(e: ErroresPin)
  {
    e.pinActual.None? && e.nuevoPin.None? && e.confirmarPin.None?
  }

  /** The first step passes exactly for a non-empty PIN the store accepts. */
  lemma PinActualSiYSoloSi(pin: string, correcto: bool)
    ensures ErrorPinActual(pin, correcto).None? <==> pin != "" && correcto
    ensures pin == "" ==> ErrorPinActual(pin, correcto) == Some(IntroducePinActual)
  {
  }

  /**
   * The new PIN is accepted exactly when its length is 4 to 20 and the
   * confirmation is present and equal to it.
   */
  lemma NuevoPinSiYSoloSi(nuevo: string, confirmar: string)
    ensures SinFallos(ValidarNuevoPin(nuevo, confirmar)) <==>
              4 <= Utf16Length(nuevo) <= 20 && confirmar != "" && confirmar == nuevo
  {
    if nuevo == "" {
      assert ErrorNuevoPin(nuevo).Some?;
    }
  }

  /** Both messages may show at once: an empty form reports both fields. */
  lemma AmbosErrores()
    ensures ValidarNuevoPin("", "") == ErroresPin(None, Some(IntroduceNuevoPin), Some(ConfirmaPin))
  {
  }

  class ModalCambiarPin {
    var paso: Paso
    var pinActual: string
    var nuevoPin: string
    var confirmarPin: string
    var errores: ErroresPin
    /** Whether `onClose` has been called. */
    var cerrado: bool

    /**
     * The second step is only ever shown for a typed PIN that the store
     * accepts.
     */
    predicate Verificado(store: Store.AppStore)
      reads this, store
    {
      paso == Cambiar ==> pinActual != "" && Fachada.VerificarPin(store.hash, store.state, pinActual)
    }

    /** The dialog opens at the first step with empty fields. */
    constructor ()
      ensures paso == Verificar && pinActual == "" && nuevoPin == "" && confirmarPin == ""
      ensures errores == SinErrores && !cerrado
    {
      paso := Verificar;
      pinActual := "";
      nuevoPin := "";
      confirmarPin := "";
      errores := SinErrores;
      cerrado := false;
    }

    /** Typing the current PIN (first step only) clears its error. */
    method EscribirPinActual(v: string)
      requires paso == Verificar
      modifies this
      ensures pinActual == v && errores == old(errores).(pinActual := None)
      ensures paso == old(paso) && nuevoPin == old(nuevoPin) && confirmarPin == old(confirmarPin) && cerrado == old(cerrado)
    {
      pinActual := v;
      if errores.pinActual.Some? {
        errores := errores.(pinActual := None);
      }
    }

    /** Typing the new PIN (second step only) clears its error. */
    method EscribirNuevoPin(v: string)
      requires paso == Cambiar
      modifies this
      ensures nuevoPin == v && errores == old(errores).(nuevoPin := None)
      ensures paso == old(paso) && pinActual == old(pinActual) && confirmarPin == old(confirmarPin) && cerrado == old(cerrado)
    {
      nuevoPin := v;
      if errores.nuevoPin.Some? {
        errores := errores.(nuevoPin := None);
      }
    }

    /** Typing the confirmation (second step only) clears its error. */
    method EscribirConfirmarPin(v: string)
      requires paso == Cambiar
      modifies this
      ensures confirmarPin == v && errores == old(errores).(confirmarPin := None)
      ensures paso == old(paso) && pinActual == old(pinActual) && nuevoPin == old(nuevoPin) && cerrado == old(cerrado)
    {
      confirmarPin := v;
      if errores.confirmarPin.Some? {
        errores := errores.(confirmarPin := None);
      }
    }

    /**
     * `handleVerificarPin`: the errors become the first step's verdict, and
     * the dialog moves to the second step exactly when there is none.
     */
    method VerificarPaso(store: Store.AppStore)
      requires paso == Verificar
      modifies this
      ensures errores == ErroresPin(ErrorPinActual(pinActual, Fachada.VerificarPin(store.hash, store.state, pinActual)), None, None)
      ensures paso == (if errores.pinActual.None? then Cambiar else Verificar)
      ensures paso == Cambiar <==> pinActual != "" && Fachada.VerificarPin(store.hash, store.state, pinActual)
      ensures Verificado(store)
      ensures pinActual == old(pinActual) && nuevoPin == old(nuevoPin) && confirmarPin == old(confirmarPin)
      ensures cerrado == old(cerrado)
    {
      if pinActual == "" {
        errores := ErroresPin(Some(IntroducePinActual), None, None);
        return;
      }
      var ok := store.VerificarPin(pinActual);
      if !ok {
        errores := ErroresPin(Some(PinIncorrecto), None, None);
        return;
      }
      errores := SinErrores;
      paso := Cambiar;
    }

    /** `handleVolver`: back to the first step, keeping the current PIN typed. */
    method Volver()
      modifies this
      ensures paso == Verificar && nuevoPin == "" && confirmarPin == "" && errores == SinErrores
      ensures pinActual == old(pinActual) && cerrado == old(cerrado)
    {
      nuevoPin := "";
      confirmarPin := "";
      errores := SinErrores;
      paso := Verificar;
    }

    /** `handleClose`: every field is reset and the dialog asks to be closed. */
    method Cerrar()
      modifies this
      ensures paso == Verificar && pinActual == "" && nuevoPin == "" && confirmarPin == ""
      ensures errores == SinErrores && cerrado
    {
      pinActual := "";
      nuevoPin := "";
      confirmarPin := "";
      errores := SinErrores;
      paso := Verificar;
      cerrado := true;
    }

    /**
     * `handleCambiarPin`: a valid new PIN is stored and the dialog closes;
     * otherwise the errors are shown and the store is untouched. A change
     * therefore only happens from the second step, after the typed current
     * PIN was accepted by the store.
     */
    method CambiarPaso(store: Store.AppStore, reloj: Reloj)
      requires paso == Cambiar && Verificado(store)
      modifies this, store
      ensures var ok := SinFallos(ValidarNuevoPin(old(nuevoPin), old(confirmarPin)));
        && (ok ==> store.state == old(store.state).(configuracion := old(store.state).configuracion.(pinHash := store.hash(old(nuevoPin)))))
        && (ok ==> Fachada.VerificarPin(store.hash, store.state, old(nuevoPin)) && store.capturado == store.state)
        && (ok ==> paso == Verificar && pinActual == "" && nuevoPin == "" && confirmarPin == "" && errores == SinErrores && cerrado)
        && (!ok ==> store.state == old(store.state) && errores == ValidarNuevoPin(old(nuevoPin), old(confirmarPin)))
        && (!ok ==> store.capturado == old(store.capturado))
        && (!ok ==> paso == Cambiar && pinActual == old(pinActual) && cerrado == old(cerrado))
        && (!ok ==> nuevoPin == old(nuevoPin) && confirmarPin == old(confirmarPin))
      ensures store.state != old(store.state) ==>
                old(pinActual) != "" && Fachada.VerificarPin(store.hash, old(store.state), old(pinActual))
      ensures Verificado(store)
    {
      errores := ValidarNuevoPin(nuevoPin, confirmarPin);
      if SinFallos(errores) {
        store.CambiarPin(nuevoPin, reloj);
        Cerrar();
      }
    }
  }
}
