/**
 * The administrator login dialog: a PIN of at least 4 units is checked by the
 * store; a wrong one counts an attempt, and the third wrong attempt in a row
 * closes the dialog. Once three attempts have failed the input and the
 * submit button are disabled.
 */
module Acceso {
  import opened Tipos
  import opened Texto
  import Fachada
  import Store

  const PinCorto := "El PIN debe tener al menos 4 caracteres"
  const PinIncorrecto := "PIN incorrecto"

  /** Number of failed attempts after which the dialog locks. */
  const MaxIntentos := 3

  /** The dialog's state: the typed PIN, the shown error ("" for none), the failures, whether `onClose` was called. */
  datatype Login = Login(pin: string, error: string, intentos: nat, cerrado: bool)

  /** `disabled={!pin || intentos >= 3}` on the submit button; the input only needs the second half. */
  predicate EnvioDeshabilitado(l: Login)
  {
    l.pin == "" || l.intentos >= MaxIntentos
  }

  /** The "Intentos restantes" line: shown after a failure, with what is left. */
  function Restantes(intentos: nat): int
  {
    MaxIntentos - intentos
  }

  /** The input's `onChange`, ignored while the input is disabled. */
  function Escribir(l: Login, v: string): Login
  {
    if l.intentos >= MaxIntentos then l else l.(pin := v, error := "")
  }

  /**
   * `handleSubmit` on a state whose button is enabled, with `correcto` the
   * store's verdict on the typed PIN; the flag says whether `onSuccess` ran.
   * The closing test reads the count from before this attempt.
   */
  function Enviar(l: Login, correcto: bool): (Login, bool)
  {
    if EnvioDeshabilitado(l) then (l, false)
    else if Utf16Length(l.pin) < 4 then (l.(error := PinCorto), false)
    else if correcto then (l.(pin := "", error := "", intentos := 0), true)
    else (l.(pin := "", error := PinIncorrecto, intentos := l.intentos + 1,
             cerrado := l.cerrado || l.intentos >= 2), false)
  }

  /** `handleClose`: clears the PIN and the error but keeps the count. */
  function Cerrar(l: Login): Login
  {
    l.(pin := "", error := "", cerrado := true)
  }

  // ---------------------------------------------------------------------------
  // Properties of one attempt
  // ---------------------------------------------------------------------------

  /** A short PIN only shows the error: no attempt is counted and no success reported. */
  lemma PinCortoNoCuenta(l: Login, correcto: bool)
    requires !EnvioDeshabilitado(l) && Utf16Length(l.pin) < 4
    ensures Enviar(l, correcto) == (l.(error := PinCorto), false)
    ensures Enviar(l, correcto).0.intentos == l.intentos
  {
  }

  /** A correct PIN of valid length succeeds and resets the count. */
  lemma PinCorrecto(l: Login)
    requires !EnvioDeshabilitado(l) && Utf16Length(l.pin) >= 4
    ensures Enviar(l, true).1
    ensures Enviar(l, true).0 == Login("", "", 0, l.cerrado)
  {
  }

  /**
   * A wrong PIN adds exactly one attempt and clears the input; it closes the
   * dialog exactly when two attempts had already failed.
   */
  lemma PinErroneo(l: Login)
    requires !EnvioDeshabilitado(l) && Utf16Length(l.pin) >= 4
    ensures !Enviar(l, false).1
    ensures Enviar(l, false).0.intentos == l.intentos + 1
    ensures Enviar(l, false).0.pin == "" && Enviar(l, false).0.error == PinIncorrecto
    ensures !l.cerrado ==> (Enviar(l, false).0.cerrado <==> l.intentos >= 2)
  {
  }

  /** Success is reported only for a PIN the store accepts. */
  lemma ExitoSoloSiCorrecto(l: Login, correcto: bool)
    ensures Enviar(l, correcto).1 <==> !EnvioDeshabilitado(l) && Utf16Length(l.pin) >= 4 && correcto
  {
  }

  /** The count never passes three, so the remaining figure is never negative. */
  lemma IntentosAcotados(l: Login, correcto: bool, v: string)
    requires l.intentos <= MaxIntentos
    ensures Enviar(l, correcto).0.intentos <= MaxIntentos
    ensures Escribir(l, v).intentos <= MaxIntentos && Cerrar(l).intentos <= MaxIntentos
    ensures 0 <= Restantes(Enviar(l, correcto).0.intentos) <= MaxIntentos
  {
  }

  /** Once locked, nothing the user does changes the dialog except closing it. */
  lemma Bloqueado(l: Login, correcto: bool, v: string)
    requires l.intentos >= MaxIntentos
    ensures Enviar(l, correcto) == (l, false)
    ensures Escribir(l, v) == l
  {
  }

  // ---------------------------------------------------------------------------
  // A run of attempts
  // ---------------------------------------------------------------------------

  /** Each entry is a PIN typed and then submitted, with the store's verdict on it. */
  datatype Intento = Intento(pin: string, correcto: bool)

  function Secuencia(l: Login, xs: seq<Intento>): Login
    decreases |xs|
  {
    if xs == [] then l
    else Secuencia(Enviar(Escribir(l, xs[0].pin), xs[0].correcto).0, xs[1..])
  }

  /**
   * Wrong PINs of valid length, submitted one after another from a fresh
   * count, lock the dialog after three: it is closed, the count is 3 and the
   * remaining figure is 0.
   */
  lemma {:induction false} TresFallosCierran(l: Login, xs: seq<Intento>)
    requires l.intentos + |xs| == MaxIntentos && !l.cerrado
    requires forall i :: 0 <= i < |xs| ==> Utf16Length(xs[i].pin) >= 4 && !xs[i].correcto
    ensures Secuencia(l, xs).intentos == MaxIntentos
    ensures Secuencia(l, xs).cerrado <==> |xs| > 0
    ensures Restantes(Secuencia(l, xs).intentos) == 0
    decreases |xs|
  {
    if xs != [] {
      var l1 := Escribir(l, xs[0].pin);
      assert l1.pin == xs[0].pin && l1.intentos == l.intentos;
      assert xs[0].pin != [] by {
        assert Utf16Length(xs[0].pin) >= 4;
      }
      var l2 := Enviar(l1, xs[0].correcto).0;
      assert l2.intentos == l.intentos + 1;
      assert l2.cerrado <==> l.intentos >= 2;
      forall i | 0 <= i < |xs[1..]| ensures Utf16Length(xs[1..][i].pin) >= 4 && !xs[1..][i].correcto {
        assert xs[1..][i] == xs[i + 1];
      }
      if l2.cerrado {
        assert xs[1..] == [];
      } else {
        TresFallosCierran(l2, xs[1..]);
      }
    }
  }

  // ---------------------------------------------------------------------------
  // The dialog's state
  // ---------------------------------------------------------------------------

  class ModalLogin {
    var pin: string
    var error: string
    var intentos: nat
    var cerrado: bool

    function Estado(): Login
      reads this
    {
      Login(pin, error, intentos, cerrado)
    }

    /** The attempt count stays within the three allowed. */
    predicate Valido()
      reads this
    {
      intentos <= MaxIntentos
    }

    constructor ()
      ensures Estado() == Login("", "", 0, false) && Valido()
    {
      pin := "";
      error := "";
      intentos := 0;
      cerrado := false;
    }

    /** Typing, ignored while the input is disabled; typing clears the error. */
    method EscribirPin(v: string)
      requires Valido()
      modifies this
      ensures Estado() == Escribir(old(Estado()), v) && Valido()
    {
      if intentos < MaxIntentos {
        pin := v;
        error := "";
      }
    }

    /** `handleSubmit`, asking the store to check the PIN only past the length check. */
    method EnviarPin(store: Store.AppStore) returns (exito: bool)
      requires Valido()
      modifies this
      ensures (Estado(), exito) == Enviar(old(Estado()), Fachada.VerificarPin(store.hash, store.state, old(pin)))
      ensures Valido()
    {
      if pin == "" || intentos >= MaxIntentos {
        return false;
      }
      if Utf16Length(pin) < 4 {
        error := PinCorto;
        return false;
      }
      var ok := store.VerificarPin(pin);
      if ok {
        pin := "";
        error := "";
        intentos := 0;
        return true;
      }
      var previos := intentos;
      intentos := intentos + 1;
      error := PinIncorrecto;
      pin := "";
      if previos >= 2 {
        cerrado := true;
      }
      exito := false;
    }

    method CerrarModal()
      requires Valido()
      modifies this
      ensures Estado() == Cerrar(old(Estado())) && Valido()
    {
      pin := "";
      error := "";
      cerrado := true;
    }
  }
}
