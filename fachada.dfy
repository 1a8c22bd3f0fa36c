/**
 * The operations the store offers to the components, as functions of the
 * current state: the three guarded dispatches (a task, reward or infraction
 * is applied only when both the target and the member exist), the builders
 * of new entities, and the PIN check and change. The hash function is a
 * parameter; fresh ids and the clock come from the caller.
 */
module Fachada {
  import opened Wrappers
  import opened Tipos
  import opened Reducer

  // ---------------------------------------------------------------------------
  // Guarded dispatches
  // ---------------------------------------------------------------------------

  function MarcarTareaSiExiste(s: AppState, tareaId: string, miembroId: string, completada: bool, reloj: Reloj): AppState
  {
    if ExisteTarea(s.tareas, tareaId) && ExisteMiembro(s.miembros, miembroId)
    then Reduce(s, MarcarTarea(tareaId, miembroId, completada), reloj)
    else s
  }

  function ReclamarSiExiste(s: AppState, recompensaId: string, miembroId: string, reloj: Reloj): AppState
  {
    if ExisteRecompensa(s.recompensas, recompensaId) && ExisteMiembro(s.miembros, miembroId)
    then Reduce(s, ReclamarRecompensa(recompensaId, miembroId), reloj)
    else s
  }

  /** The infraction `penalizarMiembro` builds before checking anything. */
  function NuevaFalta(id: string, miembroId: string, tipoFaltaId: string, notas: Option<string>, ahora: Instante): Falta
  {
    Falta(id, tipoFaltaId, miembroId, ahora, false, notas)
  }

  function PenalizarSiExiste(s: AppState, miembroId: string, tipoFaltaId: string, notas: Option<string>,
                             id: string, reloj: Reloj): AppState
  {
    if ExisteTipoFalta(s.tiposFaltas, tipoFaltaId) && ExisteMiembro(s.miembros, miembroId)
    then Reduce(s, PenalizarMiembro(NuevaFalta(id, miembroId, tipoFaltaId, notas, reloj.ahora)), reloj)
    else s
  }

  /**
   * A guarded dispatch changes the state only when both the target and the
   * member exist, and when both exist it is exactly the reducer's step.
   */
  lemma GuardasExigenAmbos(s: AppState, tareaId: string, recompensaId: string, tipoFaltaId: string, miembroId: string,
                           completada: bool, notas: Option<string>, id: string, reloj: Reloj)
    ensures MarcarTareaSiExiste(s, tareaId, miembroId, completada, reloj) != s ==>
              ExisteTarea(s.tareas, tareaId) && ExisteMiembro(s.miembros, miembroId)
    ensures ReclamarSiExiste(s, recompensaId, miembroId, reloj) != s ==>
              ExisteRecompensa(s.recompensas, recompensaId) && ExisteMiembro(s.miembros, miembroId)
    ensures PenalizarSiExiste(s, miembroId, tipoFaltaId, notas, id, reloj) != s ==>
              ExisteTipoFalta(s.tiposFaltas, tipoFaltaId) && ExisteMiembro(s.miembros, miembroId)
    ensures ExisteTarea(s.tareas, tareaId) && ExisteMiembro(s.miembros, miembroId) ==>
              MarcarTareaSiExiste(s, tareaId, miembroId, completada, reloj) ==
              Reduce(s, MarcarTarea(tareaId, miembroId, completada), reloj)
    ensures ExisteRecompensa(s.recompensas, recompensaId) && ExisteMiembro(s.miembros, miembroId) ==>
              ReclamarSiExiste(s, recompensaId, miembroId, reloj) ==
              Reduce(s, ReclamarRecompensa(recompensaId, miembroId), reloj)
    ensures ExisteTipoFalta(s.tiposFaltas, tipoFaltaId) && ExisteMiembro(s.miembros, miembroId) ==>
              PenalizarSiExiste(s, miembroId, tipoFaltaId, notas, id, reloj) ==
              Reduce(s, PenalizarMiembro(Falta(id, tipoFaltaId, miembroId, reloj.ahora, false, notas)), reloj)
  {
  }

  /**
   * When a member exists a penalty always has an effect: the infraction is
   * appended to the global list, carrying the member, the type, the notes and
   * the clock's instant, and not yet compensated.
   */
  lemma PenalizacionRegistrada(s: AppState, miembroId: string, tipoFaltaId: string, notas: Option<string>,
                               id: string, reloj: Reloj)
    requires ExisteTipoFalta(s.tiposFaltas, tipoFaltaId) && ExisteMiembro(s.miembros, miembroId)
    ensures var s' := PenalizarSiExiste(s, miembroId, tipoFaltaId, notas, id, reloj);
      && |s'.faltas| == |s.faltas| + 1
      && s'.faltas[|s.faltas|] == Falta(id, tipoFaltaId, miembroId, reloj.ahora, false, notas)
      && s'.faltas[..|s.faltas|] == s.faltas
      && id in s'.miembros[IndiceMiembro(s.miembros, miembroId)].faltas
  {
  }

  // ---------------------------------------------------------------------------
  // New entities
  // ---------------------------------------------------------------------------

  function NuevoMiembro(id: string, nombre: string, color: string, avatar: string): Miembro
  {
    Miembro(id, nombre, color, avatar, 0, [], [], [])
  }

  function NuevaTarea(id: string, nombre: string, puntos: int, frecuencia: Frecuencia, asignados: seq<string>,
                      colaborativa: bool, ahora: Instante): Tarea
  {
    Tarea(id, nombre, puntos, frecuencia, asignados, colaborativa, false, map[], ahora)
  }

  function NuevaRecompensa(id: string, nombre: string, icono: string, umbral: int, veces: int, cooperativa: bool): Recompensa
  {
    Recompensa(id, nombre, icono, umbral, veces, cooperativa, [])
  }

  function NuevoTipoFalta(id: string, tipo: string, puntosNegativos: int, descripcion: string, compensacion: bool): TipoFalta
  {
    TipoFalta(id, tipo, puntosNegativos, descripcion, compensacion)
  }

  /**
   * A new member joins last, with 0 points and empty lists, so adding it keeps
   * every member's points non-negative; the others are untouched.
   */
  lemma AgregarMiembroNuevo(s: AppState, id: string, nombre: string, color: string, avatar: string, reloj: Reloj)
    ensures var s' := Reduce(s, AgregarMiembro(NuevoMiembro(id, nombre, color, avatar)), reloj);
      && |s'.miembros| == |s.miembros| + 1
      && s'.miembros[..|s.miembros|] == s.miembros
      && (var m := s'.miembros[|s.miembros|];
          m.id == id && m.puntos == 0 && m.tareasCompletadas == [] && m.recompensasGanadas == [] && m.faltas == [])
      && (PuntosNoNegativos(s.miembros) ==> PuntosNoNegativos(s'.miembros))
      && ExisteMiembro(s'.miembros, id)
  {
    var s' := Reduce(s, AgregarMiembro(NuevoMiembro(id, nombre, color, avatar)), reloj);
    assert s'.miembros[|s.miembros|].id == id;
  }

  /** A new task starts not done, with no completion entries; a new reward starts with no claims. */
  lemma AgregarTareaYRecompensa(s: AppState, id: string, nombre: string, puntos: int,
                                frecuencia: Frecuencia, asignados: seq<string>, colaborativa: bool,
                                icono: string, umbral: int, veces: int, cooperativa: bool, reloj: Reloj)
    ensures var s' := Reduce(s, AgregarTarea(NuevaTarea(id, nombre, puntos, frecuencia, asignados, colaborativa, reloj.ahora)), reloj);
      && |s'.tareas| == |s.tareas| + 1 && s'.tareas[..|s.tareas|] == s.tareas
      && !s'.tareas[|s.tareas|].completadaHoy && s'.tareas[|s.tareas|].completadaPorMiembro == map[]
      && s'.tareas[|s.tareas|].fechaCreacion == reloj.ahora
    ensures var s' := Reduce(s, AgregarRecompensa(NuevaRecompensa(id, nombre, icono, umbral, veces, cooperativa)), reloj);
      && |s'.recompensas| == |s.recompensas| + 1 && s'.recompensas[..|s.recompensas|] == s.recompensas
      && s'.recompensas[|s.recompensas|].reclamadaPor == []
  {
  }

  // ---------------------------------------------------------------------------
  // PIN
  // ---------------------------------------------------------------------------

  predicate VerificarPin(hash: string -> string, s: AppState, pin: string)
  {
    hash(pin) == s.configuracion.pinHash
  }

  function CambiarPin(hash: string -> string, s: AppState, nuevoPin: string, reloj: Reloj): AppState
  {
    Reduce(s, ActualizarConfiguracion(SinCambiosConfiguracion.(pinHash := Some(hash(nuevoPin)))), reloj)
  }

  /**
   * After a change to `p`, a PIN is accepted exactly when it hashes like `p`; in
   * particular `p` itself is accepted, for any hash function. Nothing but the
   * stored hash changes.
   */
  lemma CambiarPinVerifica(hash: string -> string, s: AppState, p: string, q: string, reloj: Reloj)
    ensures VerificarPin(hash, CambiarPin(hash, s, p, reloj), p)
    ensures VerificarPin(hash, CambiarPin(hash, s, p, reloj), q) <==> hash(q) == hash(p)
    ensures CambiarPin(hash, s, p, reloj) == s.(configuracion := s.configuracion.(pinHash := hash(p)))
  {
  }

  /** The initial state accepts the default PIN `123Maria`. */
  lemma PinInicial(hash: string -> string, ahora: Instante, q: string)
    ensures VerificarPin(hash, EstadoInicial(hash, ahora), "123Maria")
    ensures VerificarPin(hash, EstadoInicial(hash, ahora), q) <==> hash(q) == hash("123Maria")
  {
  }
}
