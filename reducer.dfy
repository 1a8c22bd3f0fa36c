/**
 * The application's state-transition function: one case per action, each a
 * pure function of the old state and the action's payload. The two cases that
 * read the clock (claiming a reward and the weekly reset) take it as a
 * `Reloj` reading.
 */
module Reducer {
  import opened Wrappers
  import opened Tipos
  import Listas

  datatype Accion =
    | SetState(parcial: AppStateParcial)
    | AgregarMiembro(miembro: Miembro)
    | EditarMiembro(id: string, cambiosMiembro: MiembroParcial)
    | EliminarMiembro(id: string)
    | AgregarTarea(tarea: Tarea)
    | EditarTarea(id: string, cambiosTarea: TareaParcial)
    | EliminarTarea(id: string)
    | MarcarTarea(tareaId: string, miembroId: string, completada: bool)
    | AgregarRecompensa(recompensa: Recompensa)
    | EditarRecompensa(id: string, cambiosRecompensa: RecompensaParcial)
    | EliminarRecompensa(id: string)
    | ReclamarRecompensa(recompensaId: string, miembroId: string)
    | AgregarTipoFalta(tipoFalta: TipoFalta)
    | EditarTipoFalta(id: string, cambiosTipoFalta: TipoFaltaParcial)
    | EliminarTipoFalta(id: string)
    | PenalizarMiembro(falta: Falta)
    | CambiarModoAdmin(admin: bool)
    | ReiniciarSemana(snapshot: SnapshotSemanal)
    | ActualizarConfiguracion(cambiosConfiguracion: ConfiguracionParcial)

  /** `Math.max(0, x)`: the floor every point update goes through. */
  function Max0(x: int): (r: int)
    ensures r >= 0 && r >= x
    ensures x >= 0 ==> r == x
    ensures x < 0 ==> r == 0
  {
    if x >= 0 then x else 0
  }

  // ---------------------------------------------------------------------------
  // EDITAR_*: every element with the id gets the partial spread over it
  // ---------------------------------------------------------------------------

  function MiembrosEditados(ms: seq<Miembro>, id: string, p: MiembroParcial): seq<Miembro>
  {
    seq(|ms|, i requires 0 <= i < |ms| => if ms[i].id == id then AplicarMiembro(ms[i], p) else ms[i])
  }

  function TareasEditadas(ts: seq<Tarea>, id: string, p: TareaParcial): seq<Tarea>
  {
    seq(|ts|, i requires 0 <= i < |ts| => if ts[i].id == id then AplicarTarea(ts[i], p) else ts[i])
  }

  function RecompensasEditadas(rs: seq<Recompensa>, id: string, p: RecompensaParcial): seq<Recompensa>
  {
    seq(|rs|, i requires 0 <= i < |rs| => if rs[i].id == id then AplicarRecompensa(rs[i], p) else rs[i])
  }

  function TiposFaltasEditados(tfs: seq<TipoFalta>, id: string, p: TipoFaltaParcial): seq<TipoFalta>
  {
    seq(|tfs|, i requires 0 <= i < |tfs| => if tfs[i].id == id then AplicarTipoFalta(tfs[i], p) else tfs[i])
  }

  // ---------------------------------------------------------------------------
  // ELIMINAR_MIEMBRO: drop the member and strip the id from every assignment
  // ---------------------------------------------------------------------------

  function SinAsignar(ts: seq<Tarea>, id: string): seq<Tarea>
  {
    seq(|ts|, i requires 0 <= i < |ts| => ts[i].(miembrosAsignados := Listas.Sin(ts[i].miembrosAsignados, id)))
  }

  function MiembroEliminado(s: AppState, id: string): AppState
  {
    s.(miembros := Listas.Filtrar(s.miembros, (m: Miembro) => m.id != id),
       tareas := SinAsignar(s.tareas, id))
  }

  // ---------------------------------------------------------------------------
  // MARCAR_TAREA
  // ---------------------------------------------------------------------------

  /** Every assigned id maps to `true` (`every(id => cpm[id] === true)`). */
  predicate TodosCompletaron(asignados: seq<string>, cpm: map<string, bool>)
  {
    forall i :: 0 <= i < |asignados| ==> asignados[i] in cpm && cpm[asignados[i]]
  }

  /** Some entry of the map is `true` (`Object.values(cpm).some(Boolean)`). */
  predicate AlgunoCompleto(cpm: map<string, bool>)
  {
    exists k :: k in cpm && cpm[k]
  }

  function MiembroMarcado(m: Miembro, tareaId: string, puntosTarea: int, completada: bool): Miembro
  {
    m.(puntos := Max0(if completada then m.puntos + puntosTarea else m.puntos - puntosTarea),
       tareasCompletadas := if completada then m.tareasCompletadas + [tareaId]
                            else Listas.Sin(m.tareasCompletadas, tareaId))
  }

  function TareaMarcada(t: Tarea, miembroId: string, completada: bool): Tarea
  {
    var cpm := t.completadaPorMiembro[miembroId := completada];
    t.(completadaPorMiembro := cpm,
       completadaHoy := if t.esColaborativa then TodosCompletaron(t.miembrosAsignados, cpm) else AlgunoCompleto(cpm))
  }

  function TareaMarcadaEn(s: AppState, tareaId: string, miembroId: string, completada: bool): AppState
  {
    var k := IndiceTarea(s.tareas, tareaId);
    if k == |s.tareas| then s
    else
      var puntosTarea := s.tareas[k].puntos;
      s.(miembros := seq(|s.miembros|, i requires 0 <= i < |s.miembros| =>
                           if s.miembros[i].id == miembroId
                           then MiembroMarcado(s.miembros[i], tareaId, puntosTarea, completada)
                           else s.miembros[i]),
         tareas := seq(|s.tareas|, i requires 0 <= i < |s.tareas| =>
                         if s.tareas[i].id == tareaId then TareaMarcada(s.tareas[i], miembroId, completada)
                         else s.tareas[i]))
  }

  // ---------------------------------------------------------------------------
  // RECLAMAR_RECOMPENSA
  // ---------------------------------------------------------------------------

  function MiembroRecompensado(m: Miembro, recompensaId: string, umbral: int): Miembro
  {
    m.(puntos := Max0(m.puntos - umbral), recompensasGanadas := m.recompensasGanadas + [recompensaId])
  }

  function RecompensaReclamada(s: AppState, recompensaId: string, miembroId: string, reloj: Reloj): AppState
  {
    var k := IndiceRecompensa(s.recompensas, recompensaId);
    if k == |s.recompensas| then s
    else
      var umbral := s.recompensas[k].umbralPuntos;
      var reclamacion := Reclamacion(miembroId, reloj.ahora, reloj.semana);
      s.(miembros := seq(|s.miembros|, i requires 0 <= i < |s.miembros| =>
                           if s.miembros[i].id == miembroId
                           then MiembroRecompensado(s.miembros[i], recompensaId, umbral)
                           else s.miembros[i]),
         recompensas := seq(|s.recompensas|, i requires 0 <= i < |s.recompensas| =>
                              if s.recompensas[i].id == recompensaId
                              then s.recompensas[i].(reclamadaPor := s.recompensas[i].reclamadaPor + [reclamacion])
                              else s.recompensas[i]))
  }

  // ---------------------------------------------------------------------------
  // PENALIZAR_MIEMBRO
  // ---------------------------------------------------------------------------

  function MiembroPenalizado(m: Miembro, faltaId: string, puntosNegativos: int): Miembro
  {
    m.(puntos := Max0(m.puntos - puntosNegativos), faltas := m.faltas + [faltaId])
  }

  function FaltaRegistrada(s: AppState, falta: Falta): AppState
  {
    var k := IndiceTipoFalta(s.tiposFaltas, falta.tipoFaltaId);
    if k == |s.tiposFaltas| then s
    else
      var puntosNegativos := s.tiposFaltas[k].puntosNegativos;
      s.(miembros := seq(|s.miembros|, i requires 0 <= i < |s.miembros| =>
                           if s.miembros[i].id == falta.miembroId
                           then MiembroPenalizado(s.miembros[i], falta.id, puntosNegativos)
                           else s.miembros[i]),
         faltas := s.faltas + [falta])
  }

  // ---------------------------------------------------------------------------
  // REINICIAR_SEMANA
  // ---------------------------------------------------------------------------

  function SemanaReiniciada(s: AppState, snapshot: SnapshotSemanal, reloj: Reloj): AppState
  {
    s.(historial := s.historial + [snapshot],
       tareas := seq(|s.tareas|, i requires 0 <= i < |s.tareas| =>
                       s.tareas[i].(completadaHoy := false, completadaPorMiembro := map[])),
       miembros := seq(|s.miembros|, i requires 0 <= i < |s.miembros| =>
                         s.miembros[i].(tareasCompletadas := [], faltas := [])),
       faltas := [],
       ultimoReinicio := reloj.ahora)
  }

  // ---------------------------------------------------------------------------
  // The reducer
  // ---------------------------------------------------------------------------

  function Reduce(s: AppState, a: Accion, reloj: Reloj): AppState
  {
    match a
    case SetState(p) => AplicarEstado(s, p)
    case AgregarMiembro(m) => s.(miembros := s.miembros + [m])
    case EditarMiembro(id, p) => s.(miembros := MiembrosEditados(s.miembros, id, p))
    case EliminarMiembro(id) => MiembroEliminado(s, id)
    case AgregarTarea(t) => s.(tareas := s.tareas + [t])
    case EditarTarea(id, p) => s.(tareas := TareasEditadas(s.tareas, id, p))
    case EliminarTarea(id) => s.(tareas := Listas.Filtrar(s.tareas, (t: Tarea) => t.id != id))
    case MarcarTarea(tareaId, miembroId, completada) => TareaMarcadaEn(s, tareaId, miembroId, completada)
    case AgregarRecompensa(r) => s.(recompensas := s.recompensas + [r])
    case EditarRecompensa(id, p) => s.(recompensas := RecompensasEditadas(s.recompensas, id, p))
    case EliminarRecompensa(id) => s.(recompensas := Listas.Filtrar(s.recompensas, (r: Recompensa) => r.id != id))
    case ReclamarRecompensa(recompensaId, miembroId) => RecompensaReclamada(s, recompensaId, miembroId, reloj)
    case AgregarTipoFalta(tf) => s.(tiposFaltas := s.tiposFaltas + [tf])
    case EditarTipoFalta(id, p) => s.(tiposFaltas := TiposFaltasEditados(s.tiposFaltas, id, p))
    case EliminarTipoFalta(id) => s.(tiposFaltas := Listas.Filtrar(s.tiposFaltas, (tf: TipoFalta) => tf.id != id))
    case PenalizarMiembro(falta) => FaltaRegistrada(s, falta)
    case CambiarModoAdmin(admin) => s.(modoAdmin := admin)
    case ReiniciarSemana(snapshot) => SemanaReiniciada(s, snapshot, reloj)
    case ActualizarConfiguracion(p) => s.(configuracion := AplicarConfiguracion(s.configuracion, p))
  }

  /** Folds a sequence of actions, each with its own clock reading. */
  function ReduceTodas(s: AppState, acciones: seq<(Accion, Reloj)>): AppState
    decreases |acciones|
  {
    if acciones == [] then s else ReduceTodas(Reduce(s, acciones[0].0, acciones[0].1), acciones[1..])
  }

  /** The initial state, given the hash function and the time the store is created. */
  function EstadoInicial(hash: string -> string, ahora: Instante): AppState
  {
    AppState(
      [], [], [],
      [TipoFalta("1", "No hacer la cama", 5, "No hacer la cama por la mañana", true),
       TipoFalta("2", "Dejar juguetes fuera", 3, "No recoger los juguetes después de jugar", true),
       TipoFalta("3", "No lavarse los dientes", 8, "Saltarse el cepillado de dientes", false)],
      [],
      Configuracion(hash("123Maria"), true, false, "23:59", 0, true, "family"),
      [], false, ahora)
  }
}
