/**
 * The application store: one object holding the current state, updated by
 * dispatching reducer actions. The operations the components call are its
 * methods; each one's new state is the corresponding function of the old
 * state, and the ones that change points keep every member at or above zero.
 * The hash function is fixed when the store is created; fresh ids and clock
 * readings are passed in by the caller.
 */
module Store {
  import opened Wrappers
  import opened Tipos
  import Reducer
  import Fachada
  import Snapshot
  import Reinicio
  import Csv
  import Texto
  import OrdenRecompensas
  import PropiedadesReducer

  /**
   * Whether the auto-reset effect subscribes again after an action: its
   * dependencies are `ultimoReinicio`, compared by value, and `configuracion`,
   * compared by reference. Only a configuration update and a `SET_STATE`
   * carrying a configuration build a new configuration object.
   */
  predicate RenuevaCaptura(s: AppState, a: Reducer.Accion, s': AppState)
  {
    s'.ultimoReinicio != s.ultimoReinicio
    || a.ActualizarConfiguracion?
    || (a.SetState? && a.parcial.configuracion.Some?)
  }

  class AppStore {
    const hash: string -> string
    var state: AppState
    /** The state of the render that last subscribed the auto-reset interval: its closure reads this one. */
    var capturado: AppState

    /**
     * The interval subscribed last sees the current reset instant and
     * configuration: `RenuevaCaptura` subscribes again whenever either
     * changes, so only the members, tasks and infractions it reads can be stale.
     */
    predicate CapturaCoherente()
      reads this
    {
      capturado.ultimoReinicio == state.ultimoReinicio && capturado.configuracion == state.configuracion
    }

    /** `useReducer(appReducer, initialState)`. */
    constructor (hash: string -> string, ahora: Instante)
      ensures this.hash == hash
      ensures state == Reducer.EstadoInicial(hash, ahora)
      ensures PuntosNoNegativos(state.miembros)
      ensures capturado == state
      ensures CapturaCoherente()
    {
      this.hash := hash;
      state := Reducer.EstadoInicial(hash, ahora);
      capturado := state;
    }

    /**
     * `dispatch(action)`: an action without negative points keeps the floor.
     * The re-render that follows subscribes the auto-reset interval again
     * when one of its dependencies changed.
     */
    method Dispatch(a: Reducer.Accion, reloj: Reloj)
      modifies this
      ensures state == Reducer.Reduce(old(state), a, reloj)
      ensures capturado == if RenuevaCaptura(old(state), a, state) then state else old(capturado)
      ensures old(PuntosNoNegativos(state.miembros)) && PropiedadesReducer.AccionSinNegativos(a) ==>
                PuntosNoNegativos(state.miembros)
      ensures old(CapturaCoherente()) ==> CapturaCoherente()
    {
      if PuntosNoNegativos(state.miembros) && PropiedadesReducer.AccionSinNegativos(a) {
        PropiedadesReducer.ReducePreservaPuntos(state, a, reloj);
      }
      var anterior := state;
      state := Reducer.Reduce(state, a, reloj);
      if RenuevaCaptura(anterior, a, state) {
        capturado := state;
      }
    }

    /** A new member joins last with no points and empty lists. */
    method AgregarMiembro(id: string, nombre: string, color: string, avatar: string, reloj: Reloj)
      modifies this
      ensures state == Reducer.Reduce(old(state), Reducer.AgregarMiembro(Fachada.NuevoMiembro(id, nombre, color, avatar)), reloj)
      ensures ExisteMiembro(state.miembros, id)
      ensures old(PuntosNoNegativos(state.miembros)) ==> PuntosNoNegativos(state.miembros)
      ensures capturado == old(capturado)
      ensures old(CapturaCoherente()) ==> CapturaCoherente()
    {
      Fachada.AgregarMiembroNuevo(state, id, nombre, color, avatar, reloj);
      Dispatch(Reducer.AgregarMiembro(Fachada.NuevoMiembro(id, nombre, color, avatar)), reloj);
    }

    method AgregarTarea(id: string, nombre: string, puntos: int, frecuencia: Frecuencia, asignados: seq<string>,
                        colaborativa: bool, reloj: Reloj)
      modifies this
      ensures state == Reducer.Reduce(old(state), Reducer.AgregarTarea(
                         Fachada.NuevaTarea(id, nombre, puntos, frecuencia, asignados, colaborativa, reloj.ahora)), reloj)
      ensures state.tareas[..|old(state.tareas)|] == old(state.tareas)
      ensures state.tareas[|old(state.tareas)|] ==
              Tarea(id, nombre, puntos, frecuencia, asignados, colaborativa, false, map[], reloj.ahora)
      ensures capturado == old(capturado)
      ensures old(CapturaCoherente()) ==> CapturaCoherente()
    {
      Dispatch(Reducer.AgregarTarea(Fachada.NuevaTarea(id, nombre, puntos, frecuencia, asignados, colaborativa, reloj.ahora)), reloj);
    }

    method AgregarRecompensa(id: string, nombre: string, icono: string, umbral: int, veces: int, cooperativa: bool,
                             reloj: Reloj)
      modifies this
      ensures state == Reducer.Reduce(old(state), Reducer.AgregarRecompensa(
                         Fachada.NuevaRecompensa(id, nombre, icono, umbral, veces, cooperativa)), reloj)
      ensures state.recompensas[..|old(state.recompensas)|] == old(state.recompensas)
      ensures state.recompensas[|old(state.recompensas)|].reclamadaPor == []
      ensures capturado == old(capturado)
      ensures old(CapturaCoherente()) ==> CapturaCoherente()
    {
      Dispatch(Reducer.AgregarRecompensa(Fachada.NuevaRecompensa(id, nombre, icono, umbral, veces, cooperativa)), reloj);
    }

    /** `marcarTarea`: dispatched only when the task and the member both exist. */
    method MarcarTarea(tareaId: string, miembroId: string, completada: bool, reloj: Reloj)
      modifies this
      ensures state == Fachada.MarcarTareaSiExiste(old(state), tareaId, miembroId, completada, reloj)
      ensures !ExisteTarea(old(state.tareas), tareaId) || !ExisteMiembro(old(state.miembros), miembroId) ==>
                state == old(state)
      ensures old(PuntosNoNegativos(state.miembros)) ==> PuntosNoNegativos(state.miembros)
      ensures capturado == old(capturado)
      ensures old(CapturaCoherente()) ==> CapturaCoherente()
    {
      if ExisteTarea(state.tareas, tareaId) && ExisteMiembro(state.miembros, miembroId) {
        Dispatch(Reducer.MarcarTarea(tareaId, miembroId, completada), reloj);
      }
    }

    /** `reclamarRecompensa`: dispatched only when the reward and the member both exist. */
    method ReclamarRecompensa(recompensaId: string, miembroId: string, reloj: Reloj)
      modifies this
      ensures state == Fachada.ReclamarSiExiste(old(state), recompensaId, miembroId, reloj)
      ensures !ExisteRecompensa(old(state.recompensas), recompensaId) || !ExisteMiembro(old(state.miembros), miembroId) ==>
                state == old(state)
      ensures old(PuntosNoNegativos(state.miembros)) ==> PuntosNoNegativos(state.miembros)
      ensures capturado == old(capturado)
      ensures old(CapturaCoherente()) ==> CapturaCoherente()
    {
      if ExisteRecompensa(state.recompensas, recompensaId) && ExisteMiembro(state.miembros, miembroId) {
        Dispatch(Reducer.ReclamarRecompensa(recompensaId, miembroId), reloj);
      }
    }

    /** `penalizarMiembro`: the infraction is built first, dispatched only when the type and the member exist. */
    method PenalizarMiembro(miembroId: string, tipoFaltaId: string, notas: Option<string>, id: string, reloj: Reloj)
      modifies this
      ensures state == Fachada.PenalizarSiExiste(old(state), miembroId, tipoFaltaId, notas, id, reloj)
      ensures !ExisteTipoFalta(old(state.tiposFaltas), tipoFaltaId) || !ExisteMiembro(old(state.miembros), miembroId) ==>
                state == old(state)
      ensures old(PuntosNoNegativos(state.miembros)) ==> PuntosNoNegativos(state.miembros)
      ensures capturado == old(capturado)
      ensures old(CapturaCoherente()) ==> CapturaCoherente()
    {
      var falta := Fachada.NuevaFalta(id, miembroId, tipoFaltaId, notas, reloj.ahora);
      if ExisteTipoFalta(state.tiposFaltas, tipoFaltaId) && ExisteMiembro(state.miembros, miembroId) {
        Dispatch(Reducer.PenalizarMiembro(falta), reloj);
      }
    }

    /** `verificarPin`: compares the PIN's hash with the stored one. */
    method VerificarPin(pin: string) returns (ok: bool)
      ensures ok <==> hash(pin) == state.configuracion.pinHash
    {
      ok := hash(pin) == state.configuracion.pinHash;
    }

    /** `cambiarPin`: stores the new PIN's hash; afterwards that PIN is accepted. */
    method CambiarPin(nuevoPin: string, reloj: Reloj)
      modifies this
      ensures state == old(state).(configuracion := old(state).configuracion.(pinHash := hash(nuevoPin)))
      ensures Fachada.VerificarPin(hash, state, nuevoPin)
      ensures capturado == state
      ensures CapturaCoherente()
    {
      Fachada.CambiarPinVerifica(hash, state, nuevoPin, nuevoPin, reloj);
      Dispatch(Reducer.ActualizarConfiguracion(SinCambiosConfiguracion.(pinHash := Some(hash(nuevoPin)))), reloj);
    }

    /**
     * `reiniciarSemana`: builds the snapshot of the current members and
     * infractions, then dispatches the reset with it. Storing the snapshot in
     * the browser database is not modelled.
     */
    method ReiniciarSemana(reloj: Reloj)
      modifies this
      ensures state == Reducer.Reduce(old(state),
                         Reducer.ReiniciarSemana(Snapshot.SnapshotDe(old(state.miembros), old(state.faltas), reloj)), reloj)
      ensures state.historial == old(state.historial) + [Snapshot.SnapshotDe(old(state.miembros), old(state.faltas), reloj)]
      ensures old(PuntosNoNegativos(state.miembros)) ==> PuntosNoNegativos(state.miembros)
      ensures capturado == if reloj.ahora != old(state.ultimoReinicio) then state else old(capturado)
      ensures old(CapturaCoherente()) ==> CapturaCoherente()
    {
      var snapshot := Snapshot.Construir(state.miembros, state.faltas, reloj);
      Dispatch(Reducer.ReiniciarSemana(snapshot), reloj);
    }

    /**
     * One tick of the once-a-minute check, as the source has it: the interval's
     * closure reads the state of the render that subscribed it, so both the
     * due test and the snapshot use the captured state, while the reset itself
     * is dispatched against the current one.
     */
    method VerificarReinicio(reloj: Reloj) returns (reiniciado: bool)
      modifies this
      ensures reiniciado <==> Reinicio.DebeReiniciar(reloj, old(capturado.ultimoReinicio), old(capturado.configuracion))
      ensures !reiniciado ==> state == old(state) && capturado == old(capturado)
      ensures reiniciado ==> state == Reducer.Reduce(old(state),
                Reducer.ReiniciarSemana(Snapshot.SnapshotDe(old(capturado.miembros), old(capturado.faltas), reloj)), reloj)
      ensures reiniciado ==>
                state.historial == old(state.historial) + [Snapshot.SnapshotDe(old(capturado.miembros), old(capturado.faltas), reloj)]
      ensures reiniciado ==>
                capturado == if reloj.ahora != old(state.ultimoReinicio) then state else old(capturado)
      ensures old(CapturaCoherente()) ==> CapturaCoherente()
      ensures old(CapturaCoherente()) ==>
                (reiniciado <==> Reinicio.DebeReiniciar(reloj, old(state.ultimoReinicio), old(state.configuracion)))
    {
      reiniciado := Reinicio.DebeReiniciar(reloj, capturado.ultimoReinicio, capturado.configuracion);
      if reiniciado {
        var snapshot := Snapshot.Construir(capturado.miembros, capturado.faltas, reloj);
        PropiedadesReducer.ReinicioEfecto(state, snapshot, reloj);
        Dispatch(Reducer.ReiniciarSemana(snapshot), reloj);
      }
    }

    /**
     * The tick as intended: the due test and the snapshot read the current
     * state, so the history records the week that is being closed. A reset
     * renews the capture, so no later tick on the same day resets again,
     * whichever state it reads.
     */
    method VerificarReinicioAlDia(reloj: Reloj) returns (reiniciado: bool)
      modifies this
      ensures reiniciado <==> Reinicio.DebeReiniciar(reloj, old(state.ultimoReinicio), old(state.configuracion))
      ensures !reiniciado ==> state == old(state) && capturado == old(capturado)
      ensures reiniciado ==> state == Reducer.Reduce(old(state),
                Reducer.ReiniciarSemana(Snapshot.SnapshotDe(old(state.miembros), old(state.faltas), reloj)), reloj)
      ensures reiniciado ==>
                state.historial == old(state.historial) + [Snapshot.SnapshotDe(old(state.miembros), old(state.faltas), reloj)]
      ensures old(PuntosNoNegativos(state.miembros)) ==> PuntosNoNegativos(state.miembros)
      ensures reiniciado ==>
                capturado == if reloj.ahora != old(state.ultimoReinicio) then state else old(capturado)
      ensures reiniciado && RelojCoherente(reloj) ==> capturado == state
      ensures reiniciado && RelojCoherente(reloj) ==>
                forall despues: Reloj :: despues.inicioDia == reloj.inicioDia ==>
                  !Reinicio.DebeReiniciar(despues, capturado.ultimoReinicio, capturado.configuracion)
      ensures old(CapturaCoherente()) ==> CapturaCoherente()
    {
      reiniciado := Reinicio.DebeReiniciar(reloj, state.ultimoReinicio, state.configuracion);
      if reiniciado {
        var anterior := state;
        ReiniciarSemana(reloj);
        if RelojCoherente(reloj) {
          forall despues: Reloj | despues.inicioDia == reloj.inicioDia
            ensures !Reinicio.DebeReiniciar(despues, capturado.ultimoReinicio, capturado.configuracion)
          {
            Reinicio.NoReiniciaDosVecesElMismoDia(anterior,
              Snapshot.SnapshotDe(anterior.miembros, anterior.faltas, reloj), reloj, despues);
          }
        }
      }
    }

    /** The text of `exportarCSV`'s file. */
    method ExportarCsv() returns (contenido: string)
      ensures contenido == Csv.Contenido(state.historial, state.miembros)
      ensures Csv.TextosSin(state.historial, state.miembros, '\n') ==>
                |Texto.Partes(contenido, '\n')| == 1 + |state.historial| * |state.miembros|
    {
      contenido := Csv.Contenido(state.historial, state.miembros);
      if Csv.TextosSin(state.historial, state.miembros, '\n') {
        Csv.ContenidoPorLineas(state.historial, state.miembros);
      }
    }

    /**
     * The rewards list renders `state.recompensas.sort(...)`, which sorts the
     * store's own array in place: afterwards the state holds the stable
     * ascending order by threshold, with the same rewards.
     */
    method OrdenarRecompensas()
      modifies this
      ensures state == old(state).(recompensas := OrdenRecompensas.OrdenarPorUmbral(old(state.recompensas)))
      ensures OrdenRecompensas.Ordenada(state.recompensas)
      ensures multiset(state.recompensas) == multiset(old(state.recompensas))
      ensures capturado == old(capturado)
      ensures old(CapturaCoherente()) ==> CapturaCoherente()
    {
      var a := new Recompensa[|state.recompensas|](i requires 0 <= i < |state.recompensas| reads this => state.recompensas[i]);
      assert a[..] == state.recompensas;
      OrdenRecompensas.OrdenarEnSitio(a);
      OrdenRecompensas.OrdenarOrdena(state.recompensas);
      OrdenRecompensas.OrdenarPermuta(state.recompensas);
      state := state.(recompensas := a[..]);
    }
  }

  /** Marking a task leaves the last reset and the configuration as they were, so the capture is not renewed. */
  lemma MarcarNoRenueva(s: AppState, tareaId: string, miembroId: string, completada: bool, reloj: Reloj)
    ensures !RenuevaCaptura(s, Reducer.MarcarTarea(tareaId, miembroId, completada),
                            Reducer.Reduce(s, Reducer.MarcarTarea(tareaId, miembroId, completada), reloj))
  {
  }

  /** Marking done keeps the ids in place and adds the task's points to the member at `i`. */
  lemma MarcarSubePuntos(s: AppState, tareaId: string, miembroId: string, i: int, reloj: Reloj)
    requires ExisteTarea(s.tareas, tareaId)
    requires s.tareas[IndiceTarea(s.tareas, tareaId)].puntos > 0
    requires 0 <= i < |s.miembros| && s.miembros[i].id == miembroId && s.miembros[i].puntos >= 0
    ensures var s1 := Reducer.Reduce(s, Reducer.MarcarTarea(tareaId, miembroId, true), reloj);
      && |s1.miembros| == |s.miembros|
      && (forall k :: 0 <= k < |s1.miembros| ==> s1.miembros[k].id == s.miembros[k].id)
      && s1.miembros[i].puntos == s.miembros[i].puntos + s.tareas[IndiceTarea(s.tareas, tareaId)].puntos
  {
    var s1 := Reducer.Reduce(s, Reducer.MarcarTarea(tareaId, miembroId, true), reloj);
    PropiedadesReducer.MarcarConservaIds(s, tareaId, miembroId, true, reloj);
    PropiedadesReducer.MarcarEnMiembros(s, tareaId, miembroId, true, reloj);
    assert forall k :: 0 <= k < |s1.miembros| ==> s1.miembros[k].id == IdsMiembros(s.miembros)[k];
  }

  /**
   * The captured state goes stale: marking a task done is not one of the
   * actions that subscribe the interval again, so the captured members keep
   * the old points, and a snapshot built from them records the points from
   * before the mark rather than the current ones.
   */
  lemma InstantaneaObsoleta(s: AppState, tareaId: string, miembroId: string, i: int, r1: Reloj, reloj: Reloj)
    requires ExisteTarea(s.tareas, tareaId)
    requires s.tareas[IndiceTarea(s.tareas, tareaId)].puntos > 0
    requires 0 <= i < |s.miembros| && s.miembros[i].id == miembroId && s.miembros[i].puntos >= 0
    requires forall a, b :: 0 <= a < b < |s.miembros| ==> s.miembros[a].id != s.miembros[b].id
    ensures var accion := Reducer.MarcarTarea(tareaId, miembroId, true);
      var s1 := Reducer.Reduce(s, accion, r1);
      var p := s.tareas[IndiceTarea(s.tareas, tareaId)].puntos;
      && !RenuevaCaptura(s, accion, s1)
      && miembroId in Snapshot.SnapshotDe(s.miembros, s.faltas, reloj).puntosPorMiembro
      && Snapshot.SnapshotDe(s.miembros, s.faltas, reloj).puntosPorMiembro[miembroId] == s.miembros[i].puntos
      && miembroId in Snapshot.SnapshotDe(s1.miembros, s1.faltas, reloj).puntosPorMiembro
      && Snapshot.SnapshotDe(s1.miembros, s1.faltas, reloj).puntosPorMiembro[miembroId] == s.miembros[i].puntos + p
      && Snapshot.SnapshotDe(s.miembros, s.faltas, reloj) != Snapshot.SnapshotDe(s1.miembros, s1.faltas, reloj)
  {
    var s1 := Reducer.Reduce(s, Reducer.MarcarTarea(tareaId, miembroId, true), r1);
    MarcarNoRenueva(s, tareaId, miembroId, true, r1);
    MarcarSubePuntos(s, tareaId, miembroId, i, r1);
    Snapshot.SnapshotIdsDistintos(s.miembros, s.faltas, reloj, i);
    Snapshot.SnapshotIdsDistintos(s1.miembros, s1.faltas, reloj, i);
  }
}
