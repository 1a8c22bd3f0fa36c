/**
 * The application's entities (members, tasks, rewards, infraction types,
 * infractions, configuration, weekly snapshots and the aggregate state),
 * their partial updates (`Partial<T>` spreads), the clock readings the
 * application takes from `Date`, and lookups by id.
 *
 * Instants are integers of milliseconds since the epoch; where the
 * application stores them as ISO-8601 strings the model keeps the number.
 * Point amounts are integers.
 */
module Tipos {
  import opened Wrappers
  import Listas

  type Instante = int

  datatype Miembro = Miembro(
    id: string,
    nombre: string,
    color: string,
    avatar: string,
    puntos: int,
    tareasCompletadas: seq<string>,
    recompensasGanadas: seq<string>,
    faltas: seq<string>)

  datatype Frecuencia = Diaria | Semanal

  datatype Tarea = Tarea(
    id: string,
    nombre: string,
    puntos: int,
    frecuencia: Frecuencia,
    miembrosAsignados: seq<string>,
    esColaborativa: bool,
    completadaHoy: bool,
    completadaPorMiembro: map<string, bool>,
    fechaCreacion: Instante)

  /** One entry of a reward's claim log. */
  datatype Reclamacion = Reclamacion(miembroId: string, fecha: Instante, semana: string)

  datatype Recompensa = Recompensa(
    id: string,
    nombre: string,
    icono: string,
    umbralPuntos: int,
    vecesMaximas: int,
    esCooperativa: bool,
    reclamadaPor: seq<Reclamacion>)

  datatype TipoFalta = TipoFalta(
    id: string,
    tipo: string,
    puntosNegativos: int,
    descripcion: string,
    compensacionDisponible: bool)

  datatype Falta = Falta(
    id: string,
    tipoFaltaId: string,
    miembroId: string,
    fecha: Instante,
    compensada: bool,
    notasAdmin: Option<string>)

  datatype Configuracion = Configuracion(
    pinHash: string,
    sonidosActivados: bool,
    modoKiosco: bool,
    horaReinicio: string,
    diaReinicio: int,
    recordatoriosActivados: bool,
    temaColores: string)

  datatype Estadisticas = Estadisticas(
    totalPuntos: int,
    totalTareas: int,
    totalRecompensas: int,
    miembroMasActivo: string)

  datatype SnapshotSemanal = SnapshotSemanal(
    id: string,
    semana: string,
    fechaInicio: Instante,
    fechaFin: Instante,
    puntosPorMiembro: map<string, int>,
    tareasCompletadas: map<string, seq<string>>,
    recompensasGanadas: map<string, seq<string>>,
    faltasRegistradas: seq<Falta>,
    estadisticas: Estadisticas)

  datatype AppState = AppState(
    miembros: seq<Miembro>,
    tareas: seq<Tarea>,
    recompensas: seq<Recompensa>,
    tiposFaltas: seq<TipoFalta>,
    faltas: seq<Falta>,
    configuracion: Configuracion,
    historial: seq<SnapshotSemanal>,
    modoAdmin: bool,
    ultimoReinicio: Instante)

  /**
   * What the application reads from `new Date()` at one moment: the instant, the
   * local weekday, hour and minute, the start of the local day, the week label
   * `format(now, 'yyyy-II')` and the bounds of the Monday-based week.
   */
  datatype Reloj = Reloj(
    ahora: Instante,
    diaSemana: int,
    hora: int,
    minuto: int,
    inicioDia: Instante,
    semana: string,
    inicioSemana: Instante,
    finSemana: Instante)

  /** The readings of one real clock agree with each other. */
  predicate RelojCoherente(r: Reloj)
  {
    && 0 <= r.diaSemana <= 6 && 0 <= r.hora <= 23 && 0 <= r.minuto <= 59
    && r.inicioDia <= r.ahora && r.inicioSemana <= r.ahora <= r.finSemana
  }

  // ---------------------------------------------------------------------------
  // Partial updates: a field that is `Some` overrides, `None` keeps the old value
  // ---------------------------------------------------------------------------

  datatype MiembroParcial = MiembroParcial(
    id: Option<string>,
    nombre: Option<string>,
    color: Option<string>,
    avatar: Option<string>,
    puntos: Option<int>,
    tareasCompletadas: Option<seq<string>>,
    recompensasGanadas: Option<seq<string>>,
    faltas: Option<seq<string>>)

  function AplicarMiembro(m: Miembro, p: MiembroParcial): Miembro
  {
    Miembro(p.id.GetOr(m.id), p.nombre.GetOr(m.nombre), p.color.GetOr(m.color), p.avatar.GetOr(m.avatar),
            p.puntos.GetOr(m.puntos), p.tareasCompletadas.GetOr(m.tareasCompletadas),
            p.recompensasGanadas.GetOr(m.recompensasGanadas), p.faltas.GetOr(m.faltas))
  }

  datatype TareaParcial = TareaParcial(
    id: Option<string>,
    nombre: Option<string>,
    puntos: Option<int>,
    frecuencia: Option<Frecuencia>,
    miembrosAsignados: Option<seq<string>>,
    esColaborativa: Option<bool>,
    completadaHoy: Option<bool>,
    completadaPorMiembro: Option<map<string, bool>>,
    fechaCreacion: Option<Instante>)

  function AplicarTarea(t: Tarea, p: TareaParcial): Tarea
  {
    Tarea(p.id.GetOr(t.id), p.nombre.GetOr(t.nombre), p.puntos.GetOr(t.puntos), p.frecuencia.GetOr(t.frecuencia),
          p.miembrosAsignados.GetOr(t.miembrosAsignados), p.esColaborativa.GetOr(t.esColaborativa),
          p.completadaHoy.GetOr(t.completadaHoy), p.completadaPorMiembro.GetOr(t.completadaPorMiembro),
          p.fechaCreacion.GetOr(t.fechaCreacion))
  }

  datatype RecompensaParcial = RecompensaParcial(
    id: Option<string>,
    nombre: Option<string>,
    icono: Option<string>,
    umbralPuntos: Option<int>,
    vecesMaximas: Option<int>,
    esCooperativa: Option<bool>,
    reclamadaPor: Option<seq<Reclamacion>>)

  function AplicarRecompensa(r: Recompensa, p: RecompensaParcial): Recompensa
  {
    Recompensa(p.id.GetOr(r.id), p.nombre.GetOr(r.nombre), p.icono.GetOr(r.icono),
               p.umbralPuntos.GetOr(r.umbralPuntos), p.vecesMaximas.GetOr(r.vecesMaximas),
               p.esCooperativa.GetOr(r.esCooperativa), p.reclamadaPor.GetOr(r.reclamadaPor))
  }

  datatype TipoFaltaParcial = TipoFaltaParcial(
    id: Option<string>,
    tipo: Option<string>,
    puntosNegativos: Option<int>,
    descripcion: Option<string>,
    compensacionDisponible: Option<bool>)

  function AplicarTipoFalta(tf: TipoFalta, p: TipoFaltaParcial): TipoFalta
  {
    TipoFalta(p.id.GetOr(tf.id), p.tipo.GetOr(tf.tipo), p.puntosNegativos.GetOr(tf.puntosNegativos),
              p.descripcion.GetOr(tf.descripcion), p.compensacionDisponible.GetOr(tf.compensacionDisponible))
  }

  datatype ConfiguracionParcial = ConfiguracionParcial(
    pinHash: Option<string>,
    sonidosActivados: Option<bool>,
    modoKiosco: Option<bool>,
    horaReinicio: Option<string>,
    diaReinicio: Option<int>,
    recordatoriosActivados: Option<bool>,
    temaColores: Option<string>)

  const SinCambiosConfiguracion := ConfiguracionParcial(None, None, None, None, None, None, None)

  function AplicarConfiguracion(c: Configuracion, p: ConfiguracionParcial): Configuracion
  {
    Configuracion(p.pinHash.GetOr(c.pinHash), p.sonidosActivados.GetOr(c.sonidosActivados),
                  p.modoKiosco.GetOr(c.modoKiosco), p.horaReinicio.GetOr(c.horaReinicio),
                  p.diaReinicio.GetOr(c.diaReinicio), p.recordatoriosActivados.GetOr(c.recordatoriosActivados),
                  p.temaColores.GetOr(c.temaColores))
  }

  datatype AppStateParcial = AppStateParcial(
    miembros: Option<seq<Miembro>>,
    tareas: Option<seq<Tarea>>,
    recompensas: Option<seq<Recompensa>>,
    tiposFaltas: Option<seq<TipoFalta>>,
    faltas: Option<seq<Falta>>,
    configuracion: Option<Configuracion>,
    historial: Option<seq<SnapshotSemanal>>,
    modoAdmin: Option<bool>,
    ultimoReinicio: Option<Instante>)

  function AplicarEstado(s: AppState, p: AppStateParcial): AppState
  {
    AppState(p.miembros.GetOr(s.miembros), p.tareas.GetOr(s.tareas), p.recompensas.GetOr(s.recompensas),
             p.tiposFaltas.GetOr(s.tiposFaltas), p.faltas.GetOr(s.faltas),
             p.configuracion.GetOr(s.configuracion), p.historial.GetOr(s.historial),
             p.modoAdmin.GetOr(s.modoAdmin), p.ultimoReinicio.GetOr(s.ultimoReinicio))
  }

  // ---------------------------------------------------------------------------
  // Ids and lookups (`list.find(x => x.id === id)`)
  // ---------------------------------------------------------------------------

  function IdsMiembros(ms: seq<Miembro>): (ids: seq<string>)
    ensures |ids| == |ms| && forall i :: 0 <= i < |ms| ==> ids[i] == ms[i].id
  {
    seq(|ms|, i requires 0 <= i < |ms| => ms[i].id)
  }

  function IdsTareas(ts: seq<Tarea>): (ids: seq<string>)
    ensures |ids| == |ts| && forall i :: 0 <= i < |ts| ==> ids[i] == ts[i].id
  {
    seq(|ts|, i requires 0 <= i < |ts| => ts[i].id)
  }

  function IdsRecompensas(rs: seq<Recompensa>): (ids: seq<string>)
    ensures |ids| == |rs| && forall i :: 0 <= i < |rs| ==> ids[i] == rs[i].id
  {
    seq(|rs|, i requires 0 <= i < |rs| => rs[i].id)
  }

  function IdsTiposFaltas(tfs: seq<TipoFalta>): (ids: seq<string>)
    ensures |ids| == |tfs| && forall i :: 0 <= i < |tfs| ==> ids[i] == tfs[i].id
  {
    seq(|tfs|, i requires 0 <= i < |tfs| => tfs[i].id)
  }

  /** Position of the first member with this id (`|ms|` when there is none). */
  function IndiceMiembro(ms: seq<Miembro>, id: string): (k: nat)
    ensures k <= |ms|
    ensures k < |ms| ==> ms[k].id == id
    ensures forall i :: 0 <= i < k ==> ms[i].id != id
  {
    Listas.Indice(IdsMiembros(ms), id)
  }

  function IndiceTarea(ts: seq<Tarea>, id: string): (k: nat)
    ensures k <= |ts|
    ensures k < |ts| ==> ts[k].id == id
    ensures forall i :: 0 <= i < k ==> ts[i].id != id
  {
    Listas.Indice(IdsTareas(ts), id)
  }

  function IndiceRecompensa(rs: seq<Recompensa>, id: string): (k: nat)
    ensures k <= |rs|
    ensures k < |rs| ==> rs[k].id == id
    ensures forall i :: 0 <= i < k ==> rs[i].id != id
  {
    Listas.Indice(IdsRecompensas(rs), id)
  }

  function IndiceTipoFalta(tfs: seq<TipoFalta>, id: string): (k: nat)
    ensures k <= |tfs|
    ensures k < |tfs| ==> tfs[k].id == id
    ensures forall i :: 0 <= i < k ==> tfs[i].id != id
  {
    Listas.Indice(IdsTiposFaltas(tfs), id)
  }

  predicate ExisteMiembro(ms: seq<Miembro>, id: string)
  {
    IndiceMiembro(ms, id) < |ms|
  }

  predicate ExisteTarea(ts: seq<Tarea>, id: string)
  {
    IndiceTarea(ts, id) < |ts|
  }

  predicate ExisteRecompensa(rs: seq<Recompensa>, id: string)
  {
    IndiceRecompensa(rs, id) < |rs|
  }

  predicate ExisteTipoFalta(tfs: seq<TipoFalta>, id: string)
  {
    IndiceTipoFalta(tfs, id) < |tfs|
  }

  /** A lookup misses exactly when no element carries the id. */
  lemma ExisteSiAlguno(s: AppState, id: string)
    ensures ExisteMiembro(s.miembros, id) <==> exists i :: 0 <= i < |s.miembros| && s.miembros[i].id == id
    ensures ExisteTarea(s.tareas, id) <==> exists i :: 0 <= i < |s.tareas| && s.tareas[i].id == id
    ensures ExisteRecompensa(s.recompensas, id) <==> exists i :: 0 <= i < |s.recompensas| && s.recompensas[i].id == id
    ensures ExisteTipoFalta(s.tiposFaltas, id) <==> exists i :: 0 <= i < |s.tiposFaltas| && s.tiposFaltas[i].id == id
  {
  }

  // ---------------------------------------------------------------------------
  // Invariants
  // ---------------------------------------------------------------------------

  /** The floor the reducer keeps: no member has negative points. */
  predicate PuntosNoNegativos(ms: seq<Miembro>)
  {
    forall i :: 0 <= i < |ms| ==> ms[i].puntos >= 0
  }
}
