/**
 * What the reducer guarantees, case by case: unknown ids leave the state
 * alone, points never drop below zero, completion bookkeeping, the weekly
 * reset and the cascade of deleting a member.
 */
module PropiedadesReducer {
  import opened Wrappers
  import opened Tipos
  import opened Reducer
  import Listas
  import Snapshot

  // ---------------------------------------------------------------------------
  // Unknown ids
  // ---------------------------------------------------------------------------

  lemma MarcarDesconocida(s: AppState, tareaId: string, miembroId: string, completada: bool, reloj: Reloj)
    requires !ExisteTarea(s.tareas, tareaId)
    ensures Reduce(s, MarcarTarea(tareaId, miembroId, completada), reloj) == s
  {
  }

  lemma ReclamarDesconocida(s: AppState, recompensaId: string, miembroId: string, reloj: Reloj)
    requires !ExisteRecompensa(s.recompensas, recompensaId)
    ensures Reduce(s, ReclamarRecompensa(recompensaId, miembroId), reloj) == s
  {
  }

  lemma PenalizarDesconocido(s: AppState, falta: Falta, reloj: Reloj)
    requires !ExisteTipoFalta(s.tiposFaltas, falta.tipoFaltaId)
    ensures Reduce(s, PenalizarMiembro(falta), reloj) == s
  {
  }

  // ---------------------------------------------------------------------------
  // The points floor
  // ---------------------------------------------------------------------------

  /**
   * The three point-changing cases leave every member they touch at or above
   * zero, whatever the old points and whatever the amounts.
   */
  lemma PuntosTocadosNoNegativos(s: AppState, a: Accion, reloj: Reloj)
    requires a.MarcarTarea? || a.ReclamarRecompensa? || a.PenalizarMiembro?
    ensures var s' := Reduce(s, a, reloj);
      |s'.miembros| == |s.miembros| &&
      forall i :: 0 <= i < |s.miembros| ==>
        s'.miembros[i] == s.miembros[i] || s'.miembros[i].puntos >= 0
  {
  }

  /** The payload of an action brings no negative points into the state. */
  predicate AccionSinNegativos(a: Accion)
  {
    match a
    case SetState(p) => p.miembros.Some? ==> PuntosNoNegativos(p.miembros.value)
    case AgregarMiembro(m) => m.puntos >= 0
    case EditarMiembro(_, p) => p.puntos.Some? ==> p.puntos.value >= 0
    case _ => true
  }

  /** Keeping only some members keeps the floor. */
  lemma {:induction false} FiltrarNoNegativos(ms: seq<Miembro>, p: Miembro -> bool)
    requires PuntosNoNegativos(ms)
    ensures PuntosNoNegativos(Listas.Filtrar(ms, p))
  {
    if ms != [] {
      FiltrarNoNegativos(ms[1..], p);
      var resto := Listas.Filtrar(ms[1..], p);
      assert Listas.Filtrar(ms, p) == (if p(ms[0]) then [ms[0]] else []) + resto;
    }
  }

  /** Every action with a non-negative payload preserves the floor. */
  lemma ReducePreservaPuntos(s: AppState, a: Accion, reloj: Reloj)
    requires PuntosNoNegativos(s.miembros) && AccionSinNegativos(a)
    ensures PuntosNoNegativos(Reduce(s, a, reloj).miembros)
  {
    var ms := Reduce(s, a, reloj).miembros;
    match a
    case SetState(p) =>
    case AgregarMiembro(m) =>
      assert ms == s.miembros + [m];
      assert forall i :: 0 <= i < |ms| ==> ms[i] == (if i < |s.miembros| then s.miembros[i] else m);
    case EditarMiembro(id, p) =>
      assert forall i :: 0 <= i < |ms| ==> ms[i] == (if s.miembros[i].id == id then AplicarMiembro(s.miembros[i], p) else s.miembros[i]);
    case EliminarMiembro(id) =>
      FiltrarNoNegativos(s.miembros, (m: Miembro) => m.id != id);
    case MarcarTarea(_, _, _) =>
      PuntosTocadosNoNegativos(s, a, reloj);
    case ReclamarRecompensa(_, _) =>
      PuntosTocadosNoNegativos(s, a, reloj);
    case PenalizarMiembro(_) =>
      PuntosTocadosNoNegativos(s, a, reloj);
    case ReiniciarSemana(snapshot) =>
      assert forall i :: 0 <= i < |ms| ==> ms[i].puntos == s.miembros[i].puntos;
    case _ =>
      assert ms == s.miembros;
  }

  lemma {:induction false} ReduceTodasPreservaPuntos(s: AppState, acciones: seq<(Accion, Reloj)>)
    requires PuntosNoNegativos(s.miembros)
    requires forall i :: 0 <= i < |acciones| ==> AccionSinNegativos(acciones[i].0)
    ensures PuntosNoNegativos(ReduceTodas(s, acciones).miembros)
    decreases |acciones|
  {
    if acciones != [] {
      ReducePreservaPuntos(s, acciones[0].0, acciones[0].1);
      ReduceTodasPreservaPuntos(Reduce(s, acciones[0].0, acciones[0].1), acciones[1..]);
    }
  }

  lemma EstadoInicialSinNegativos(hash: string -> string, ahora: Instante)
    ensures PuntosNoNegativos(EstadoInicial(hash, ahora).miembros)
    ensures EstadoInicial(hash, ahora).configuracion.pinHash == hash("123Maria")
    ensures |EstadoInicial(hash, ahora).tiposFaltas| == 3
  {
  }

  // ---------------------------------------------------------------------------
  // MARCAR_TAREA
  // ---------------------------------------------------------------------------

  /**
   * Marking a task changes no id of any task or member and no task's points,
   * and nothing outside the members and the tasks.
   */
  lemma MarcarConservaIds(s: AppState, tareaId: string, miembroId: string, completada: bool, reloj: Reloj)
    ensures var s' := Reduce(s, MarcarTarea(tareaId, miembroId, completada), reloj);
      IdsTareas(s'.tareas) == IdsTareas(s.tareas) && IdsMiembros(s'.miembros) == IdsMiembros(s.miembros)
      && (forall i :: 0 <= i < |s.tareas| ==> s'.tareas[i].puntos == s.tareas[i].puntos)
      && s' == s.(miembros := s'.miembros, tareas := s'.tareas)
  {
  }

  /**
   * The effect on members: the one with the id gets the task's points added
   * (completed) or taken away (uncompleted), floored at zero, and its list of
   * completed tasks gets the id appended or every copy removed; every other member
   * and the member count stay as they were.
   */
  lemma MarcarEnMiembros(s: AppState, tareaId: string, miembroId: string, completada: bool, reloj: Reloj)
    requires ExisteTarea(s.tareas, tareaId)
    ensures var s' := Reduce(s, MarcarTarea(tareaId, miembroId, completada), reloj);
      var p := s.tareas[IndiceTarea(s.tareas, tareaId)].puntos;
      |s'.miembros| == |s.miembros| &&
      forall i :: 0 <= i < |s.miembros| ==>
        if s.miembros[i].id == miembroId then
          s'.miembros[i] == s.miembros[i].(
            puntos := Max0(s.miembros[i].puntos + (if completada then p else -p)),
            tareasCompletadas := if completada then s.miembros[i].tareasCompletadas + [tareaId]
                                 else Listas.Sin(s.miembros[i].tareasCompletadas, tareaId))
        else s'.miembros[i] == s.miembros[i]
  {
  }

  /**
   * Marking a task done and then undone for the same member restores the
   * member's points when neither the points nor the task's value are negative,
   * and leaves no copy of the task id in the member's list.
   */
  lemma {:induction false} MarcarYDesmarcar(s: AppState, tareaId: string, miembroId: string, r1: Reloj, r2: Reloj)
    requires ExisteTarea(s.tareas, tareaId)
    requires s.tareas[IndiceTarea(s.tareas, tareaId)].puntos >= 0
    requires PuntosNoNegativos(s.miembros)
    ensures var s1 := Reduce(s, MarcarTarea(tareaId, miembroId, true), r1);
      var s2 := Reduce(s1, MarcarTarea(tareaId, miembroId, false), r2);
      |s2.miembros| == |s.miembros| &&
      forall i :: 0 <= i < |s.miembros| && s.miembros[i].id == miembroId ==>
        && s2.miembros[i].puntos == s.miembros[i].puntos
        && tareaId !in s2.miembros[i].tareasCompletadas
        && s2.miembros[i].tareasCompletadas == Listas.Sin(s.miembros[i].tareasCompletadas, tareaId)
  {
    var s1 := Reduce(s, MarcarTarea(tareaId, miembroId, true), r1);
    MarcarConservaIds(s, tareaId, miembroId, true, r1);
    MarcarEnMiembros(s, tareaId, miembroId, true, r1);
    assert IndiceTarea(s1.tareas, tareaId) == IndiceTarea(s.tareas, tareaId);
    MarcarEnMiembros(s1, tareaId, miembroId, false, r2);
    forall i | 0 <= i < |s.miembros| && s.miembros[i].id == miembroId
      ensures Reduce(s1, MarcarTarea(tareaId, miembroId, false), r2).miembros[i].tareasCompletadas
              == Listas.Sin(s.miembros[i].tareasCompletadas, tareaId)
    {
      Listas.SinTrasAgregar(s.miembros[i].tareasCompletadas, tareaId);
    }
  }

  /**
   * Marking done twice is not idempotent: the id is appended twice and the
   * points are added twice.
   */
  lemma {:induction false} MarcarDosVeces(s: AppState, tareaId: string, miembroId: string, r1: Reloj, r2: Reloj)
    requires ExisteTarea(s.tareas, tareaId)
    requires s.tareas[IndiceTarea(s.tareas, tareaId)].puntos >= 0
    requires PuntosNoNegativos(s.miembros)
    ensures var p := s.tareas[IndiceTarea(s.tareas, tareaId)].puntos;
      var s1 := Reduce(s, MarcarTarea(tareaId, miembroId, true), r1);
      var s2 := Reduce(s1, MarcarTarea(tareaId, miembroId, true), r2);
      |s2.miembros| == |s.miembros| &&
      forall i :: 0 <= i < |s.miembros| && s.miembros[i].id == miembroId ==>
        && s2.miembros[i].puntos == s.miembros[i].puntos + 2 * p
        && s2.miembros[i].tareasCompletadas == s.miembros[i].tareasCompletadas + [tareaId, tareaId]
  {
    var s1 := Reduce(s, MarcarTarea(tareaId, miembroId, true), r1);
    MarcarConservaIds(s, tareaId, miembroId, true, r1);
    MarcarEnMiembros(s, tareaId, miembroId, true, r1);
    assert IndiceTarea(s1.tareas, tareaId) == IndiceTarea(s.tareas, tareaId);
    MarcarEnMiembros(s1, tareaId, miembroId, true, r2);
    forall i | 0 <= i < |s.miembros| && s.miembros[i].id == miembroId
      ensures Reduce(s1, MarcarTarea(tareaId, miembroId, true), r2).miembros[i].tareasCompletadas
              == s.miembros[i].tareasCompletadas + [tareaId, tareaId]
    {
      assert s.miembros[i].tareasCompletadas + [tareaId] + [tareaId]
          == s.miembros[i].tareasCompletadas + [tareaId, tareaId];
    }
  }

  /**
   * The effect on tasks: every task with the id gets the member's entry written
   * (even for an id that names no member) and `completadaHoy` recomputed; a
   * collaborative task is done exactly when every assigned member's entry is
   * `true`, an individual one exactly when some entry is `true`. Every other task
   * is unchanged.
   */
  lemma MarcarEnTareas(s: AppState, tareaId: string, miembroId: string, completada: bool, reloj: Reloj)
    requires ExisteTarea(s.tareas, tareaId)
    ensures var s' := Reduce(s, MarcarTarea(tareaId, miembroId, completada), reloj);
      |s'.tareas| == |s.tareas| &&
      forall i :: 0 <= i < |s.tareas| ==>
        if s.tareas[i].id == tareaId then
          var cpm := s'.tareas[i].completadaPorMiembro;
          && s'.tareas[i] == s.tareas[i].(completadaPorMiembro := cpm, completadaHoy := s'.tareas[i].completadaHoy)
          && cpm == s.tareas[i].completadaPorMiembro[miembroId := completada]
          && miembroId in cpm && cpm[miembroId] == completada
          && s'.tareas[i].miembrosAsignados == s.tareas[i].miembrosAsignados
          && s'.tareas[i].esColaborativa == s.tareas[i].esColaborativa
          && (s.tareas[i].esColaborativa ==>
               (s'.tareas[i].completadaHoy <==>
                  forall j :: 0 <= j < |s.tareas[i].miembrosAsignados| ==>
                    s.tareas[i].miembrosAsignados[j] in cpm && cpm[s.tareas[i].miembrosAsignados[j]]))
          && (!s.tareas[i].esColaborativa ==>
               (s'.tareas[i].completadaHoy <==> exists k :: k in cpm && cpm[k]))
        else s'.tareas[i] == s.tareas[i]
  {
  }

  /** An individual task becomes done for the day as soon as anyone marks it. */
  lemma IndividualCompletada(s: AppState, tareaId: string, miembroId: string, reloj: Reloj)
    requires ExisteTarea(s.tareas, tareaId)
    ensures var s' := Reduce(s, MarcarTarea(tareaId, miembroId, true), reloj);
      forall i :: 0 <= i < |s.tareas| && s.tareas[i].id == tareaId && !s.tareas[i].esColaborativa ==>
        s'.tareas[i].completadaHoy
  {
    var s' := Reduce(s, MarcarTarea(tareaId, miembroId, true), reloj);
    forall i | 0 <= i < |s.tareas| && s.tareas[i].id == tareaId && !s.tareas[i].esColaborativa
      ensures s'.tareas[i].completadaHoy
    {
      assert miembroId in s'.tareas[i].completadaPorMiembro && s'.tareas[i].completadaPorMiembro[miembroId];
    }
  }

  /** An assigned member undoing a collaborative task makes it not done for the day. */
  lemma ColaborativaDesmarcada(s: AppState, tareaId: string, miembroId: string, reloj: Reloj)
    requires ExisteTarea(s.tareas, tareaId)
    ensures var s' := Reduce(s, MarcarTarea(tareaId, miembroId, false), reloj);
      forall i :: 0 <= i < |s.tareas| && s.tareas[i].id == tareaId && s.tareas[i].esColaborativa
                  && miembroId in s.tareas[i].miembrosAsignados ==>
        !s'.tareas[i].completadaHoy
  {
    var s' := Reduce(s, MarcarTarea(tareaId, miembroId, false), reloj);
    forall i | 0 <= i < |s.tareas| && s.tareas[i].id == tareaId && s.tareas[i].esColaborativa
               && miembroId in s.tareas[i].miembrosAsignados
      ensures !s'.tareas[i].completadaHoy
    {
      var asignados := s.tareas[i].miembrosAsignados;
      var j :| 0 <= j < |asignados| && asignados[j] == miembroId;
      assert !s'.tareas[i].completadaPorMiembro[asignados[j]];
    }
  }

  /**
   * A collaborative task with members A and B: A alone does not finish it, B
   * afterwards does.
   */
  lemma ColaborativaDosMiembros(s: AppState, tareaId: string, a: string, b: string, r1: Reloj, r2: Reloj)
    requires |s.tareas| == 1 && s.tareas[0].id == tareaId && s.tareas[0].esColaborativa
    requires s.tareas[0].miembrosAsignados == [a, b] && a != b
    requires s.tareas[0].completadaPorMiembro == map[]
    ensures var s1 := Reduce(s, MarcarTarea(tareaId, a, true), r1);
      var s2 := Reduce(s1, MarcarTarea(tareaId, b, true), r2);
      !s1.tareas[0].completadaHoy && s2.tareas[0].completadaHoy
  {
    var s1 := Reduce(s, MarcarTarea(tareaId, a, true), r1);
    assert s1.tareas[0].completadaPorMiembro == map[a := true];
    assert s1.tareas[0].miembrosAsignados[1] == b;
  }

  // ---------------------------------------------------------------------------
  // RECLAMAR_RECOMPENSA and PENALIZAR_MIEMBRO
  // ---------------------------------------------------------------------------

  /**
   * Claiming a known reward: the member with the id pays the threshold (floored
   * at zero) and records the reward; each reward with the id records the claim
   * with the clock's instant and week label; nothing else changes.
   */
  lemma ReclamarEfecto(s: AppState, recompensaId: string, miembroId: string, reloj: Reloj)
    requires ExisteRecompensa(s.recompensas, recompensaId)
    ensures var s' := Reduce(s, ReclamarRecompensa(recompensaId, miembroId), reloj);
      var umbral := s.recompensas[IndiceRecompensa(s.recompensas, recompensaId)].umbralPuntos;
      && |s'.miembros| == |s.miembros| && |s'.recompensas| == |s.recompensas|
      && (forall i :: 0 <= i < |s.miembros| ==>
           if s.miembros[i].id == miembroId then
             s'.miembros[i] == s.miembros[i].(puntos := Max0(s.miembros[i].puntos - umbral),
                                              recompensasGanadas := s.miembros[i].recompensasGanadas + [recompensaId])
           else s'.miembros[i] == s.miembros[i])
      && (forall i :: 0 <= i < |s.recompensas| ==>
           if s.recompensas[i].id == recompensaId then
             s'.recompensas[i] == s.recompensas[i].(reclamadaPor :=
               s.recompensas[i].reclamadaPor + [Reclamacion(miembroId, reloj.ahora, reloj.semana)])
           else s'.recompensas[i] == s.recompensas[i])
      && s' == s.(miembros := s'.miembros, recompensas := s'.recompensas)
  {
  }

  /**
   * Penalizing with a known infraction type: the member with the id loses the
   * type's points (floored at zero) and records the infraction id; the
   * infraction is appended to the global list whether or not the member exists.
   */
  lemma PenalizarEfecto(s: AppState, falta: Falta, reloj: Reloj)
    requires ExisteTipoFalta(s.tiposFaltas, falta.tipoFaltaId)
    ensures var s' := Reduce(s, PenalizarMiembro(falta), reloj);
      var negativos := s.tiposFaltas[IndiceTipoFalta(s.tiposFaltas, falta.tipoFaltaId)].puntosNegativos;
      && |s'.miembros| == |s.miembros|
      && (forall i :: 0 <= i < |s.miembros| ==>
           if s.miembros[i].id == falta.miembroId then
             s'.miembros[i] == s.miembros[i].(puntos := Max0(s.miembros[i].puntos - negativos),
                                              faltas := s.miembros[i].faltas + [falta.id])
           else s'.miembros[i] == s.miembros[i])
      && s'.faltas == s.faltas + [falta]
      && s' == s.(miembros := s'.miembros, faltas := s'.faltas)
  {
  }

  // ---------------------------------------------------------------------------
  // REINICIAR_SEMANA
  // ---------------------------------------------------------------------------

  /**
   * The weekly reset appends exactly the snapshot to the history (even when one
   * with the same id is already there), clears every task's completion, every
   * member's completed tasks and infractions and the global infractions, and
   * keeps points, claimed rewards and the member and task counts.
   */
  lemma ReinicioEfecto(s: AppState, snapshot: SnapshotSemanal, reloj: Reloj)
    ensures var s' := Reduce(s, ReiniciarSemana(snapshot), reloj);
      && s'.historial == s.historial + [snapshot]
      && |s'.historial| == |s.historial| + 1
      && |s'.tareas| == |s.tareas| && |s'.miembros| == |s.miembros|
      && (forall i :: 0 <= i < |s.tareas| ==>
            s'.tareas[i] == s.tareas[i].(completadaHoy := false, completadaPorMiembro := map[]))
      && (forall i :: 0 <= i < |s.miembros| ==>
            s'.miembros[i] == s.miembros[i].(tareasCompletadas := [], faltas := []))
      && s'.faltas == []
      && s'.ultimoReinicio == reloj.ahora
      && s'.recompensas == s.recompensas && s'.configuracion == s.configuracion
      && s'.tiposFaltas == s.tiposFaltas && s'.modoAdmin == s.modoAdmin
  {
  }

  /** The members, their total points and the points floor survive the reset. */
  lemma ReinicioConservaPuntos(s: AppState, snapshot: SnapshotSemanal, reloj: Reloj)
    ensures IdsMiembros(Reduce(s, ReiniciarSemana(snapshot), reloj).miembros) == IdsMiembros(s.miembros)
    ensures Snapshot.SumaPuntos(Reduce(s, ReiniciarSemana(snapshot), reloj).miembros) == Snapshot.SumaPuntos(s.miembros)
    ensures PuntosNoNegativos(s.miembros) ==> PuntosNoNegativos(Reduce(s, ReiniciarSemana(snapshot), reloj).miembros)
  {
    var ms := Reduce(s, ReiniciarSemana(snapshot), reloj).miembros;
    assert |ms| == |s.miembros| && forall i :: 0 <= i < |ms| ==> ms[i].puntos == s.miembros[i].puntos;
    Snapshot.SumaPuntosIgual(ms, s.miembros);
  }

  // ---------------------------------------------------------------------------
  // ELIMINAR_MIEMBRO, ELIMINAR_TAREA, EDITAR_MIEMBRO
  // ---------------------------------------------------------------------------

  /** `list.filter(x => x.id !== id)`, read in terms of ids. */
  lemma MiembrosSinId(xs: seq<Miembro>, id: string, kept: seq<Miembro>)
    requires kept == Listas.Filtrar(xs, (m: Miembro) => m.id != id)
    ensures && (forall i :: 0 <= i < |kept| ==> kept[i].id != id)
      && (forall i :: 0 <= i < |xs| && xs[i].id != id ==> xs[i] in kept)
      && (forall m: Miembro :: m.id != id ==> multiset(kept)[m] == multiset(xs)[m])
      && Listas.Subsecuencia(kept, xs)
  {
    Listas.FiltrarConserva(xs, (m: Miembro) => m.id != id);
  }

  lemma TareasSinId(xs: seq<Tarea>, id: string, kept: seq<Tarea>)
    requires kept == Listas.Filtrar(xs, (t: Tarea) => t.id != id)
    ensures && (forall i :: 0 <= i < |kept| ==> kept[i].id != id)
      && (forall i :: 0 <= i < |xs| && xs[i].id != id ==> xs[i] in kept)
      && (forall t: Tarea :: t.id != id ==> multiset(kept)[t] == multiset(xs)[t])
      && Listas.Subsecuencia(kept, xs)
  {
    Listas.FiltrarConserva(xs, (t: Tarea) => t.id != id);
  }

  lemma RecompensasSinId(xs: seq<Recompensa>, id: string, kept: seq<Recompensa>)
    requires kept == Listas.Filtrar(xs, (r: Recompensa) => r.id != id)
    ensures && (forall i :: 0 <= i < |kept| ==> kept[i].id != id)
      && (forall i :: 0 <= i < |xs| && xs[i].id != id ==> xs[i] in kept)
      && (forall r: Recompensa :: r.id != id ==> multiset(kept)[r] == multiset(xs)[r])
      && Listas.Subsecuencia(kept, xs)
  {
    Listas.FiltrarConserva(xs, (r: Recompensa) => r.id != id);
  }

  lemma TiposFaltasSinId(xs: seq<TipoFalta>, id: string, kept: seq<TipoFalta>)
    requires kept == Listas.Filtrar(xs, (tf: TipoFalta) => tf.id != id)
    ensures && (forall i :: 0 <= i < |kept| ==> kept[i].id != id)
      && (forall i :: 0 <= i < |xs| && xs[i].id != id ==> xs[i] in kept)
      && (forall tf: TipoFalta :: tf.id != id ==> multiset(kept)[tf] == multiset(xs)[tf])
      && Listas.Subsecuencia(kept, xs)
  {
    Listas.FiltrarConserva(xs, (tf: TipoFalta) => tf.id != id);
  }

  /** Every task loses the id from its assignments and keeps everything else. */
  lemma TareasSinAsignado(ts: seq<Tarea>, id: string, ts': seq<Tarea>)
    requires ts' == SinAsignar(ts, id)
    ensures && |ts'| == |ts|
      && (forall i :: 0 <= i < |ts| ==> ts'[i] == ts[i].(miembrosAsignados := Listas.Sin(ts[i].miembrosAsignados, id)))
      && (forall i :: 0 <= i < |ts| ==>
            && id !in ts'[i].miembrosAsignados
            && (forall x :: x in ts'[i].miembrosAsignados <==> x in ts[i].miembrosAsignados && x != id))
  {
  }

  /**
   * Deleting a member removes every member with the id, keeps every copy of
   * the others in order, and strips the id from every task's assignments; the completion maps,
   * the rewards' claim logs and the infractions are left as they were.
   */
  lemma {:induction false} EliminarMiembroEfecto(s: AppState, id: string, reloj: Reloj)
    ensures var s' := Reduce(s, EliminarMiembro(id), reloj);
      && (forall i :: 0 <= i < |s'.miembros| ==> s'.miembros[i].id != id)
      && (forall i :: 0 <= i < |s.miembros| && s.miembros[i].id != id ==> s.miembros[i] in s'.miembros)
      && (forall m: Miembro :: m.id != id ==> multiset(s'.miembros)[m] == multiset(s.miembros)[m])
      && Listas.Subsecuencia(s'.miembros, s.miembros)
      && |s'.tareas| == |s.tareas|
      && (forall i :: 0 <= i < |s.tareas| ==>
            s'.tareas[i] == s.tareas[i].(miembrosAsignados := Listas.Sin(s.tareas[i].miembrosAsignados, id)))
      && (forall i :: 0 <= i < |s.tareas| ==>
            && id !in s'.tareas[i].miembrosAsignados
            && (forall x :: x in s'.tareas[i].miembrosAsignados <==> x in s.tareas[i].miembrosAsignados && x != id))
      && s'.recompensas == s.recompensas && s'.faltas == s.faltas && s'.historial == s.historial
      && s'.tiposFaltas == s.tiposFaltas && s'.configuracion == s.configuracion
      && s'.modoAdmin == s.modoAdmin && s'.ultimoReinicio == s.ultimoReinicio
  {
    var s' := Reduce(s, EliminarMiembro(id), reloj);
    assert s' == MiembroEliminado(s, id);
    MiembrosSinId(s.miembros, id, s'.miembros);
    TareasSinAsignado(s.tareas, id, s'.tareas);
  }

  /**
   * Deleting a task removes every task with the id, keeps every copy of the
   * others in order, and touches nothing else: in particular no member (their
   * completed-task lists keep the id).
   */
  lemma EliminarTareaEfecto(s: AppState, id: string, reloj: Reloj)
    ensures var s' := Reduce(s, EliminarTarea(id), reloj);
      && s'.miembros == s.miembros
      && (forall i :: 0 <= i < |s'.tareas| ==> s'.tareas[i].id != id)
      && (forall i :: 0 <= i < |s.tareas| && s.tareas[i].id != id ==> s.tareas[i] in s'.tareas)
      && (forall t: Tarea :: t.id != id ==> multiset(s'.tareas)[t] == multiset(s.tareas)[t])
      && Listas.Subsecuencia(s'.tareas, s.tareas)
      && s'.recompensas == s.recompensas && s'.faltas == s.faltas && s'.historial == s.historial
      && s'.tiposFaltas == s.tiposFaltas && s'.configuracion == s.configuracion
      && s'.modoAdmin == s.modoAdmin && s'.ultimoReinicio == s.ultimoReinicio
  {
    var s' := Reduce(s, EliminarTarea(id), reloj);
    assert s' == s.(tareas := Listas.Filtrar(s.tareas, (t: Tarea) => t.id != id));
    TareasSinId(s.tareas, id, s'.tareas);
  }

  /** Deleting a reward removes every reward with the id, keeps every copy of the others in order, and nothing else changes. */
  lemma EliminarRecompensaEfecto(s: AppState, id: string, reloj: Reloj)
    ensures var s' := Reduce(s, EliminarRecompensa(id), reloj);
      && s' == s.(recompensas := s'.recompensas)
      && (forall i :: 0 <= i < |s'.recompensas| ==> s'.recompensas[i].id != id)
      && (forall r: Recompensa :: r.id != id ==> multiset(s'.recompensas)[r] == multiset(s.recompensas)[r])
      && Listas.Subsecuencia(s'.recompensas, s.recompensas)
  {
    var s' := Reduce(s, EliminarRecompensa(id), reloj);
    assert s' == s.(recompensas := Listas.Filtrar(s.recompensas, (r: Recompensa) => r.id != id));
    RecompensasSinId(s.recompensas, id, s'.recompensas);
  }

  /**
   * Deleting an infraction type removes every type with the id, keeps every
   * copy of the others in order, and nothing else changes: the infractions
   * already recorded keep pointing at the deleted id.
   */
  lemma EliminarTipoFaltaEfecto(s: AppState, id: string, reloj: Reloj)
    ensures var s' := Reduce(s, EliminarTipoFalta(id), reloj);
      && s' == s.(tiposFaltas := s'.tiposFaltas)
      && (forall i :: 0 <= i < |s'.tiposFaltas| ==> s'.tiposFaltas[i].id != id)
      && (forall tf: TipoFalta :: tf.id != id ==> multiset(s'.tiposFaltas)[tf] == multiset(s.tiposFaltas)[tf])
      && Listas.Subsecuencia(s'.tiposFaltas, s.tiposFaltas)
  {
    var s' := Reduce(s, EliminarTipoFalta(id), reloj);
    assert s' == s.(tiposFaltas := Listas.Filtrar(s.tiposFaltas, (tf: TipoFalta) => tf.id != id));
    TiposFaltasSinId(s.tiposFaltas, id, s'.tiposFaltas);
  }

  // ---------------------------------------------------------------------------
  // AGREGAR_*, EDITAR_*, CAMBIAR_MODO_ADMIN, SET_STATE, ACTUALIZAR_CONFIGURACION
  // ---------------------------------------------------------------------------

  /** Adding a member, a task or a reward puts it last in its list; everything else stays. */
  lemma AgregarEfecto(s: AppState, m: Miembro, t: Tarea, r: Recompensa, reloj: Reloj)
    ensures var s' := Reduce(s, AgregarMiembro(m), reloj);
      && s' == s.(miembros := s'.miembros)
      && |s'.miembros| == |s.miembros| + 1 && s'.miembros[..|s.miembros|] == s.miembros && s'.miembros[|s.miembros|] == m
      && multiset(s'.miembros) == multiset(s.miembros) + multiset{m}
    ensures var s' := Reduce(s, AgregarTarea(t), reloj);
      && s' == s.(tareas := s'.tareas)
      && |s'.tareas| == |s.tareas| + 1 && s'.tareas[..|s.tareas|] == s.tareas && s'.tareas[|s.tareas|] == t
      && multiset(s'.tareas) == multiset(s.tareas) + multiset{t}
    ensures var s' := Reduce(s, AgregarRecompensa(r), reloj);
      && s' == s.(recompensas := s'.recompensas)
      && |s'.recompensas| == |s.recompensas| + 1 && s'.recompensas[..|s.recompensas|] == s.recompensas
      && s'.recompensas[|s.recompensas|] == r
      && multiset(s'.recompensas) == multiset(s.recompensas) + multiset{r}
  {
  }

  /**
   * Editing spreads the patch over every element with the id and leaves the
   * other elements and the rest of the state alone; a patch without an id
   * keeps every id in place. This is the member case; the task and reward
   * cases follow.
   */
  lemma EditarMiembroEfecto(s: AppState, id: string, p: MiembroParcial, reloj: Reloj)
    ensures var s' := Reduce(s, EditarMiembro(id, p), reloj);
      && s' == s.(miembros := s'.miembros)
      && |s'.miembros| == |s.miembros|
      && (forall i :: 0 <= i < |s.miembros| ==>
            s'.miembros[i] == if s.miembros[i].id == id then AplicarMiembro(s.miembros[i], p) else s.miembros[i])
      && (p.id.None? ==> IdsMiembros(s'.miembros) == IdsMiembros(s.miembros))
  {
    var s' := Reduce(s, EditarMiembro(id, p), reloj);
    if p.id.None? {
      assert forall i :: 0 <= i < |s.miembros| ==> IdsMiembros(s'.miembros)[i] == IdsMiembros(s.miembros)[i];
    }
  }

  /** Editing a task: the same spread, over the tasks. */
  lemma EditarTareaEfecto(s: AppState, id: string, p: TareaParcial, reloj: Reloj)
    ensures var s' := Reduce(s, EditarTarea(id, p), reloj);
      && s' == s.(tareas := s'.tareas)
      && |s'.tareas| == |s.tareas|
      && (forall i :: 0 <= i < |s.tareas| ==>
            s'.tareas[i] == if s.tareas[i].id == id then AplicarTarea(s.tareas[i], p) else s.tareas[i])
      && (p.id.None? ==> IdsTareas(s'.tareas) == IdsTareas(s.tareas))
  {
    var s' := Reduce(s, EditarTarea(id, p), reloj);
    if p.id.None? {
      assert forall i :: 0 <= i < |s.tareas| ==> IdsTareas(s'.tareas)[i] == IdsTareas(s.tareas)[i];
    }
  }

  /** Editing a reward: the same spread, over the rewards. */
  lemma EditarRecompensaEfecto(s: AppState, id: string, p: RecompensaParcial, reloj: Reloj)
    ensures var s' := Reduce(s, EditarRecompensa(id, p), reloj);
      && s' == s.(recompensas := s'.recompensas)
      && |s'.recompensas| == |s.recompensas|
      && (forall i :: 0 <= i < |s.recompensas| ==>
            s'.recompensas[i] == if s.recompensas[i].id == id then AplicarRecompensa(s.recompensas[i], p) else s.recompensas[i])
      && (p.id.None? ==> IdsRecompensas(s'.recompensas) == IdsRecompensas(s.recompensas))
  {
    var s' := Reduce(s, EditarRecompensa(id, p), reloj);
    if p.id.None? {
      assert forall i :: 0 <= i < |s.recompensas| ==> IdsRecompensas(s'.recompensas)[i] == IdsRecompensas(s.recompensas)[i];
    }
  }

  /** Switching admin mode sets the flag and nothing else; switching to the same value again changes nothing. */
  lemma CambiarModoAdminEfecto(s: AppState, admin: bool, reloj: Reloj, reloj2: Reloj)
    ensures var s' := Reduce(s, CambiarModoAdmin(admin), reloj);
      && s'.modoAdmin == admin
      && s' == s.(modoAdmin := s'.modoAdmin)
      && Reduce(s', CambiarModoAdmin(admin), reloj2) == s'
  {
  }

  /** `SET_STATE` replaces exactly the fields its payload carries and keeps the others. */
  lemma SetStateEfecto(s: AppState, p: AppStateParcial, reloj: Reloj)
    ensures var s' := Reduce(s, SetState(p), reloj);
      && s'.miembros == (if p.miembros.Some? then p.miembros.value else s.miembros)
      && s'.tareas == (if p.tareas.Some? then p.tareas.value else s.tareas)
      && s'.recompensas == (if p.recompensas.Some? then p.recompensas.value else s.recompensas)
      && s'.tiposFaltas == (if p.tiposFaltas.Some? then p.tiposFaltas.value else s.tiposFaltas)
      && s'.faltas == (if p.faltas.Some? then p.faltas.value else s.faltas)
      && s'.configuracion == (if p.configuracion.Some? then p.configuracion.value else s.configuracion)
      && s'.historial == (if p.historial.Some? then p.historial.value else s.historial)
      && s'.modoAdmin == (if p.modoAdmin.Some? then p.modoAdmin.value else s.modoAdmin)
      && s'.ultimoReinicio == (if p.ultimoReinicio.Some? then p.ultimoReinicio.value else s.ultimoReinicio)
    ensures p == AppStateParcial(None, None, None, None, None, None, None, None, None) ==> Reduce(s, SetState(p), reloj) == s
  {
  }

  /** A configuration update replaces exactly the settings its patch carries; nothing outside the configuration changes. */
  lemma ActualizarConfiguracionEfecto(s: AppState, p: ConfiguracionParcial, reloj: Reloj)
    ensures var s' := Reduce(s, ActualizarConfiguracion(p), reloj);
      var c := s.configuracion;
      && s' == s.(configuracion := s'.configuracion)
      && s'.configuracion.pinHash == (if p.pinHash.Some? then p.pinHash.value else c.pinHash)
      && s'.configuracion.sonidosActivados == (if p.sonidosActivados.Some? then p.sonidosActivados.value else c.sonidosActivados)
      && s'.configuracion.modoKiosco == (if p.modoKiosco.Some? then p.modoKiosco.value else c.modoKiosco)
      && s'.configuracion.horaReinicio == (if p.horaReinicio.Some? then p.horaReinicio.value else c.horaReinicio)
      && s'.configuracion.diaReinicio == (if p.diaReinicio.Some? then p.diaReinicio.value else c.diaReinicio)
      && s'.configuracion.recordatoriosActivados ==
           (if p.recordatoriosActivados.Some? then p.recordatoriosActivados.value else c.recordatoriosActivados)
      && s'.configuracion.temaColores == (if p.temaColores.Some? then p.temaColores.value else c.temaColores)
  {
  }

  /** The patch an edit from the member form sends: name, colour and avatar only. */
  function CambiosDeFormulario(nombre: string, color: string, avatar: string): MiembroParcial
  {
    MiembroParcial(None, Some(nombre), Some(color), Some(avatar), None, None, None, None)
  }

  /**
   * Editing a member from the form renames, recolours and re-avatars every member
   * with the id and keeps their id, points and lists.
   */
  lemma EditarMiembroConservaPuntos(s: AppState, id: string, nombre: string, color: string, avatar: string, reloj: Reloj)
    ensures var s' := Reduce(s, EditarMiembro(id, CambiosDeFormulario(nombre, color, avatar)), reloj);
      s' == s.(miembros := s'.miembros) &&
      |s'.miembros| == |s.miembros| &&
      forall i :: 0 <= i < |s.miembros| ==>
        if s.miembros[i].id == id then
          s'.miembros[i] == s.miembros[i].(nombre := nombre, color := color, avatar := avatar)
        else s'.miembros[i] == s.miembros[i]
  {
  }

  /** An empty configuration patch changes nothing; a PIN patch changes only the hash. */
  lemma ConfiguracionParcialEfecto(s: AppState, pinHash: string, reloj: Reloj)
    ensures Reduce(s, ActualizarConfiguracion(SinCambiosConfiguracion), reloj) == s
    ensures Reduce(s, ActualizarConfiguracion(SinCambiosConfiguracion.(pinHash := Some(pinHash))), reloj)
            == s.(configuracion := s.configuracion.(pinHash := pinHash))
  {
  }

  /**
   * Adding an infraction type appends it; editing spreads the patch over every
   * type with the id. Nothing else in the state changes.
   */
  lemma TiposFaltasEfecto(s: AppState, tf: TipoFalta, id: string, p: TipoFaltaParcial, reloj: Reloj)
    ensures Reduce(s, AgregarTipoFalta(tf), reloj) == s.(tiposFaltas := s.tiposFaltas + [tf])
    ensures var s' := Reduce(s, EditarTipoFalta(id, p), reloj);
      && s' == s.(tiposFaltas := s'.tiposFaltas)
      && |s'.tiposFaltas| == |s.tiposFaltas|
      && forall i :: 0 <= i < |s.tiposFaltas| ==>
           s'.tiposFaltas[i] == if s.tiposFaltas[i].id == id then AplicarTipoFalta(s.tiposFaltas[i], p) else s.tiposFaltas[i]
  {
  }
}
