/**
 * The task list: a click on a member's check button toggles that member's
 * completion of the task, the tasks are shown in a daily and a weekly list,
 * and a collaborative task shows how many completion entries are `true`.
 */
module ListaTareas {
  import opened Tipos
  import Listas
  import Reducer
  import Fachada
  import PropiedadesReducer

  /** `tarea.completadaPorMiembro[miembroId] || false`. */
  predicate YaCompletada(t: Tarea, miembroId: string)
  {
    miembroId in t.completadaPorMiembro && t.completadaPorMiembro[miembroId]
  }

  /** `handleMarcarTarea`: nothing for an unknown task, otherwise the negated flag goes to `marcarTarea`. */
  function Click(s: AppState, tareaId: string, miembroId: string, reloj: Reloj): AppState
  {
    var k := IndiceTarea(s.tareas, tareaId);
    if k == |s.tareas| then s
    else Fachada.MarcarTareaSiExiste(s, tareaId, miembroId, !YaCompletada(s.tareas[k], miembroId), reloj)
  }

  function EsDiaria(t: Tarea): bool { t.frecuencia == Diaria }
  function EsSemanal(t: Tarea): bool { t.frecuencia == Semanal }

  function Diarias(ts: seq<Tarea>): seq<Tarea> { Listas.Filtrar(ts, EsDiaria) }
  function Semanales(ts: seq<Tarea>): seq<Tarea> { Listas.Filtrar(ts, EsSemanal) }

  /** `Object.values(tarea.completadaPorMiembro).filter(Boolean).length`. */
  function Completadas(cpm: map<string, bool>): nat
  {
    |Marcados(cpm)|
  }

  /** The members whose entry is `true`. */
  function Marcados(cpm: map<string, bool>): set<string>
  {
    set k | k in cpm && cpm[k]
  }

  // ---------------------------------------------------------------------------
  // The toggle
  // ---------------------------------------------------------------------------

  lemma ClickDesconocida(s: AppState, tareaId: string, miembroId: string, reloj: Reloj)
    requires !ExisteTarea(s.tareas, tareaId)
    ensures Click(s, tareaId, miembroId, reloj) == s
  {
  }

  /**
   * For a known task and member the click dispatches the negation of the
   * member's current flag, and afterwards the flag of the first task with the
   * id has flipped.
   */
  lemma ClickInvierte(s: AppState, tareaId: string, miembroId: string, reloj: Reloj)
    requires ExisteTarea(s.tareas, tareaId) && ExisteMiembro(s.miembros, miembroId)
    ensures var k := IndiceTarea(s.tareas, tareaId);
      var s' := Click(s, tareaId, miembroId, reloj);
      && s' == Reducer.Reduce(s, Reducer.MarcarTarea(tareaId, miembroId, !YaCompletada(s.tareas[k], miembroId)), reloj)
      && IndiceTarea(s'.tareas, tareaId) == k
      && YaCompletada(s'.tareas[k], miembroId) == !YaCompletada(s.tareas[k], miembroId)
  {
    var k := IndiceTarea(s.tareas, tareaId);
    var c := !YaCompletada(s.tareas[k], miembroId);
    PropiedadesReducer.MarcarConservaIds(s, tareaId, miembroId, c, reloj);
    PropiedadesReducer.MarcarEnTareas(s, tareaId, miembroId, c, reloj);
    var s' := Reducer.Reduce(s, Reducer.MarcarTarea(tareaId, miembroId, c), reloj);
    assert IdsTareas(s'.tareas) == IdsTareas(s.tareas);
  }

  /**
   * Two clicks starting from "not done" mark the task done and then undone, so
   * the member's points come back to what they were (when neither the points
   * nor the task's value are negative) and the task id is gone from the
   * member's list.
   */
  lemma DosClicks(s: AppState, tareaId: string, miembroId: string, r1: Reloj, r2: Reloj)
    requires ExisteTarea(s.tareas, tareaId)
    requires !YaCompletada(s.tareas[IndiceTarea(s.tareas, tareaId)], miembroId)
    requires s.tareas[IndiceTarea(s.tareas, tareaId)].puntos >= 0
    requires PuntosNoNegativos(s.miembros)
    ensures var s2 := Click(Click(s, tareaId, miembroId, r1), tareaId, miembroId, r2);
      |s2.miembros| == |s.miembros| &&
      forall i :: 0 <= i < |s.miembros| && s.miembros[i].id == miembroId ==>
        && s2.miembros[i].puntos == s.miembros[i].puntos
        && tareaId !in s2.miembros[i].tareasCompletadas
  {
    if ExisteMiembro(s.miembros, miembroId) {
      var s1 := Click(s, tareaId, miembroId, r1);
      ClickInvierte(s, tareaId, miembroId, r1);
      PropiedadesReducer.MarcarConservaIds(s, tareaId, miembroId, true, r1);
      assert IdsMiembros(s1.miembros) == IdsMiembros(s.miembros);
      assert ExisteMiembro(s1.miembros, miembroId);
      ClickInvierte(s1, tareaId, miembroId, r2);
      PropiedadesReducer.MarcarYDesmarcar(s, tareaId, miembroId, r1, r2);
    } else {
      assert Click(s, tareaId, miembroId, r1) == s;
    }
  }

  // ---------------------------------------------------------------------------
  // Daily and weekly lists
  // ---------------------------------------------------------------------------

  /**
   * The two lists split the tasks: each task is in exactly one of them, each
   * list keeps the tasks' order, and their lengths add up.
   */
  lemma Particion(ts: seq<Tarea>)
    ensures |Diarias(ts)| + |Semanales(ts)| == |ts|
    ensures Listas.Subsecuencia(Diarias(ts), ts) && Listas.Subsecuencia(Semanales(ts), ts)
    ensures forall i :: 0 <= i < |Diarias(ts)| ==> Diarias(ts)[i].frecuencia == Diaria
    ensures forall i :: 0 <= i < |Semanales(ts)| ==> Semanales(ts)[i].frecuencia == Semanal
    ensures forall i :: 0 <= i < |ts| ==> (ts[i] in Diarias(ts) || ts[i] in Semanales(ts))
  {
    Listas.FiltrarParticion(ts, EsDiaria, EsSemanal);
    Listas.FiltrarEsSubsecuencia(ts, EsDiaria);
    Listas.FiltrarEsSubsecuencia(ts, EsSemanal);
    forall i | 0 <= i < |ts| ensures ts[i] in Diarias(ts) || ts[i] in Semanales(ts) {
      if EsDiaria(ts[i]) {
        assert ts[i] in Diarias(ts);
      } else {
        assert EsSemanal(ts[i]);
      }
    }
  }

  // ---------------------------------------------------------------------------
  // The collaborative counter
  // ---------------------------------------------------------------------------

  /**
   * Writing one member's entry moves the counter by one exactly when the
   * member's flag changes.
   */
  lemma CompletadasTrasMarcar(cpm: map<string, bool>, m: string, c: bool)
    ensures Completadas(cpm[m := c]) ==
            Completadas(cpm) + (if c && !(m in cpm && cpm[m]) then 1 else 0)
                             - (if !c && m in cpm && cpm[m] then 1 else 0)
  {
    var resto := Marcados(cpm) - {m};
    assert Marcados(cpm[m := c]) == if c then resto + {m} else resto by {
      MarcadosTrasMarcar(cpm, m, c);
    }
    CardinalSin(Marcados(cpm), m);
    if c {
      CardinalCon(resto, m);
    }
  }

  lemma MarcadosTrasMarcar(cpm: map<string, bool>, m: string, c: bool)
    ensures Marcados(cpm[m := c]) == if c then (Marcados(cpm) - {m}) + {m} else Marcados(cpm) - {m}
  {
  }

  lemma CardinalSin<T>(a: set<T>, x: T)
    ensures |a - {x}| == |a| - (if x in a then 1 else 0)
  {
    if x in a {
      assert a == (a - {x}) + {x};
    } else {
      assert a - {x} == a;
    }
  }

  lemma CardinalCon<T>(a: set<T>, x: T)
    requires x !in a
    ensures |a + {x}| == |a| + 1
  {
  }

  /**
   * The counter counts every `true` entry, also those of members no longer
   * assigned: one assigned member and a stale entry show "2 / 1".
   */
  lemma ContadorConNoAsignados(a: string, b: string)
    requires a != b
    ensures Completadas(map[a := true, b := true]) == 2 > |[a]|
  {
    var cpm := map[a := true, b := true];
    assert (set k | k in cpm && cpm[k]) == {a, b};
  }
}
