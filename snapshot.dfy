/**
 * The weekly snapshot taken before a reset: per-member maps of points,
 * completed tasks and claimed rewards (filled member by member, so a later
 * member with a repeated id overwrites an earlier one), the week's
 * infractions, the three totals and the most active member.
 */
module Snapshot {
  import opened Tipos

  // ---------------------------------------------------------------------------
  // Specification: folds over the member list, last member last
  // ---------------------------------------------------------------------------

  function SumaPuntos(ms: seq<Miembro>): int
    decreases |ms|
  {
    if ms == [] then 0 else SumaPuntos(ms[..|ms| - 1]) + ms[|ms| - 1].puntos
  }

  function SumaTareas(ms: seq<Miembro>): int
    decreases |ms|
  {
    if ms == [] then 0 else SumaTareas(ms[..|ms| - 1]) + |ms[|ms| - 1].tareasCompletadas|
  }

  function SumaRecompensas(ms: seq<Miembro>): int
    decreases |ms|
  {
    if ms == [] then 0 else SumaRecompensas(ms[..|ms| - 1]) + |ms[|ms| - 1].recompensasGanadas|
  }

  /** `i` is the last position holding its member's id. */
  predicate UltimoConId(ms: seq<Miembro>, i: int)
    requires 0 <= i < |ms|
  {
    forall j :: i < j < |ms| ==> ms[j].id != ms[i].id
  }

  /** The map `acc[m.id] = f(m)` filled member by member. */
  function MapaPorId<V>(ms: seq<Miembro>, f: Miembro -> V): map<string, V>
    decreases |ms|
  {
    if ms == [] then map[] else MapaPorId(ms[..|ms| - 1], f)[ms[|ms| - 1].id := f(ms[|ms| - 1])]
  }

  /** Its keys are exactly the members' ids. */
  lemma {:induction false} MapaPorIdClaves<V>(ms: seq<Miembro>, f: Miembro -> V, k: string)
    ensures k in MapaPorId(ms, f) <==> k in IdsMiembros(ms)
    decreases |ms|
  {
    if ms != [] {
      var previo := ms[..|ms| - 1];
      MapaPorIdClaves(previo, f, k);
      assert IdsMiembros(ms) == IdsMiembros(previo) + [ms[|ms| - 1].id];
    }
  }

  /** Each key holds the value of the last member with that id. */
  lemma {:induction false} MapaPorIdValor<V>(ms: seq<Miembro>, f: Miembro -> V, i: int)
    requires 0 <= i < |ms| && UltimoConId(ms, i)
    ensures ms[i].id in MapaPorId(ms, f) && MapaPorId(ms, f)[ms[i].id] == f(ms[i])
    decreases |ms|
  {
    if i < |ms| - 1 {
      var previo := ms[..|ms| - 1];
      assert previo[i] == ms[i];
      assert UltimoConId(previo, i) by {
        forall j | i < j < |previo| ensures previo[j].id != previo[i].id {
          assert previo[j] == ms[j];
        }
      }
      MapaPorIdValor(previo, f, i);
    }
  }

  function PuntosDe(m: Miembro): int { m.puntos }
  function TareasDe(m: Miembro): seq<string> { m.tareasCompletadas }
  function RecompensasDe(m: Miembro): seq<string> { m.recompensasGanadas }

  /** `reduce((prev, cur) => cur.len > prev.len ? cur : prev)` as a position. */
  function IndiceMasActivo(ms: seq<Miembro>): (k: nat)
    requires |ms| > 0
    ensures k < |ms|
    ensures forall j :: 0 <= j < |ms| ==> |ms[j].tareasCompletadas| <= |ms[k].tareasCompletadas|
    ensures forall j :: 0 <= j < k ==> |ms[j].tareasCompletadas| < |ms[k].tareasCompletadas|
    decreases |ms|
  {
    if |ms| == 1 then 0
    else
      var previo := ms[..|ms| - 1];
      var k := IndiceMasActivo(previo);
      assert forall j :: 0 <= j < |previo| ==> previo[j] == ms[j];
      if |ms[|ms| - 1].tareasCompletadas| > |ms[k].tareasCompletadas| then |ms| - 1 else k
  }

  /** The id of the most active member, or `""` when there are no members. */
  function MasActivo(ms: seq<Miembro>): string
  {
    if |ms| > 0 then ms[IndiceMasActivo(ms)].id else ""
  }

  function SnapshotDe(ms: seq<Miembro>, faltas: seq<Falta>, reloj: Reloj): SnapshotSemanal
  {
    SnapshotSemanal(
      reloj.semana, reloj.semana, reloj.inicioSemana, reloj.finSemana,
      MapaPorId(ms, PuntosDe),
      MapaPorId(ms, TareasDe),
      MapaPorId(ms, RecompensasDe),
      faltas,
      Estadisticas(SumaPuntos(ms), SumaTareas(ms), SumaRecompensas(ms), MasActivo(ms)))
  }

  // ---------------------------------------------------------------------------
  // Properties
  // ---------------------------------------------------------------------------

  /**
   * The snapshot is labelled with the week, records the infractions as given,
   * and its most active member is the
   * first one with the longest completed-task list (`""` without members).
   */
  lemma SnapshotPropiedades(ms: seq<Miembro>, faltas: seq<Falta>, reloj: Reloj)
    ensures var snap := SnapshotDe(ms, faltas, reloj);
      && snap.id == reloj.semana && snap.semana == reloj.semana
      && snap.faltasRegistradas == faltas
      && (|ms| == 0 ==> snap.estadisticas.miembroMasActivo == "")
      && (|ms| > 0 ==> exists k :: 0 <= k < |ms| && snap.estadisticas.miembroMasActivo == ms[k].id
                          && (forall j :: 0 <= j < |ms| ==> |ms[j].tareasCompletadas| <= |ms[k].tareasCompletadas|)
                          && (forall j :: 0 <= j < k ==> |ms[j].tareasCompletadas| < |ms[k].tareasCompletadas|))
  {
    if |ms| > 0 {
      var k := IndiceMasActivo(ms);
      assert SnapshotDe(ms, faltas, reloj).estadisticas.miembroMasActivo == ms[k].id;
    }
  }

  /** With distinct ids every member's own values are recorded under its id. */
  lemma SnapshotIdsDistintos(ms: seq<Miembro>, faltas: seq<Falta>, reloj: Reloj, i: int)
    requires forall a, b :: 0 <= a < b < |ms| ==> ms[a].id != ms[b].id
    requires 0 <= i < |ms|
    ensures var snap := SnapshotDe(ms, faltas, reloj);
      && ms[i].id in snap.puntosPorMiembro && snap.puntosPorMiembro[ms[i].id] == ms[i].puntos
      && ms[i].id in snap.tareasCompletadas && snap.tareasCompletadas[ms[i].id] == ms[i].tareasCompletadas
      && ms[i].id in snap.recompensasGanadas && snap.recompensasGanadas[ms[i].id] == ms[i].recompensasGanadas
  {
    assert UltimoConId(ms, i);
    MapaPorIdValor(ms, PuntosDe, i);
    MapaPorIdValor(ms, TareasDe, i);
    MapaPorIdValor(ms, RecompensasDe, i);
  }

  /** Each map has one key per member id and no other. */
  lemma SnapshotClaves(ms: seq<Miembro>, faltas: seq<Falta>, reloj: Reloj, k: string)
    ensures var snap := SnapshotDe(ms, faltas, reloj);
      && (k in snap.puntosPorMiembro <==> k in IdsMiembros(ms))
      && (k in snap.tareasCompletadas <==> k in IdsMiembros(ms))
      && (k in snap.recompensasGanadas <==> k in IdsMiembros(ms))
  {
    MapaPorIdClaves(ms, PuntosDe, k);
    MapaPorIdClaves(ms, TareasDe, k);
    MapaPorIdClaves(ms, RecompensasDe, k);
  }

  /** A repeated id keeps the later member's points. */
  lemma SnapshotIdRepetido(a: Miembro, b: Miembro, faltas: seq<Falta>, reloj: Reloj)
    requires a.id == b.id
    ensures SnapshotDe([a, b], faltas, reloj).puntosPorMiembro == map[a.id := b.puntos]
  {
    var ms := [a, b];
    assert ms[..1] == [a];
    assert [a][..0] == [];
    assert MapaPorId([a], PuntosDe) == map[a.id := a.puntos];
    assert MapaPorId(ms, PuntosDe) == map[a.id := a.puntos][b.id := b.puntos];
  }

  /** Totals of points are non-negative when every member's are. */
  lemma {:induction false} SumaPuntosNoNegativa(ms: seq<Miembro>)
    requires PuntosNoNegativos(ms)
    ensures SumaPuntos(ms) >= 0
    decreases |ms|
  {
    if ms != [] {
      SumaPuntosNoNegativa(ms[..|ms| - 1]);
    }
  }

  /** One member's points never exceed the total when nobody's points are negative. */
  lemma {:induction false} PuntosHastaSuma(ms: seq<Miembro>, i: int)
    requires PuntosNoNegativos(ms) && 0 <= i < |ms|
    ensures ms[i].puntos <= SumaPuntos(ms)
    decreases |ms|
  {
    var previo := ms[..|ms| - 1];
    if i == |ms| - 1 {
      SumaPuntosNoNegativa(previo);
    } else {
      PuntosHastaSuma(previo, i);
    }
  }

  /** The total depends on the points alone. */
  lemma {:induction false} SumaPuntosIgual(a: seq<Miembro>, b: seq<Miembro>)
    requires |a| == |b|
    requires forall i :: 0 <= i < |a| ==> a[i].puntos == b[i].puntos
    ensures SumaPuntos(a) == SumaPuntos(b)
    decreases |a|
  {
    if a != [] {
      SumaPuntosIgual(a[..|a| - 1], b[..|b| - 1]);
    }
  }

  lemma SumasAgregar(ms: seq<Miembro>, m: Miembro)
    ensures SumaPuntos(ms + [m]) == SumaPuntos(ms) + m.puntos
    ensures SumaTareas(ms + [m]) == SumaTareas(ms) + |m.tareasCompletadas|
    ensures SumaRecompensas(ms + [m]) == SumaRecompensas(ms) + |m.recompensasGanadas|
  {
    assert (ms + [m])[..|ms|] == ms;
  }

  // ---------------------------------------------------------------------------
  // The builder: fills the accumulators one member at a time
  // ---------------------------------------------------------------------------

  method Construir(ms: seq<Miembro>, faltas: seq<Falta>, reloj: Reloj) returns (snap: SnapshotSemanal)
    ensures snap == SnapshotDe(ms, faltas, reloj)
  {
    var puntos: map<string, int> := map[];
    var tareas: map<string, seq<string>> := map[];
    var recompensas: map<string, seq<string>> := map[];
    var totalPuntos, totalTareas, totalRecompensas := 0, 0, 0;
    var i := 0;
    while i < |ms|
      invariant 0 <= i <= |ms|
      invariant puntos == MapaPorId(ms[..i], PuntosDe)
      invariant tareas == MapaPorId(ms[..i], TareasDe)
      invariant recompensas == MapaPorId(ms[..i], RecompensasDe)
      invariant totalPuntos == SumaPuntos(ms[..i])
      invariant totalTareas == SumaTareas(ms[..i])
      invariant totalRecompensas == SumaRecompensas(ms[..i])
    {
      var m := ms[i];
      assert ms[..i + 1][..i] == ms[..i];
      puntos := puntos[m.id := m.puntos];
      tareas := tareas[m.id := m.tareasCompletadas];
      recompensas := recompensas[m.id := m.recompensasGanadas];
      totalPuntos := totalPuntos + m.puntos;
      totalTareas := totalTareas + |m.tareasCompletadas|;
      totalRecompensas := totalRecompensas + |m.recompensasGanadas|;
      i := i + 1;
    }
    assert ms[..|ms|] == ms;
    var masActivo := "";
    if |ms| > 0 {
      var prev := 0;
      var j := 1;
      while j < |ms|
        invariant 1 <= j <= |ms|
        invariant prev == IndiceMasActivo(ms[..j])
      {
        assert ms[..j + 1][..j] == ms[..j];
        if |ms[j].tareasCompletadas| > |ms[prev].tareasCompletadas| {
          prev := j;
        }
        j := j + 1;
      }
      masActivo := ms[prev].id;
    }
    snap := SnapshotSemanal(reloj.semana, reloj.semana, reloj.inicioSemana, reloj.finSemana,
                            puntos, tareas, recompensas, faltas,
                            Estadisticas(totalPuntos, totalTareas, totalRecompensas, masActivo));
  }
}
