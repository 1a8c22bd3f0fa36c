/**
 * Reward eligibility as the rewards list shows it: a member may claim a
 * reward when the member exists, has enough points (the whole family's
 * points for a cooperative reward) and has claimed it fewer times this week
 * than the reward allows. Also the state each member's card shows and the
 * cooperative claim, which is checked against the first member and dispatched
 * for the member id `familia`.
 */
module Recompensas {
  import opened Tipos
  import Listas
  import Snapshot
  import Reducer
  import Fachada

  /** The claims made by this member in this week. */
  function DeEstaSemana(miembroId: string, semana: string): Reclamacion -> bool
  {
    (c: Reclamacion) => c.miembroId == miembroId && c.semana == semana
  }

  function ReclamacionesSemana(r: Recompensa, miembroId: string, semana: string): nat
  {
    |Listas.Filtrar(r.reclamadaPor, DeEstaSemana(miembroId, semana))|
  }

  /** The points test: the family's total for a cooperative reward, the member's own otherwise. */
  predicate TienePuntos(ms: seq<Miembro>, r: Recompensa, m: Miembro)
  {
    if r.esCooperativa then Snapshot.SumaPuntos(ms) >= r.umbralPuntos else m.puntos >= r.umbralPuntos
  }

  /** `estaDisponible(recompensa, miembroId)` in the week `semana`. */
  predicate EstaDisponible(ms: seq<Miembro>, r: Recompensa, miembroId: string, semana: string)
  {
    var k := IndiceMiembro(ms, miembroId);
    k < |ms| && TienePuntos(ms, r, ms[k]) && ReclamacionesSemana(r, miembroId, semana) < r.vecesMaximas
  }

  // ---------------------------------------------------------------------------
  // Eligibility
  // ---------------------------------------------------------------------------

  lemma SinMiembroNoDisponible(ms: seq<Miembro>, r: Recompensa, miembroId: string, semana: string)
    requires !ExisteMiembro(ms, miembroId)
    ensures !EstaDisponible(ms, r, miembroId, semana)
  {
  }

  /**
   * An available individual reward means the member has at least the threshold;
   * an available cooperative one means the family has it between them, whoever
   * asks. A member below the threshold never sees an individual reward available.
   */
  lemma PuntosSegunTipo(ms: seq<Miembro>, r: Recompensa, miembroId: string, semana: string)
    ensures EstaDisponible(ms, r, miembroId, semana) && !r.esCooperativa ==>
              exists k :: 0 <= k < |ms| && ms[k].id == miembroId && ms[k].puntos >= r.umbralPuntos
    ensures EstaDisponible(ms, r, miembroId, semana) && r.esCooperativa ==>
              Snapshot.SumaPuntos(ms) >= r.umbralPuntos
    ensures (!r.esCooperativa && forall k :: 0 <= k < |ms| && ms[k].id == miembroId ==> ms[k].puntos < r.umbralPuntos) ==>
              !EstaDisponible(ms, r, miembroId, semana)
  {
    var k := IndiceMiembro(ms, miembroId);
    if EstaDisponible(ms, r, miembroId, semana) && !r.esCooperativa {
      assert ms[k].id == miembroId && ms[k].puntos >= r.umbralPuntos;
    }
  }

  /** Once the member exists and the points test passes, only the weekly cap decides. */
  lemma TopeSemanal(ms: seq<Miembro>, r: Recompensa, miembroId: string, semana: string)
    requires ExisteMiembro(ms, miembroId) && TienePuntos(ms, r, ms[IndiceMiembro(ms, miembroId)])
    ensures EstaDisponible(ms, r, miembroId, semana) <==> ReclamacionesSemana(r, miembroId, semana) < r.vecesMaximas
  {
  }

  /** The cap counts one claim per entry of the log made by this member in this week. */
  lemma {:induction false} ReclamacionesAgregar(r: Recompensa, c: Reclamacion, miembroId: string, semana: string)
    ensures ReclamacionesSemana(r.(reclamadaPor := r.reclamadaPor + [c]), miembroId, semana) ==
            ReclamacionesSemana(r, miembroId, semana) + (if c.miembroId == miembroId && c.semana == semana then 1 else 0)
  {
    Listas.FiltrarConcat(r.reclamadaPor, [c], DeEstaSemana(miembroId, semana));
    assert Listas.Filtrar([c], DeEstaSemana(miembroId, semana)) ==
           (if c.miembroId == miembroId && c.semana == semana then [c] else []) + Listas.Filtrar([], DeEstaSemana(miembroId, semana));
  }

  /** Claims by other members, or in other weeks, do not affect availability. */
  lemma OtrasReclamacionesNoInfluyen(ms: seq<Miembro>, r: Recompensa, c: Reclamacion, miembroId: string, semana: string)
    requires c.miembroId != miembroId || c.semana != semana
    ensures EstaDisponible(ms, r.(reclamadaPor := r.reclamadaPor + [c]), miembroId, semana) ==
            EstaDisponible(ms, r, miembroId, semana)
  {
    ReclamacionesAgregar(r, c, miembroId, semana);
  }

  /** One more claim by the member in the current week never makes the reward available. */
  lemma Monotonia(ms: seq<Miembro>, r: Recompensa, c: Reclamacion, miembroId: string, semana: string)
    requires c.miembroId == miembroId && c.semana == semana
    ensures EstaDisponible(ms, r.(reclamadaPor := r.reclamadaPor + [c]), miembroId, semana) ==>
            EstaDisponible(ms, r, miembroId, semana)
    ensures ReclamacionesSemana(r, miembroId, semana) + 1 == r.vecesMaximas ==>
            !EstaDisponible(ms, r.(reclamadaPor := r.reclamadaPor + [c]), miembroId, semana)
  {
    ReclamacionesAgregar(r, c, miembroId, semana);
  }

  /**
   * Claiming an available individual reward through the store deducts exactly
   * the threshold from the member the check looked at: the floor is not hit.
   * The claim is logged for that member in the clock's week.
   */
  lemma DescuentoExacto(s: AppState, r: Recompensa, miembroId: string, reloj: Reloj)
    requires ExisteRecompensa(s.recompensas, r.id)
    requires s.recompensas[IndiceRecompensa(s.recompensas, r.id)] == r
    requires !r.esCooperativa && EstaDisponible(s.miembros, r, miembroId, reloj.semana)
    ensures var s' := Fachada.ReclamarSiExiste(s, r.id, miembroId, reloj);
      var k := IndiceMiembro(s.miembros, miembroId);
      && |s'.miembros| == |s.miembros|
      && s'.miembros[k].puntos == s.miembros[k].puntos - r.umbralPuntos
      && s'.miembros[k].recompensasGanadas == s.miembros[k].recompensasGanadas + [r.id]
      && s'.recompensas[IndiceRecompensa(s.recompensas, r.id)].reclamadaPor ==
           r.reclamadaPor + [Reclamacion(miembroId, reloj.ahora, reloj.semana)]
  {
  }

  /**
   * After claiming an available reward the member's count for the week has grown
   * by one, so a reward limited to one claim a week is no longer available.
   */
  lemma ReclamarAgotaTope(s: AppState, r: Recompensa, miembroId: string, reloj: Reloj)
    requires ExisteRecompensa(s.recompensas, r.id)
    requires s.recompensas[IndiceRecompensa(s.recompensas, r.id)] == r
    requires EstaDisponible(s.miembros, r, miembroId, reloj.semana)
    ensures var s' := Fachada.ReclamarSiExiste(s, r.id, miembroId, reloj);
      var r' := s'.recompensas[IndiceRecompensa(s.recompensas, r.id)];
      && ReclamacionesSemana(r', miembroId, reloj.semana) == ReclamacionesSemana(r, miembroId, reloj.semana) + 1
      && (r.vecesMaximas == 1 ==> !EstaDisponible(s'.miembros, r', miembroId, reloj.semana))
  {
    ReclamacionesAgregar(r, Reclamacion(miembroId, reloj.ahora, reloj.semana), miembroId, reloj.semana);
  }

  // ---------------------------------------------------------------------------
  // Cooperative rewards
  // ---------------------------------------------------------------------------

  /** The cooperative card asks about the first member (`state.miembros[0]?.id`). */
  predicate DisponibleFamiliar(ms: seq<Miembro>, r: Recompensa, semana: string)
  {
    |ms| > 0 && EstaDisponible(ms, r, ms[0].id, semana)
  }

  /** The cooperative card's button claims for the member id `familia`. */
  function ReclamarParaFamilia(s: AppState, recompensaId: string, reloj: Reloj): AppState
  {
    Fachada.ReclamarSiExiste(s, recompensaId, "familia", reloj)
  }

  /**
   * While no member has the id `familia`, the cooperative claim changes nothing:
   * no points are deducted and no claim is logged, so the family's availability
   * stays as it was.
   */
  lemma ReclamarParaFamiliaNoHaceNada(s: AppState, recompensaId: string, reloj: Reloj)
    requires !ExisteMiembro(s.miembros, "familia")
    ensures ReclamarParaFamilia(s, recompensaId, reloj) == s
  {
  }

  /**
   * The cooperative check counts only the first member's own claims: a claim
   * logged for `familia` never uses up the weekly cap unless the first member's
   * id is `familia`. Without members the card is never claimable.
   */
  lemma FamiliarSegunPrimerMiembro(ms: seq<Miembro>, r: Recompensa, c: Reclamacion, semana: string)
    requires c.miembroId == "familia"
    ensures |ms| == 0 ==> !DisponibleFamiliar(ms, r, semana)
    ensures |ms| > 0 && ms[0].id != "familia" ==>
              DisponibleFamiliar(ms, r.(reclamadaPor := r.reclamadaPor + [c]), semana) == DisponibleFamiliar(ms, r, semana)
    ensures |ms| > 0 && r.esCooperativa ==>
              (DisponibleFamiliar(ms, r, semana) <==>
                 Snapshot.SumaPuntos(ms) >= r.umbralPuntos && ReclamacionesSemana(r, ms[0].id, semana) < r.vecesMaximas)
  {
    if |ms| > 0 {
      assert IndiceMiembro(ms, ms[0].id) == 0;
      if ms[0].id != "familia" {
        OtrasReclamacionesNoInfluyen(ms, r, c, ms[0].id, semana);
      }
    }
  }

  // ---------------------------------------------------------------------------
  // The member rows of an individual reward's card
  // ---------------------------------------------------------------------------

  datatype EstadoTarjeta = Reclamable | LimiteAlcanzado | Faltan(puntos: int)

  /** What the row of member `i` shows. */
  function EstadoIndividual(ms: seq<Miembro>, r: Recompensa, i: int, semana: string): EstadoTarjeta
    requires 0 <= i < |ms|
  {
    if EstaDisponible(ms, r, ms[i].id, semana) then Reclamable
    else if ms[i].puntos >= r.umbralPuntos then LimiteAlcanzado
    else Faltan(r.umbralPuntos - ms[i].puntos)
  }

  /**
   * "Faltan N puntos" is shown only when the reward is not available and the
   * member is below the threshold, so N is positive; "Límite semanal alcanzado"
   * is shown to a member at or above the threshold who has used up the week's
   * claims (for the first member with that id).
   */
  lemma EstadoTarjetaCorrecto(ms: seq<Miembro>, r: Recompensa, i: int, semana: string)
    requires 0 <= i < |ms| && !r.esCooperativa
    ensures EstadoIndividual(ms, r, i, semana).Faltan? ==>
              && !EstaDisponible(ms, r, ms[i].id, semana)
              && ms[i].puntos < r.umbralPuntos
              && EstadoIndividual(ms, r, i, semana).puntos == r.umbralPuntos - ms[i].puntos > 0
    ensures EstadoIndividual(ms, r, i, semana) == LimiteAlcanzado && IndiceMiembro(ms, ms[i].id) == i ==>
              ms[i].puntos >= r.umbralPuntos && ReclamacionesSemana(r, ms[i].id, semana) >= r.vecesMaximas
    ensures EstadoIndividual(ms, r, i, semana) == Reclamable <==> EstaDisponible(ms, r, ms[i].id, semana)
  {
  }
}
