/**
 * A member's card: the individual rewards in ascending threshold order, the
 * next reward (the first one above the member's points), the rewards already
 * reached, the points still missing for the next one and the chips listing at
 * most three reached rewards plus a "+k más" overflow chip.
 */
module TarjetaMiembro {
  import opened Wrappers
  import opened Tipos
  import Listas
  import OrdenRecompensas
  import Reducer

  function NoCooperativa(r: Recompensa): bool { !r.esCooperativa }

  function PorEncima(puntos: int): Recompensa -> bool
  {
    (r: Recompensa) => r.umbralPuntos > puntos
  }

  function Alcanzada(puntos: int): Recompensa -> bool
  {
    (r: Recompensa) => r.umbralPuntos <= puntos
  }

  /** `recompensasDisponibles`: a fresh filtered copy, sorted by threshold. */
  function Disponibles(rs: seq<Recompensa>): seq<Recompensa>
  {
    OrdenRecompensas.OrdenarPorUmbral(Listas.Filtrar(rs, NoCooperativa))
  }

  /** Position of the first reward above `puntos`, `|s|` when there is none. */
  function PrimeraPorEncima(s: seq<Recompensa>, puntos: int): (k: nat)
    ensures k <= |s|
    ensures k < |s| ==> s[k].umbralPuntos > puntos
    ensures forall i :: 0 <= i < k ==> s[i].umbralPuntos <= puntos
    decreases |s|
  {
    if s == [] then 0
    else if s[0].umbralPuntos > puntos then 0
    else 1 + PrimeraPorEncima(s[1..], puntos)
  }

  /** `proximaRecompensa`: `find(r => r.umbralPuntos > miembro.puntos)`. */
  function Proxima(rs: seq<Recompensa>, puntos: int): Option<Recompensa>
  {
    var d := Disponibles(rs);
    var k := PrimeraPorEncima(d, puntos);
    if k < |d| then Some(d[k]) else None
  }

  /** `recompensasAlcanzadas`. */
  function Alcanzadas(rs: seq<Recompensa>, puntos: int): seq<Recompensa>
  {
    Listas.Filtrar(Disponibles(rs), Alcanzada(puntos))
  }

  /** The "Faltan N puntos" figure under the progress bar. */
  function Faltan(proxima: Recompensa, puntos: int): int
  {
    Reducer.Max0(proxima.umbralPuntos - puntos)
  }

  /** `recompensasAlcanzadas.slice(0, 3)`. */
  function Chips(alcanzadas: seq<Recompensa>): seq<Recompensa>
  {
    if |alcanzadas| <= 3 then alcanzadas else alcanzadas[..3]
  }

  /** The number in the "+k más" chip, shown only past three rewards. */
  function Exceso(alcanzadas: seq<Recompensa>): Option<int>
  {
    if |alcanzadas| > 3 then Some(|alcanzadas| - 3) else None
  }

  // ---------------------------------------------------------------------------
  // Properties
  // ---------------------------------------------------------------------------

  /**
   * The card's list holds exactly the individual rewards, each as often as in
   * the state, in ascending threshold order.
   */
  lemma DisponiblesCorrectas(rs: seq<Recompensa>)
    ensures OrdenRecompensas.Ordenada(Disponibles(rs))
    ensures multiset(Disponibles(rs)) == multiset(Listas.Filtrar(rs, NoCooperativa))
    ensures forall x :: x in Disponibles(rs) <==> x in rs && !x.esCooperativa
  {
    var f := Listas.Filtrar(rs, NoCooperativa);
    OrdenRecompensas.OrdenarOrdena(f);
    OrdenRecompensas.OrdenarPermuta(f);
    forall x ensures x in Disponibles(rs) <==> x in rs && !x.esCooperativa {
      assert x in Disponibles(rs) <==> x in multiset(Disponibles(rs));
      assert x in f <==> x in multiset(f);
      if x in rs && !x.esCooperativa {
        var i :| 0 <= i < |rs| && rs[i] == x;
        assert x in f;
      }
    }
  }

  /**
   * The next reward is above the member's points and has the smallest such
   * threshold; there is none exactly when every individual reward is reached.
   */
  lemma ProximaMinima(rs: seq<Recompensa>, puntos: int)
    ensures Proxima(rs, puntos).Some? ==>
              && Proxima(rs, puntos).value in Disponibles(rs)
              && Proxima(rs, puntos).value.umbralPuntos > puntos
              && forall j :: 0 <= j < |Disponibles(rs)| && Disponibles(rs)[j].umbralPuntos > puntos ==>
                   Proxima(rs, puntos).value.umbralPuntos <= Disponibles(rs)[j].umbralPuntos
    ensures Proxima(rs, puntos).None? <==>
              forall j :: 0 <= j < |Disponibles(rs)| ==> Disponibles(rs)[j].umbralPuntos <= puntos
  {
    var d := Disponibles(rs);
    DisponiblesCorrectas(rs);
    var k := PrimeraPorEncima(d, puntos);
    if k < |d| {
      forall j | 0 <= j < |d| && d[j].umbralPuntos > puntos ensures d[k].umbralPuntos <= d[j].umbralPuntos {
        assert k <= j;
      }
    }
  }

  /** In a sorted list the rewards at or below `puntos` are the prefix before the first one above. */
  lemma OrdenadaPrefijo(d: seq<Recompensa>, puntos: int)
    requires OrdenRecompensas.Ordenada(d)
    ensures Listas.Filtrar(d, Alcanzada(puntos)) == d[..PrimeraPorEncima(d, puntos)]
  {
    var f := Alcanzada(puntos);
    var k := PrimeraPorEncima(d, puntos);
    var a, b := d[..k], d[k..];
    assert d == a + b;
    assert Listas.Filtrar(d, f) == Listas.Filtrar(a, f) + Listas.Filtrar(b, f) by {
      Listas.FiltrarConcat(a, b, f);
    }
    assert Listas.Filtrar(a, f) == a by {
      Listas.FiltrarTodos(a, f);
    }
    assert Listas.Filtrar(b, f) == [] by {
      forall i | 0 <= i < |b| ensures !f(b[i]) {
        assert b[i] == d[k + i];
      }
      Listas.FiltrarNinguno(b, f);
    }
    assert a + [] == a;
  }

  /** Because the list is sorted, the reached rewards are exactly its prefix before the next one. */
  lemma AlcanzadasPrefijo(rs: seq<Recompensa>, puntos: int)
    ensures Alcanzadas(rs, puntos) == Disponibles(rs)[..PrimeraPorEncima(Disponibles(rs), puntos)]
  {
    OrdenRecompensas.OrdenarOrdena(Listas.Filtrar(rs, NoCooperativa));
    OrdenadaPrefijo(Disponibles(rs), puntos);
  }

  /**
   * The reached rewards are exactly the individual rewards at or below the
   * member's points, and with the ones above they split the card's list.
   */
  lemma AlcanzadasParticion(rs: seq<Recompensa>, puntos: int)
    ensures forall x :: x in Alcanzadas(rs, puntos) <==> x in rs && !x.esCooperativa && x.umbralPuntos <= puntos
    ensures |Alcanzadas(rs, puntos)| + |Listas.Filtrar(Disponibles(rs), PorEncima(puntos))| == |Disponibles(rs)|
  {
    var d := Disponibles(rs);
    DisponiblesCorrectas(rs);
    forall x ensures x in Alcanzadas(rs, puntos) <==> x in rs && !x.esCooperativa && x.umbralPuntos <= puntos {
      if x in rs && !x.esCooperativa && x.umbralPuntos <= puntos {
        var i :| 0 <= i < |d| && d[i] == x;
        assert Alcanzada(puntos)(d[i]);
      }
    }
    Listas.FiltrarParticion(d, Alcanzada(puntos), PorEncima(puntos));
  }

  /** The missing points shown under the bar are positive and exact: the floor never applies. */
  lemma FaltanPositivo(rs: seq<Recompensa>, puntos: int)
    requires Proxima(rs, puntos).Some?
    ensures Faltan(Proxima(rs, puntos).value, puntos) == Proxima(rs, puntos).value.umbralPuntos - puntos > 0
  {
  }

  /**
   * At most three chips, the first reached rewards in order; the overflow chip
   * appears past three and its number makes up the rest.
   */
  lemma ChipsYExceso(alcanzadas: seq<Recompensa>)
    ensures |Chips(alcanzadas)| <= 3
    ensures Chips(alcanzadas) == alcanzadas[..|Chips(alcanzadas)|]
    ensures |alcanzadas| <= 3 ==> Chips(alcanzadas) == alcanzadas && Exceso(alcanzadas).None?
    ensures Exceso(alcanzadas).Some? <==> |alcanzadas| > 3
    ensures |Chips(alcanzadas)| + Exceso(alcanzadas).GetOr(0) == |alcanzadas|
  {
  }
}
