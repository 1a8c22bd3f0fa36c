/**
 * The automatic weekly reset, checked once a minute: it fires on the
 * configured weekday, at the configured hour and minute (read from the
 * `"HH:mm"` setting by splitting on `:` and converting each piece with
 * `Number`), and only if the last reset happened before today began.
 */
module Reinicio {
  import opened Wrappers
  import opened Tipos
  import opened Texto
  import Reducer

  /** `horaReinicio.split(':').map(Number)` destructured into `[hora, minuto]`; a missing piece is `None`. */
  function LeerHora(h: string): (Option<int>, Option<int>)
  {
    var partes := Partes(h, ':');
    (NumeroDe(partes[0]), if |partes| >= 2 then NumeroDe(partes[1]) else None)
  }

  predicate DebeReiniciar(reloj: Reloj, ultimoReinicio: Instante, config: Configuracion)
  {
    && reloj.diaSemana == config.diaReinicio
    && LeerHora(config.horaReinicio).0 == Some(reloj.hora)
    && LeerHora(config.horaReinicio).1 == Some(reloj.minuto)
    && ultimoReinicio < reloj.inicioDia
  }

  /** A setting `hh:mm` of digits reads as those two numbers. */
  lemma LeerHoraDigitos(hh: string, mm: string)
    requires |hh| > 0 && SoloDigitos(hh) && |mm| > 0 && SoloDigitos(mm)
    ensures LeerHora(hh + ":" + mm) == (Some(ValorDecimal(hh)), Some(ValorDecimal(mm)))
  {
    assert [hh, mm][1..] == [mm];
    assert Unir([hh, mm], [':']) == hh + ":" + mm;
    PartesUnir([hh, mm], ':');
    NumeroDeDigitos(hh);
    NumeroDeDigitos(mm);
  }

  /**
   * With a setting `hh:mm` of digits the reset fires exactly on the configured
   * weekday, at that hour and minute, when the last reset is before today.
   */
  lemma DebeReiniciarSiYSoloSi(reloj: Reloj, ultimoReinicio: Instante, config: Configuracion, hh: string, mm: string)
    requires |hh| > 0 && SoloDigitos(hh) && |mm| > 0 && SoloDigitos(mm)
    requires config.horaReinicio == hh + ":" + mm
    ensures DebeReiniciar(reloj, ultimoReinicio, config) <==>
      && reloj.diaSemana == config.diaReinicio
      && reloj.hora == ValorDecimal(hh) && reloj.minuto == ValorDecimal(mm)
      && ultimoReinicio < reloj.inicioDia
  {
    LeerHoraDigitos(hh, mm);
  }

  /** The default setting `23:59` on day 0 fires on Sunday at 23:59 if no reset happened today. */
  lemma ReinicioPorDefecto(hash: string -> string, creado: Instante, reloj: Reloj, ultimoReinicio: Instante)
    ensures var config := Reducer.EstadoInicial(hash, creado).configuracion;
      DebeReiniciar(reloj, ultimoReinicio, config) <==>
        reloj.diaSemana == 0 && reloj.hora == 23 && reloj.minuto == 59 && ultimoReinicio < reloj.inicioDia
  {
    assert "23:59" == "23" + ":" + "59";
    assert ValorDecimal("23") == 23 by { assert "23"[..1] == "2"; }
    assert ValorDecimal("59") == 59 by { assert "59"[..1] == "5"; }
    DebeReiniciarSiYSoloSi(reloj, ultimoReinicio, Reducer.EstadoInicial(hash, creado).configuracion, "23", "59");
  }

  /** An empty time setting has no minute piece, so the reset never fires. */
  lemma HoraVaciaNuncaReinicia(reloj: Reloj, ultimoReinicio: Instante, config: Configuracion)
    requires config.horaReinicio == ""
    ensures !DebeReiniciar(reloj, ultimoReinicio, config)
  {
    SinSeparadorNuncaReinicia(reloj, ultimoReinicio, config);
  }

  /** A setting without a colon has no minute piece either. */
  lemma SinSeparadorNuncaReinicia(reloj: Reloj, ultimoReinicio: Instante, config: Configuracion)
    requires forall i :: 0 <= i < |config.horaReinicio| ==> config.horaReinicio[i] != ':'
    ensures !DebeReiniciar(reloj, ultimoReinicio, config)
  {
    PartesUnir([config.horaReinicio], ':');
  }

  /**
   * The reset records its own instant, so once it has fired no later check on
   * the same day fires again.
   */
  lemma NoReiniciaDosVecesElMismoDia(s: AppState, snapshot: SnapshotSemanal, reloj: Reloj, despues: Reloj)
    requires RelojCoherente(reloj)
    requires despues.inicioDia == reloj.inicioDia
    ensures var s' := Reducer.Reduce(s, Reducer.ReiniciarSemana(snapshot), reloj);
      !DebeReiniciar(despues, s'.ultimoReinicio, s'.configuracion)
  {
  }
}
