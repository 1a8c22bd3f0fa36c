/**
 * The history export: a header row and, for every snapshot in the history
 * and every current member, one row with the week, the member's name, the
 * points recorded for the member's id and the sizes of the two recorded
 * lists. Fields are joined with `,` and rows with a line feed, with no
 * quoting.
 */
module Csv {
  import opened Tipos
  import opened Texto

  const Encabezado: seq<string> := ["Semana", "Miembro", "Puntos", "Tareas Completadas", "Recompensas Ganadas"]

  /** `snapshot.puntosPorMiembro[id] || 0`. */
  function PuntosEn(snap: SnapshotSemanal, id: string): int
  {
    if id in snap.puntosPorMiembro then snap.puntosPorMiembro[id] else 0
  }

  /** `(lists[id] || []).length`. */
  function LargoEn(lists: map<string, seq<string>>, id: string): nat
  {
    if id in lists then |lists[id]| else 0
  }

  function Fila(snap: SnapshotSemanal, m: Miembro): seq<string>
  {
    [snap.semana, m.nombre, IntAString(PuntosEn(snap, m.id)),
     NatAString(LargoEn(snap.tareasCompletadas, m.id)), NatAString(LargoEn(snap.recompensasGanadas, m.id))]
  }

  function FilasDeSnapshot(snap: SnapshotSemanal, ms: seq<Miembro>): seq<seq<string>>
  {
    seq(|ms|, j requires 0 <= j < |ms| => Fila(snap, ms[j]))
  }

  /** `historial.flatMap(snapshot => miembros.map(...))`. */
  function FilasDatos(hs: seq<SnapshotSemanal>, ms: seq<Miembro>): seq<seq<string>>
  {
    if hs == [] then [] else FilasDeSnapshot(hs[0], ms) + FilasDatos(hs[1..], ms)
  }

  function Filas(hs: seq<SnapshotSemanal>, ms: seq<Miembro>): seq<seq<string>>
  {
    [Encabezado] + FilasDatos(hs, ms)
  }

  function Lineas(filas: seq<seq<string>>): (ls: seq<string>)
    ensures |ls| == |filas|
  {
    seq(|filas|, k requires 0 <= k < |filas| => Unir(filas[k], ","))
  }

  function Contenido(hs: seq<SnapshotSemanal>, ms: seq<Miembro>): string
  {
    Unir(Lineas(Filas(hs, ms)), "\n")
  }

  predicate SinCaracter(s: string, c: char)
  {
    forall i :: 0 <= i < |s| ==> s[i] != c
  }

  /** No week label or member name contains the character. */
  predicate TextosSin(hs: seq<SnapshotSemanal>, ms: seq<Miembro>, c: char)
  {
    (forall i :: 0 <= i < |hs| ==> SinCaracter(hs[i].semana, c)) &&
    (forall j :: 0 <= j < |ms| ==> SinCaracter(ms[j].nombre, c))
  }

  // ---------------------------------------------------------------------------
  // Properties
  // ---------------------------------------------------------------------------

  /** Data rows for the remaining history: |historial|·|miembros| of them. */
  lemma {:induction false} FilasDatosLargo(hs: seq<SnapshotSemanal>, ms: seq<Miembro>)
    ensures |FilasDatos(hs, ms)| == |hs| * |ms|
  {
    if hs != [] {
      FilasDatosLargo(hs[1..], ms);
      assert |hs| * |ms| == |ms| + (|hs| - 1) * |ms|;
    }
  }

  /** Row `i·|miembros| + j` of the data is snapshot `i` with member `j`: history first, members second. */
  lemma {:induction false} FilaDatosEn(hs: seq<SnapshotSemanal>, ms: seq<Miembro>, i: int, j: int)
    requires 0 <= i < |hs| && 0 <= j < |ms|
    ensures i * |ms| + j < |FilasDatos(hs, ms)|
    ensures FilasDatos(hs, ms)[i * |ms| + j] == Fila(hs[i], ms[j])
  {
    FilasDatosLargo(hs, ms);
    var cabeza := FilasDeSnapshot(hs[0], ms);
    var resto := FilasDatos(hs[1..], ms);
    assert FilasDatos(hs, ms) == cabeza + resto;
    if i == 0 {
      assert (cabeza + resto)[j] == cabeza[j];
    } else {
      FilaDatosEn(hs[1..], ms, i - 1, j);
      var k := (i - 1) * |ms| + j;
      assert i * |ms| + j == |ms| + k;
      assert hs[1..][i - 1] == hs[i];
      assert (cabeza + resto)[|ms| + k] == resto[k];
    }
  }

  /** The whole table: the header, then |historial|·|miembros| rows in that order. */
  lemma FilasForma(hs: seq<SnapshotSemanal>, ms: seq<Miembro>, i: int, j: int)
    requires 0 <= i < |hs| && 0 <= j < |ms|
    ensures |Filas(hs, ms)| == 1 + |hs| * |ms|
    ensures Filas(hs, ms)[0] == Encabezado
    ensures 1 + i * |ms| + j < |Filas(hs, ms)| && Filas(hs, ms)[1 + i * |ms| + j] == Fila(hs[i], ms[j])
  {
    FilasDatosLargo(hs, ms);
    FilaDatosEn(hs, ms, i, j);
  }

  /** Without members or without history only the header is exported. */
  lemma SoloEncabezado(hs: seq<SnapshotSemanal>, ms: seq<Miembro>)
    requires hs == [] || ms == []
    ensures Contenido(hs, ms) == "Semana" + "," + "Miembro" + "," + "Puntos" + "," + "Tareas Completadas" + "," + "Recompensas Ganadas"
  {
    FilasDatosLargo(hs, ms);
    assert Filas(hs, ms) == [Encabezado];
    var linea := Unir(Encabezado, ",");
    assert Lineas([Encabezado]) == [linea];
    UnirCinco("Semana", "Miembro", "Puntos", "Tareas Completadas", "Recompensas Ganadas", ",");
    assert Unir([linea], "\n") == linea;
  }

  lemma UnirCinco(a: string, b: string, c: string, d: string, e: string, sep: string)
    ensures Unir([a, b, c, d, e], sep) == a + sep + b + sep + c + sep + d + sep + e
  {
    assert [d, e][1..] == [e];
    assert Unir([d, e], sep) == d + sep + e;
    assert [c, d, e][1..] == [d, e];
    assert Unir([c, d, e], sep) == c + sep + (d + sep + e);
    assert [b, c, d, e][1..] == [c, d, e];
    assert Unir([b, c, d, e], sep) == b + sep + (c + sep + (d + sep + e));
    assert [a, b, c, d, e][1..] == [b, c, d, e];
    assert Unir([a, b, c, d, e], sep) == a + sep + (b + sep + (c + sep + (d + sep + e)));
  }

  /** A member the snapshot does not record gets 0 points and two 0 counts. */
  lemma FilaDeMiembroAusente(snap: SnapshotSemanal, m: Miembro)
    requires m.id !in snap.puntosPorMiembro && m.id !in snap.tareasCompletadas && m.id !in snap.recompensasGanadas
    ensures Fila(snap, m) == [snap.semana, m.nombre, "0", "0", "0"]
  {
  }

  /** A recorded member gets its recorded figures. */
  lemma FilaDeMiembroPresente(snap: SnapshotSemanal, m: Miembro)
    requires m.id in snap.puntosPorMiembro && m.id in snap.tareasCompletadas && m.id in snap.recompensasGanadas
    ensures Fila(snap, m) == [snap.semana, m.nombre, IntAString(snap.puntosPorMiembro[m.id]),
                              NatAString(|snap.tareasCompletadas[m.id]|), NatAString(|snap.recompensasGanadas[m.id]|)]
  {
  }

  /** Every row has five fields, none holding a separator that no week label and no name holds. */
  predicate FilasLimpias(filas: seq<seq<string>>, c: char)
  {
    forall k :: 0 <= k < |filas| ==> |filas[k]| == 5 && forall f :: 0 <= f < 5 ==> SinCaracter(filas[k][f], c)
  }

  lemma FilaLimpia(snap: SnapshotSemanal, m: Miembro, c: char)
    requires SinCaracter(snap.semana, c) && SinCaracter(m.nombre, c) && (c == ',' || c == '\n')
    ensures FilasLimpias([Fila(snap, m)], c)
  {
    IntAStringSinSeparadores(PuntosEn(snap, m.id));
    IntAStringSinSeparadores(LargoEn(snap.tareasCompletadas, m.id));
    IntAStringSinSeparadores(LargoEn(snap.recompensasGanadas, m.id));
  }

  lemma {:induction false} FilasDatosLimpias(hs: seq<SnapshotSemanal>, ms: seq<Miembro>, c: char)
    requires TextosSin(hs, ms, c) && (c == ',' || c == '\n')
    ensures FilasLimpias(FilasDatos(hs, ms), c)
  {
    if hs != [] {
      FilasDatosLimpias(hs[1..], ms, c);
      var cabeza := FilasDeSnapshot(hs[0], ms);
      forall j | 0 <= j < |ms| ensures |cabeza[j]| == 5 && forall f :: 0 <= f < 5 ==> SinCaracter(cabeza[j][f], c) {
        FilaLimpia(hs[0], ms[j], c);
      }
      assert FilasDatos(hs, ms) == cabeza + FilasDatos(hs[1..], ms);
    }
  }

  lemma FilasTodasLimpias(hs: seq<SnapshotSemanal>, ms: seq<Miembro>, c: char)
    requires TextosSin(hs, ms, c) && (c == ',' || c == '\n')
    ensures FilasLimpias(Filas(hs, ms), c)
  {
    FilasDatosLimpias(hs, ms, c);
    var filas := Filas(hs, ms);
    forall f | 0 <= f < 5 ensures SinCaracter(filas[0][f], c) {
      assert filas[0] == Encabezado;
    }
  }

  /**
   * When no week label and no member name contains a line feed, splitting the
   * export on line feeds gives back exactly the rows, so the export has
   * 1 + |historial|·|miembros| lines and |historial|·|miembros| line feeds.
   */
  lemma ContenidoPorLineas(hs: seq<SnapshotSemanal>, ms: seq<Miembro>)
    requires TextosSin(hs, ms, '\n')
    ensures Partes(Contenido(hs, ms), '\n') == Lineas(Filas(hs, ms))
    ensures |Partes(Contenido(hs, ms), '\n')| == 1 + |hs| * |ms|
    ensures Cuenta(Contenido(hs, ms), '\n') == |hs| * |ms|
  {
    FilasDatosLargo(hs, ms);
    FilasTodasLimpias(hs, ms, '\n');
    var filas := Filas(hs, ms);
    var ls := Lineas(filas);
    forall k | 0 <= k < |ls| ensures SinCaracter(ls[k], '\n') {
      UnirSinCaracter(filas[k], ",", '\n');
    }
    PartesUnir(ls, '\n');
    CuentaUnir(ls, '\n');
  }

  /**
   * When no week label and no member name contains a comma, every line splits
   * on commas into exactly its five fields.
   */
  lemma LineaPorCampos(hs: seq<SnapshotSemanal>, ms: seq<Miembro>, k: int)
    requires TextosSin(hs, ms, ',') && 0 <= k < |Filas(hs, ms)|
    ensures Partes(Lineas(Filas(hs, ms))[k], ',') == Filas(hs, ms)[k]
    ensures |Partes(Lineas(Filas(hs, ms))[k], ',')| == 5
  {
    FilasTodasLimpias(hs, ms, ',');
    PartesUnir(Filas(hs, ms)[k], ',');
  }

  /** Nothing is quoted: a field `a,b` splits a five-field line into six pieces. */
  lemma {:induction false} CampoConComa(x: string, a: string, b: string, y: string, z: string, w: string)
    requires SinCaracter(x, ',') && SinCaracter(a, ',') && SinCaracter(b, ',')
    requires SinCaracter(y, ',') && SinCaracter(z, ',') && SinCaracter(w, ',')
    ensures Partes(Unir([x, a + "," + b, y, z, w], ","), ',') == [x, a, b, y, z, w]
  {
    var piezas := [x, a, b, y, z, w];
    UnirCinco(x, a + "," + b, y, z, w, ",");
    UnirCinco(a, b, y, z, w, ",");
    assert piezas[1..] == [a, b, y, z, w];
    assert Unir(piezas, ",") == Unir([x, a + "," + b, y, z, w], ",");
    PartesUnir(piezas, ',');
  }

  /** A member name `a,b` shifts the fields of its row. */
  lemma ComaEnNombre(snap: SnapshotSemanal, m: Miembro, a: string, b: string)
    requires m.nombre == a + "," + b
    requires SinCaracter(snap.semana, ',') && SinCaracter(a, ',') && SinCaracter(b, ',')
    ensures |Partes(Unir(Fila(snap, m), ","), ',')| == 6
  {
    var f := Fila(snap, m);
    FilaLimpia(snap, m.(nombre := a), ',');
    CampoConComa(f[0], a, b, f[2], f[3], f[4]);
    assert f == [f[0], a + "," + b, f[2], f[3], f[4]];
  }
}
