/**
 * The JavaScript string operations the application relies on, stated over
 * `string` (a sequence of Unicode scalar values): `trim`, `length` (which
 * counts UTF-16 code units), `toLowerCase`, `split`, `join`, `Number(...)`
 * and the decimal rendering of numbers.
 */
module Texto {
  import opened Wrappers

  // ---------------------------------------------------------------------------
  // trim
  // ---------------------------------------------------------------------------

  /** The code points `String.prototype.trim` strips: ECMAScript WhiteSpace and LineTerminator. */
  predicate EsEspacio(c: char)
  {
    || c == '\t' || c == '\n' || c == '\U{B}' || c == '\U{C}' || c == '\r' || c == ' '
    || c == '\U{A0}' || c == '\U{1680}' || ('\U{2000}' <= c <= '\U{200A}')
    || c == '\U{2028}' || c == '\U{2029}' || c == '\U{202F}' || c == '\U{205F}'
    || c == '\U{3000}' || c == '\U{FEFF}'
  }

  /** Drops the leading white space. */
  function TrimInicio(s: string): (r: string)
    ensures |r| <= |s| && r == s[|s| - |r|..]
    ensures forall i :: 0 <= i < |s| - |r| ==> EsEspacio(s[i])
    ensures r == [] || !EsEspacio(r[0])
  {
    if s != [] && EsEspacio(s[0]) then TrimInicio(s[1..]) else s
  }

  /** Drops the trailing white space. */
  function TrimFin(s: string): (r: string)
    ensures |r| <= |s| && r == s[..|r|]
    ensures forall i :: |r| <= i < |s| ==> EsEspacio(s[i])
    ensures r == [] || !EsEspacio(r[|r| - 1])
  {
    if s != [] && EsEspacio(s[|s| - 1]) then TrimFin(s[..|s| - 1]) else s
  }

  /** How many white-space characters `s` starts with. */
  function EspaciosIniciales(s: string): (n: nat)
    ensures n <= |s|
  {
    |s| - |TrimInicio(s)|
  }

  /** `s.trim()`: the slice of `s` between its leading and its trailing white space. */
  function Trim(s: string): (r: string)
    ensures EspaciosIniciales(s) + |r| <= |s|
    ensures r == s[EspaciosIniciales(s)..EspaciosIniciales(s) + |r|]
    ensures forall i :: 0 <= i < EspaciosIniciales(s) ==> EsEspacio(s[i])
    ensures forall i :: EspaciosIniciales(s) + |r| <= i < |s| ==> EsEspacio(s[i])
    ensures r == [] || (!EsEspacio(r[0]) && !EsEspacio(r[|r| - 1]))
  {
    TrimFin(TrimInicio(s))
  }

  lemma {:induction false} TrimInicioDeEspacios(s: string)
    requires forall i :: 0 <= i < |s| ==> EsEspacio(s[i])
    ensures TrimInicio(s) == []
  {
    if s != [] {
      TrimInicioDeEspacios(s[1..]);
    }
  }

  /** A string trims to "" exactly when every character of it is white space. */
  lemma TrimVacio(s: string)
    ensures Trim(s) == [] <==> forall i :: 0 <= i < |s| ==> EsEspacio(s[i])
  {
    if forall i :: 0 <= i < |s| ==> EsEspacio(s[i]) {
      TrimInicioDeEspacios(s);
    }
  }

  /** Trimming twice is trimming once. */
  lemma TrimIdempotente(s: string)
    ensures Trim(Trim(s)) == Trim(s)
  {
    var t := Trim(s);
    if t != [] {
      assert TrimInicio(t) == t;
      assert TrimFin(t) == t;
    }
  }

  // ---------------------------------------------------------------------------
  // length
  // ---------------------------------------------------------------------------

  /** `s.length` in JavaScript: code points above U+FFFF take two UTF-16 code units. */
  function Utf16Length(s: string): (n: nat)
    ensures |s| <= n <= 2 * |s|
  {
    if s == [] then 0 else (if s[0] as int >= 0x1_0000 then 2 else 1) + Utf16Length(s[1..])
  }

  /** On text without astral characters (every Latin letter, digit and accent) `length` is `|s|`. */
  lemma {:induction false} Utf16LengthBmp(s: string)
    requires forall i :: 0 <= i < |s| ==> s[i] as int < 0x1_0000
    ensures Utf16Length(s) == |s|
  {
    if s != [] {
      Utf16LengthBmp(s[1..]);
    }
  }

  // ---------------------------------------------------------------------------
  // toLowerCase
  // ---------------------------------------------------------------------------

  /** The capitals `toLowerCase` maps here: ASCII A-Z and Latin-1 U+00C0-U+00DE except the multiplication sign. */
  predicate Mayuscula(c: char)
  {
    'A' <= c <= 'Z' || ('\U{C0}' <= c <= '\U{DE}' && c != '\U{D7}')
  }

  /** Lower case of one character: ASCII and Latin-1 capitals (which cover Spanish names). */
  function MinusculaChar(c: char): (d: char)
  {
    if Mayuscula(c) then (c as int + 32) as char else c
  }

  /** `s.toLowerCase()` for the characters `MinusculaChar` covers. */
  function Minusculas(s: string): (r: string)
    ensures |r| == |s|
    ensures forall i :: 0 <= i < |s| ==> r[i] == MinusculaChar(s[i])
  {
    seq(|s|, i requires 0 <= i < |s| => MinusculaChar(s[i]))
  }

  /**
   * Lower-casing keeps the length, moves every capital 32 code points down to
   * its small letter, leaves every other character alone, leaves no capital
   * behind, and is therefore idempotent.
   */
  lemma MinusculasIgnoraCaso(s: string)
    ensures |Minusculas(s)| == |s|
    ensures forall i :: 0 <= i < |s| && Mayuscula(s[i]) ==> Minusculas(s)[i] as int == s[i] as int + 32
    ensures forall i :: 0 <= i < |s| && !Mayuscula(s[i]) ==> Minusculas(s)[i] == s[i]
    ensures forall i :: 0 <= i < |s| ==> !Mayuscula(Minusculas(s)[i])
    ensures Minusculas(Minusculas(s)) == Minusculas(s)
  {
    var r := Minusculas(s);
    assert forall i :: 0 <= i < |s| ==> !Mayuscula(r[i]);
    assert forall i :: 0 <= i < |r| ==> Minusculas(r)[i] == r[i];
  }

  // ---------------------------------------------------------------------------
  // split and join
  // ---------------------------------------------------------------------------

  /** `arr.join(sep)`. */
  function Unir(xs: seq<string>, sep: string): string
  {
    if xs == [] then "" else if |xs| == 1 then xs[0] else xs[0] + sep + Unir(xs[1..], sep)
  }

  /** `s.split(sep)` for a one-character separator: the maximal pieces between separators. */
  function Partes(s: string, sep: char): (r: seq<string>)
    ensures |r| >= 1
    ensures forall k, i :: 0 <= k < |r| && 0 <= i < |r[k]| ==> r[k][i] != sep
  {
    if s == [] then [""]
    else if s[0] == sep then [""] + Partes(s[1..], sep)
    else
      var resto := Partes(s[1..], sep);
      assert forall i :: 0 < i < |[s[0]] + resto[0]| ==> ([s[0]] + resto[0])[i] == resto[0][i - 1];
      [[s[0]] + resto[0]] + resto[1..]
  }

  /** Joining the pieces of a split with the separator gives the original string back. */
  lemma {:induction false} UnirPartes(s: string, sep: char)
    ensures Unir(Partes(s, sep), [sep]) == s
  {
    if s != [] {
      UnirPartes(s[1..], sep);
      var resto := Partes(s[1..], sep);
      if s[0] == sep {
        assert Partes(s, sep) == [""] + resto;
        assert Unir([""] + resto, [sep]) == "" + [sep] + Unir(resto, [sep]);
        assert s == [sep] + s[1..];
      } else {
        assert Partes(s, sep) == [[s[0]] + resto[0]] + resto[1..];
        if |resto| == 1 {
          assert Unir(resto, [sep]) == resto[0];
        } else {
          assert Unir(resto, [sep]) == resto[0] + [sep] + Unir(resto[1..], [sep]);
          assert ([[s[0]] + resto[0]] + resto[1..])[1..] == resto[1..];
        }
        assert s == [s[0]] + s[1..];
      }
    }
  }

  /** Splitting a string that starts with a separator-free piece puts that piece in front. */
  lemma {:induction false} PartesPrefijo(a: string, b: string, sep: char)
    requires forall i :: 0 <= i < |a| ==> a[i] != sep
    ensures Partes(a + b, sep) == [a + Partes(b, sep)[0]] + Partes(b, sep)[1..]
  {
    var p := Partes(b, sep);
    if a == [] {
      assert a + b == b;
      assert a + p[0] == p[0];
      assert [p[0]] + p[1..] == p;
    } else {
      assert (a + b)[0] == a[0];
      assert (a + b)[1..] == a[1..] + b;
      PartesPrefijo(a[1..], b, sep);
      assert [a[0]] + (a[1..] + p[0]) == a + p[0];
    }
  }

  /** Splitting what was joined by a separator the pieces do not contain gives the pieces back. */
  lemma {:induction false} PartesUnir(xs: seq<string>, sep: char)
    requires |xs| >= 1
    requires forall k, i :: 0 <= k < |xs| && 0 <= i < |xs[k]| ==> xs[k][i] != sep
    ensures Partes(Unir(xs, [sep]), sep) == xs
  {
    if |xs| == 1 {
      PartesPrefijo(xs[0], "", sep);
      assert xs[0] + "" == xs[0];
    } else {
      var u := Unir(xs[1..], [sep]);
      PartesUnir(xs[1..], sep);
      assert ([sep] + u)[1..] == u;
      assert Partes([sep] + u, sep) == [""] + xs[1..];
      assert xs[0] + [sep] + u == xs[0] + ([sep] + u);
      PartesPrefijo(xs[0], [sep] + u, sep);
      assert xs[0] + "" == xs[0];
    }
  }

  /** Number of occurrences of `c` in `s`. */
  function Cuenta(s: string, c: char): nat
  {
    if s == [] then 0 else (if s[0] == c then 1 else 0) + Cuenta(s[1..], c)
  }

  lemma {:induction false} CuentaConcat(a: string, b: string, c: char)
    ensures Cuenta(a + b, c) == Cuenta(a, c) + Cuenta(b, c)
  {
    if a != [] {
      assert (a + b)[0] == a[0];
      assert (a + b)[1..] == a[1..] + b;
      CuentaConcat(a[1..], b, c);
    } else {
      assert a + b == b;
    }
  }

  lemma {:induction false} CuentaAusente(s: string, c: char)
    requires forall i :: 0 <= i < |s| ==> s[i] != c
    ensures Cuenta(s, c) == 0
  {
    if s != [] {
      CuentaAusente(s[1..], c);
    }
  }

  /**
   * Joining strings that do not contain `c` with the one-character separator `c`
   * yields exactly one `c` per boundary.
   */
  lemma {:induction false} CuentaUnir(xs: seq<string>, c: char)
    requires forall k, i :: 0 <= k < |xs| && 0 <= i < |xs[k]| ==> xs[k][i] != c
    ensures Cuenta(Unir(xs, [c]), c) == if xs == [] then 0 else |xs| - 1
  {
    if xs == [] {
    } else if |xs| == 1 {
      CuentaAusente(xs[0], c);
    } else {
      CuentaUnir(xs[1..], c);
      CuentaAusente(xs[0], c);
      CuentaConcat(xs[0], [c], c);
      CuentaConcat(xs[0] + [c], Unir(xs[1..], [c]), c);
    }
  }

  /** No joined piece contributes a character that neither the pieces nor the separator hold. */
  lemma {:induction false} UnirSinCaracter(xs: seq<string>, sep: string, c: char)
    requires forall k, i :: 0 <= k < |xs| && 0 <= i < |xs[k]| ==> xs[k][i] != c
    requires forall i :: 0 <= i < |sep| ==> sep[i] != c
    ensures forall i :: 0 <= i < |Unir(xs, sep)| ==> Unir(xs, sep)[i] != c
  {
    if |xs| > 1 {
      UnirSinCaracter(xs[1..], sep, c);
      var u := Unir(xs[1..], sep);
      assert Unir(xs, sep) == xs[0] + sep + u;
      forall i | 0 <= i < |xs[0] + sep + u| ensures (xs[0] + sep + u)[i] != c {
        if i < |xs[0]| {
        } else if i < |xs[0]| + |sep| {
          assert (xs[0] + sep + u)[i] == sep[i - |xs[0]|];
        } else {
          assert (xs[0] + sep + u)[i] == u[i - |xs[0]| - |sep|];
        }
      }
    }
  }

  // ---------------------------------------------------------------------------
  // numbers
  // ---------------------------------------------------------------------------

  predicate EsDigito(c: char)
  {
    '0' <= c <= '9'
  }

  predicate SoloDigitos(s: string)
  {
    forall i :: 0 <= i < |s| ==> EsDigito(s[i])
  }

  /** The value of a string of decimal digits. */
  function ValorDecimal(s: string): nat
    requires SoloDigitos(s)
  {
    if s == [] then 0 else ValorDecimal(s[..|s| - 1]) * 10 + (s[|s| - 1] as int - '0' as int)
  }

  /**
   * `Number(s)` for the strings the reset time can hold: surrounding white space is
   * ignored, the empty string reads as 0, decimal digits read as their value, and
   * anything else reads as NaN (`None`).
   */
  function NumeroDe(s: string): (r: Option<int>)
    ensures r.Some? ==> r.value >= 0
  {
    var t := Trim(s);
    if t == [] then Some(0) else if SoloDigitos(t) then Some(ValorDecimal(t)) else None
  }

  function Digito(d: nat): (c: char)
    requires d < 10
    ensures EsDigito(c)
  {
    ('0' as int + d) as char
  }

  /** `String(n)` for a natural number: its shortest decimal rendering. */
  function NatAString(n: nat): (r: string)
    ensures |r| >= 1 && SoloDigitos(r)
    ensures |r| > 1 ==> r[0] != '0'
  {
    if n < 10 then [Digito(n)] else NatAString(n / 10) + [Digito(n % 10)]
  }

  /** `String(n)` for an integer: a minus sign before the rendering of `-n` when negative. */
  function IntAString(n: int): (r: string)
    ensures |r| >= 1
    ensures n >= 0 <==> SoloDigitos(r)
  {
    if n < 0 then
      var r := "-" + NatAString(-n);
      assert !EsDigito(r[0]);
      r
    else NatAString(n)
  }

  /** Reading back the decimal rendering of `n` gives `n`. */
  lemma {:induction false} ValorDeNatAString(n: nat)
    ensures ValorDecimal(NatAString(n)) == n
  {
    if n >= 10 {
      ValorDeNatAString(n / 10);
      var r := NatAString(n);
      assert r[..|r| - 1] == NatAString(n / 10);
    }
  }

  /** `Number(String(n)) == n` for every natural `n`. */
  lemma NumeroDeNatAString(n: nat)
    ensures NumeroDe(NatAString(n)) == Some(n)
  {
    var s := NatAString(n);
    assert !EsEspacio(s[0]) && !EsEspacio(s[|s| - 1]);
    assert TrimInicio(s) == s;
    assert TrimFin(s) == s;
    ValorDeNatAString(n);
  }

  /** `Number(s)` of a non-empty string of digits is its decimal value (leading zeros allowed). */
  lemma NumeroDeDigitos(s: string)
    requires |s| > 0 && SoloDigitos(s)
    ensures NumeroDe(s) == Some(ValorDecimal(s))
  {
    assert !EsEspacio(s[0]) && !EsEspacio(s[|s| - 1]);
    assert TrimInicio(s) == s;
    assert TrimFin(s) == s;
  }

  /** Decimal renderings never contain a comma or a line break. */
  lemma IntAStringSinSeparadores(n: int)
    ensures forall i :: 0 <= i < |IntAString(n)| ==> IntAString(n)[i] != ',' && IntAString(n)[i] != '\n'
  {
    if n < 0 {
      var d := NatAString(-n);
      assert forall i :: 1 <= i < |IntAString(n)| ==> IntAString(n)[i] == d[i - 1];
    }
  }
}
