/** Preparation of the report data (gerar_relatorio_pdf.py): reading prices
    written in Brazilian style, formatting amounts, deriving the
    neighbourhood and category of each offer, and ranking neighbourhoods.

    Prices are exact decimals (`Decimal`: units over a power of ten); the
    binary floating point of the original is not modelled. */
module Relatorio {
  import opened Wrappers
  import opened Text

  /** A spreadsheet cell: its text, or `None` for a missing value. */
  type Cell = Option<string>

  // ---------------------------------------------------------------------
  // Reading a price

  predicate IsDigit(c: char) {
    '0' <= c <= '9'
  }

  /** The characters `[\d,.]` that survive the clean-up. */
  predicate PriceChar(c: char) {
    IsDigit(c) || c == ',' || c == '.'
  }

  /** `re.sub(r'[^\d,.]', '', s)`: the digits, commas and dots of `s`, in order. */
  function PriceChars(s: string): (r: string)
    ensures |r| <= |s|
    decreases |s|
  {
    if s == [] then []
    else if PriceChar(s[0]) then [s[0]] + PriceChars(s[1..])
    else PriceChars(s[1..])
  }

  /** The clean-up keeps exactly the digits, commas and dots of `s`. */
  lemma {:induction false} PriceCharsFilter(s: string)
    ensures forall c :: c in PriceChars(s) <==> c in s && PriceChar(c)
    decreases |s|
  {
    if s != [] {
      PriceCharsFilter(s[1..]);
      assert forall c :: c in s <==> c == s[0] || c in s[1..];
    }
  }

  /** The text handed to `float`: with both separators present, dots are
      thousands separators and go; then every comma becomes a dot. */
  function Normalize(s: string): (r: string)
    ensures ',' !in r
    ensures forall c :: c in r ==> IsDigit(c) || c == '.'
  {
    var t := PriceChars(s);
    var u := if ',' in t && '.' in t then RemoveAll(t, ".") else t;
    PriceCharsFilter(s);
    RemoveAllChar(t, '.');
    var r := ReplaceChar(u, ',', '.');
    assert forall i :: 0 <= i < |r| ==> IsDigit(r[i]) || r[i] == '.' by {
      assert forall i :: 0 <= i < |u| ==> u[i] in t;
    }
    r
  }

  /** Only digits. */
  predicate AllDigits(s: string) {
    forall i :: 0 <= i < |s| ==> IsDigit(s[i])
  }

  /** The number a string of decimal digits denotes. */
  function Digits(s: string): nat
    requires AllDigits(s)
    decreases |s|
  {
    if s == [] then 0 else Digits(s[..|s| - 1]) * 10 + (s[|s| - 1] as int - '0' as int)
  }

  function Pow10(n: nat): (p: nat)
    ensures p > 0
  {
    if n == 0 then 1 else 10 * Pow10(n - 1)
  }

  /** What `float` accepts once only digits and dots are left: at least one
      digit and at most one dot. */
  predicate FloatText(t: string) {
    && (forall i :: 0 <= i < |t| ==> IsDigit(t[i]) || t[i] == '.')
    && (exists i :: 0 <= i < |t| && IsDigit(t[i]))
    && (forall i, j :: 0 <= i < j < |t| && t[i] == '.' ==> t[j] != '.')
  }

  /** An exact decimal: `units` divided by ten to the `scale`. The text
      "1234.56" is `Decimal(123456, 2)`. */
  datatype Decimal = Decimal(units: nat, scale: nat)

  /** The number a decimal stands for. */
  function Value(d: Decimal): real {
    d.units as real / Pow10(d.scale) as real
  }

  /** `d > n`, without division. */
  predicate Exceeds(d: Decimal, n: nat) {
    d.units > n * Pow10(d.scale)
  }

  /** `float(t)` on a string of digits and dots, `None` where it raises:
      the digits around the dot, scaled by the number after it. */
  function ParseFloat(t: string): (r: Option<Decimal>)
    ensures r.Some? <==> FloatText(t)
  {
    if !FloatText(t) then None
    else if '.' in t then
      var i := FirstIndex(t, '.');
      assert AllDigits(t[..i]);
      assert forall k :: i + 1 <= k < |t| ==> IsDigit(t[k]);
      assert AllDigits(t[..i] + t[i + 1..]);
      Some(Decimal(Digits(t[..i] + t[i + 1..]), |t| - i - 1))
    else
      assert AllDigits(t);
      Some(Decimal(Digits(t), 0))
  }

  /** `limpar_valor`: `None` for a missing value or text `float` rejects;
      it never raises. */
  function LimparValor(v: Cell): (r: Option<Decimal>)
    ensures v.None? ==> r.None?
    ensures v.Some? ==> (r.Some? <==> FloatText(Normalize(v.value)))
  {
    match v
    case None => None
    case Some(s) => ParseFloat(Normalize(s))
  }

  /** The clean-up works piece by piece. */
  lemma {:induction false} PriceCharsAppend(a: string, b: string)
    ensures PriceChars(a + b) == PriceChars(a) + PriceChars(b)
    decreases |a|
  {
    if a == [] {
      assert a + b == b;
    } else {
      assert (a + b)[0] == a[0] && (a + b)[1..] == a[1..] + b;
      PriceCharsAppend(a[1..], b);
    }
  }

  /** Text made only of digits, commas and dots survives the clean-up. */
  lemma {:induction false} PriceCharsKeep(s: string)
    requires forall i :: 0 <= i < |s| ==> PriceChar(s[i])
    ensures PriceChars(s) == s
    decreases |s|
  {
    if s != [] {
      PriceCharsKeep(s[1..]);
    }
  }

  /** Text without digits, commas or dots is dropped entirely. */
  lemma {:induction false} PriceCharsDrop(s: string)
    requires forall i :: 0 <= i < |s| ==> !PriceChar(s[i])
    ensures PriceChars(s) == []
    decreases |s|
  {
    if s != [] {
      PriceCharsDrop(s[1..]);
    }
  }

  /** The value of digits written one after the other. */
  lemma {:induction false} DigitsAppend(a: string, b: string)
    requires AllDigits(a) && AllDigits(b)
    ensures AllDigits(a + b)
    ensures Digits(a + b) == Digits(a) * Pow10(|b|) + Digits(b)
    decreases |b|
  {
    if b == [] {
      assert a + b == a;
    } else {
      var b' := b[..|b| - 1];
      var d := b[|b| - 1] as int - '0' as int;
      assert AllDigits(a + b) by {
        assert forall i :: 0 <= i < |a + b| ==> (a + b)[i] == if i < |a| then a[i] else b[i - |a|];
      }
      assert AllDigits(b');
      assert (a + b)[..|a + b| - 1] == a + b';
      assert (a + b)[|a + b| - 1] == b[|b| - 1];
      DigitsAppend(a, b');
      var x, y, z := Digits(a), Pow10(|b'|), Digits(b');
      assert Digits(a + b) == (x * y + z) * 10 + d;
      assert Digits(b) == z * 10 + d;
      assert Pow10(|b|) == 10 * y;
      ShiftDigit(x, y, z, d);
    }
  }

  lemma ShiftDigit(x: int, y: int, z: int, d: int)
    ensures (x * y + z) * 10 + d == x * (10 * y) + (z * 10 + d)
  {
  }

  /** Digits, a dot and digits, with a digit somewhere, is what `float` accepts. */
  lemma DecimalIsFloatText(a: string, c: string)
    requires AllDigits(a) && AllDigits(c) && (a != [] || c != [])
    ensures FloatText(a + "." + c)
  {
    var t := a + "." + c;
    assert forall k :: 0 <= k < |t| && k != |a| ==> IsDigit(t[k]) by {
      assert forall k :: 0 <= k < |a| ==> t[k] == a[k];
      assert forall k :: |a| < k < |t| ==> t[k] == c[k - |a| - 1];
    }
    if a != [] {
      assert IsDigit(t[0]);
    } else {
      assert IsDigit(t[1]);
    }
  }

  /** `float` of digits, a dot and digits. */
  lemma ParseDecimal(a: string, c: string)
    requires AllDigits(a) && AllDigits(c) && (a != [] || c != [])
    ensures ParseFloat(a + "." + c) == Some(Decimal(Digits(a + c), |c|))
  {
    var t := a + "." + c;
    DecimalIsFloatText(a, c);
    assert t[|a|] == '.' && t[..|a|] == a && t[|a| + 1..] == c;
    FirstIndexAt(t, '.', |a|);
  }

  /** The text "R$ 1.234,56" normalises to: the clean-up keeps the number,
      the dot goes and the comma becomes a dot. */
  lemma NormalizeBrazilian(lead: string, a: string, b: string, c: string)
    requires forall i :: 0 <= i < |lead| ==> !PriceChar(lead[i])
    requires AllDigits(a) && AllDigits(b) && AllDigits(c)
    ensures Normalize(lead + (a + "." + b + "," + c)) == (a + b) + "." + c
  {
    var num := a + "." + b + "," + c;
    assert forall i :: 0 <= i < |num| ==> PriceChar(num[i]) by {
      assert forall i :: 0 <= i < |num| ==> num[i] == '.' || num[i] == ',' || num[i] in a || num[i] in b || num[i] in c;
    }
    KeepNumber(lead, num);
    assert num[|a|] == '.' && num[|a| + 1 + |b|] == ',';
    assert ',' in num && '.' in num;
    assert '.' !in b + "," + c by {
      assert forall i :: 0 <= i < |b + "," + c| ==> (b + "," + c)[i] == ',' || (b + "," + c)[i] in b || (b + "," + c)[i] in c;
    }
    DropThousandsDot(a, b + "," + c);
    assert a + "." + (b + "," + c) == num;
    var u := a + b + "," + c;
    assert RemoveAll(num, ".") == u;
    assert Normalize(lead + num) == ReplaceChar(u, ',', '.');
    CommaToDot(a + b, c);
  }

  lemma CommaToDot(a: string, c: string)
    requires AllDigits(a) && AllDigits(c)
    ensures ReplaceChar(a + "," + c, ',', '.') == a + "." + c
  {
    var u := a + "," + c;
    var n := ReplaceChar(u, ',', '.');
    assert forall k :: 0 <= k < |u| ==> n[k] == (a + "." + c)[k] by {
      assert forall k :: 0 <= k < |a| ==> u[k] == a[k] && (a + "." + c)[k] == a[k];
      assert forall k :: |a| < k < |u| ==> u[k] == c[k - |a| - 1] && (a + "." + c)[k] == c[k - |a| - 1];
    }
  }

  lemma KeepNumber(lead: string, num: string)
    requires forall i :: 0 <= i < |lead| ==> !PriceChar(lead[i])
    requires forall i :: 0 <= i < |num| ==> PriceChar(num[i])
    ensures PriceChars(lead + num) == num
  {
    PriceCharsAppend(lead, num);
    PriceCharsDrop(lead);
    PriceCharsKeep(num);
  }

  lemma DropThousandsDot(a: string, rest: string)
    requires AllDigits(a) && '.' !in rest
    ensures RemoveAll(a + "." + rest, ".") == a + rest
  {
    assert '.' !in a by {
      assert forall k :: 0 <= k < |a| ==> a[k] != '.';
    }
    assert a + "." + rest == a + ("." + rest);
    RemoveAllKeepsPrefix(a, "." + rest, ".");
    assert StartsWith("." + rest, ".");
    assert ("." + rest)[1..] == rest;
    RemoveAllAbsent(rest, ".");
  }

  /** A Brazilian amount with a thousands dot and a decimal comma, such as
      "R$ 1.234,56", reads as its value: the dot goes, the comma becomes the
      decimal point. */
  lemma ReadsBrazilianDecimal(lead: string, a: string, b: string, c: string)
    requires forall i :: 0 <= i < |lead| ==> !PriceChar(lead[i])
    requires AllDigits(a) && AllDigits(b) && AllDigits(c) && a != []
    ensures LimparValor(Some(lead + (a + "." + b + "," + c)))
      == Some(Decimal(Digits(a + b + c), |c|))
  {
    NormalizeBrazilian(lead, a, b, c);
    DigitsAppend(a, b);
    ParseDecimal(a + b, c);
  }

  /** Digits read as a number stay below ten to their count. */
  lemma {:induction false} DigitsBound(s: string)
    requires AllDigits(s)
    ensures Digits(s) < Pow10(|s|)
    decreases |s|
  {
    if s != [] {
      DigitsBound(s[..|s| - 1]);
    }
  }

  lemma NoCommaUnchanged(s: string)
    requires ',' !in s
    ensures ReplaceChar(s, ',', '.') == s
  {
  }

  lemma AllDigitsNoSeparator(s: string)
    requires AllDigits(s)
    ensures ',' !in s && '.' !in s
  {
    assert forall k :: 0 <= k < |s| ==> s[k] != ',' && s[k] != '.';
  }

  lemma KeepGroupedNumber(lead: string, a: string, b: string)
    requires forall i :: 0 <= i < |lead| ==> !PriceChar(lead[i])
    requires AllDigits(a) && AllDigits(b)
    ensures var num := a + "." + b;
      PriceChars(lead + num) == num && '.' in num && ',' !in num
  {
    var num := a + "." + b;
    AllDigitsNoSeparator(a);
    AllDigitsNoSeparator(b);
    assert forall i :: 0 <= i < |num| ==> num[i] == '.' || num[i] in a || num[i] in b;
    KeepNumber(lead, num);
    assert num[|a|] == '.';
  }

  /** As written, a price such as "R$ 350.000", with a thousands dot and no
      cents, reads the dot as a decimal point: it is 350.000, that is 350. */
  lemma ThousandsDotReadAsDecimal(lead: string, a: string, b: string)
    requires forall i :: 0 <= i < |lead| ==> !PriceChar(lead[i])
    requires AllDigits(a) && AllDigits(b) && a != []
    ensures LimparValor(Some(lead + (a + "." + b))) == Some(Decimal(Digits(a + b), |b|))
  {
    var num := a + "." + b;
    KeepGroupedNumber(lead, a, b);
    NoCommaUnchanged(num);
    assert Normalize(lead + num) == num;
    ParseDecimal(a, b);
  }

  /** So, as written, every price under a million written with a thousands
      dot and no cents falls under the 1000 floor of the report. */
  lemma ThousandsPriceFallsUnderFloor(lead: string, a: string, b: string)
    requires forall i :: 0 <= i < |lead| ==> !PriceChar(lead[i])
    requires AllDigits(a) && AllDigits(b) && a != [] && |a| <= 3 && |b| == 3
    ensures LimparValor(Some(lead + (a + "." + b))).Some?
    ensures !Exceeds(LimparValor(Some(lead + (a + "." + b))).value, PriceFloor)
  {
    ThousandsDotReadAsDecimal(lead, a, b);
    DigitsAppend(a, b);
    DigitsBound(a + b);
    PowMonotone(|a + b|, 6);
  }

  lemma {:induction false} PowMonotone(m: nat, n: nat)
    requires m <= n
    ensures Pow10(m) <= Pow10(n)
    decreases n
  {
    if m < n {
      PowMonotone(m, n - 1);
    }
  }

  /** As written, a price in the millions with thousands dots and no cents,
      such as "R$ 1.500.000", has two dots, which `float` rejects. */
  lemma MillionsRejected(lead: string, a: string, b: string, d: string)
    requires forall i :: 0 <= i < |lead| ==> !PriceChar(lead[i])
    requires AllDigits(a) && AllDigits(b) && AllDigits(d)
    ensures LimparValor(Some(lead + (a + "." + b + "." + d))) == None
  {
    var num := a + "." + b + "." + d;
    AllDigitsNoSeparator(a);
    AllDigitsNoSeparator(b);
    AllDigitsNoSeparator(d);
    assert forall i :: 0 <= i < |num| ==> num[i] == '.' || num[i] in a || num[i] in b || num[i] in d;
    KeepNumber(lead, num);
    assert ',' !in num;
    NoCommaUnchanged(num);
    assert num[|a|] == '.' && num[|a| + 1 + |b|] == '.';
    assert !FloatText(num);
  }

  /** The floor under which an offer is left out of the report. */
  const PriceFloor: nat := 1000

  // ---------------------------------------------------------------------
  // Reading a price: the intended reading

  /** Every dot of `t` opens a group of exactly three digits, as a
      thousands separator does. */
  predicate ThousandsGrouped(t: string) {
    && '.' in t
    && forall i :: 0 <= i < |t| && t[i] == '.' ==>
         i + 3 < |t| && IsDigit(t[i + 1]) && IsDigit(t[i + 2]) && IsDigit(t[i + 3])
         && (i + 4 == |t| || t[i + 4] == '.')
  }

  /** The intended normalisation: dots are also thousands separators when
      there is no comma but every dot opens a group of three digits. */
  function NormalizeBrl(s: string): (r: string)
    ensures ',' !in r
    ensures forall c :: c in r ==> IsDigit(c) || c == '.'
  {
    var t := PriceChars(s);
    var u := if '.' in t && (',' in t || ThousandsGrouped(t)) then RemoveAll(t, ".") else t;
    PriceCharsFilter(s);
    RemoveAllChar(t, '.');
    var r := ReplaceChar(u, ',', '.');
    assert forall i :: 0 <= i < |r| ==> IsDigit(r[i]) || r[i] == '.' by {
      assert forall i :: 0 <= i < |u| ==> u[i] in t;
    }
    r
  }

  /** The price reading the report relies on. */
  function CleanPrice(v: Cell): (r: Option<Decimal>)
    ensures v.None? ==> r.None?
    ensures v.Some? ==> (r.Some? <==> FloatText(NormalizeBrl(v.value)))
  {
    match v
    case None => None
    case Some(s) => ParseFloat(NormalizeBrl(s))
  }

  /** The intended reading agrees with `limpar_valor` except on text whose
      only separators are dots grouping thousands. */
  lemma CleanPriceAgrees(s: string)
    requires !(',' !in PriceChars(s) && ThousandsGrouped(PriceChars(s)))
    ensures CleanPrice(Some(s)) == LimparValor(Some(s))
  {
  }

  /** "R$ 350.000" reads as 350000. */
  lemma ThousandsDotRead(lead: string, a: string, b: string)
    requires forall i :: 0 <= i < |lead| ==> !PriceChar(lead[i])
    requires AllDigits(a) && AllDigits(b) && a != [] && |b| == 3
    ensures CleanPrice(Some(lead + (a + "." + b))) == Some(Decimal(Digits(a + b), 0))
  {
    var num := a + "." + b;
    KeepGroupedNumber(lead, a, b);
    assert ThousandsGrouped(num) by {
      assert forall i :: 0 <= i < |num| && num[i] == '.' ==> i == |a| by {
        assert forall i :: 0 <= i < |num| && i != |a| ==> num[i] in a || num[i] in b;
      }
      assert IsDigit(b[0]) && IsDigit(b[1]) && IsDigit(b[2]);
      assert num[|a| + 1] == b[0] && num[|a| + 2] == b[1] && num[|a| + 3] == b[2];
    }
    AllDigitsNoSeparator(b);
    DropThousandsDot(a, b);
    DigitsAppend(a, b);
    AllDigitsNoSeparator(a + b);
    NoCommaUnchanged(a + b);
    assert NormalizeBrl(lead + num) == a + b;
    assert IsDigit((a + b)[0]);
  }

  // ---------------------------------------------------------------------
  // Formatting an amount

  /** The separator swap of `formatar_brl`: commas to 'X', dots to commas,
      'X' to dots. */
  function SwapSeparators(s: string): (r: string)
    ensures |r| == |s|
  {
    ReplaceChar(ReplaceChar(ReplaceChar(s, ',', 'X'), '.', ','), 'X', '.')
  }

  /** On text without 'X' the swap exchanges commas and dots and keeps the rest. */
  lemma SwapExchanges(s: string)
    requires 'X' !in s
    ensures var r := SwapSeparators(s);
      forall i :: 0 <= i < |s| ==> r[i] == (if s[i] == ',' then '.' else if s[i] == '.' then ',' else s[i])
  {
    assert forall i :: 0 <= i < |s| ==> s[i] != 'X';
  }

  /** Swapping twice gives back text without 'X'; the result has no 'X' either. */
  lemma SwapInvolution(s: string)
    requires 'X' !in s
    ensures 'X' !in SwapSeparators(s)
    ensures SwapSeparators(SwapSeparators(s)) == s
  {
    SwapExchanges(s);
    var r := SwapSeparators(s);
    assert forall i :: 0 <= i < |r| ==> r[i] != 'X' by {
      assert forall i :: 0 <= i < |s| ==> s[i] != 'X';
    }
    SwapExchanges(r);
  }

  /** `formatar_brl`: "N/A" for a missing value, otherwise "R$ " and the
      number as `render` writes it with `:,.2f` (comma groups, dot decimals),
      separators swapped into the Brazilian style. */
  function FormatarBrl(v: Option<Decimal>, render: Decimal -> string): (r: string)
    ensures v.None? ==> r == "N/A"
    ensures v.Some? ==> |r| == 3 + |render(v.value)|
  {
    match v
    case None => "N/A"
    case Some(d) => SwapSeparators("R$ " + render(d))
  }

  /** A formatted amount starts with "R$ " and swapping its separators back
      gives the rendered number. */
  lemma FormatarBrlUndone(d: Decimal, render: Decimal -> string)
    requires 'X' !in render(d)
    ensures var r := FormatarBrl(Some(d), render);
      StartsWith(r, "R$ ") && SwapSeparators(r)[3..] == render(d)
  {
    var t := "R$ " + render(d);
    assert 'X' !in t by {
      assert forall i :: 0 <= i < |render(d)| ==> render(d)[i] != 'X';
      assert forall i :: 3 <= i < |t| ==> t[i] == render(d)[i - 3];
    }
    SwapInvolution(t);
    SwapExchanges(t);
    var r := FormatarBrl(Some(d), render);
    assert r[0] == 'R' && r[1] == '$' && r[2] == ' ';
    assert r[..3] == "R$ ";
  }

  // ---------------------------------------------------------------------
  // Neighbourhood and category

  /** `endereco.split(',')[-1].strip().title()`; a missing address gives a
      missing neighbourhood. */
  function BairroOf(endereco: Cell): (b: Cell)
    ensures endereco.None? <==> b.None?
    ensures b.Some? ==> ',' !in b.value
    ensures b.Some? && b.value != [] ==> !IsSpace(b.value[0]) && !IsSpace(b.value[|b.value| - 1])
  {
    match endereco
    case None => None
    case Some(e) =>
      var seg := Strip(LastSegment(e, ','));
      StripKeepsChars(LastSegment(e, ','));
      Some(Title(seg))
  }

  /** The neighbourhood is what follows the last comma of the address. */
  lemma BairroAfterLastComma(street: string, district: string)
    requires ',' !in district
    ensures BairroOf(Some(street + "," + district)) == Some(Title(Strip(district)))
  {
    LastSegmentAfter(street, district, ',');
  }

  /** The label of an offer with no type. */
  const Unspecified := "Não Especificado"

  /** `s` matches one of `patterns`, case ignored: the regular expression
      `'|'.join(patterns)` searched with `re.IGNORECASE`. */
  predicate MatchesAny(s: string, patterns: seq<string>) {
    exists p :: p in patterns && ContainsIgnoreCase(s, p)
  }

  /** `df.loc[df['tipo'].str.contains('|'.join(patterns), case=False, na=False), 'tipo'] = tag`
      on one cell. */
  function Relabel(t: Cell, patterns: seq<string>, tag: string): (r: Cell)
    ensures t.None? ==> r.None?
    ensures t.Some? ==> r.Some? && (r.value == tag <== MatchesAny(t.value, patterns))
    ensures t.Some? && !MatchesAny(t.value, patterns) ==> r == t
  {
    match t
    case None => None
    case Some(s) => if MatchesAny(s, patterns) then Some(tag) else t
  }

  /** The three relabelling passes, in the order the report runs them, on a
      type cell already filled. */
  function Relabelled(t: Cell): Cell {
    Relabel(Relabel(Relabel(t, ["Terreno", "Lote"], "Terreno/Lote"), ["Casa"], "Casa"), ["Apartamento"], "Apartamento")
  }

  /** The category the passes end with: the first of the three tests that
      matches the original text decides. */
  function Category(t: Cell): string {
    var s := t.GetOr(Unspecified);
    if ContainsIgnoreCase(s, "Terreno") || ContainsIgnoreCase(s, "Lote") then "Terreno/Lote"
    else if ContainsIgnoreCase(s, "Casa") then "Casa"
    else if ContainsIgnoreCase(s, "Apartamento") then "Apartamento"
    else s
  }

  lemma MatchesOne(s: string, p: string)
    ensures MatchesAny(s, [p]) <==> ContainsIgnoreCase(s, p)
  {
    assert p in [p];
  }

  lemma MatchesTwo(s: string, p: string, q: string)
    ensures MatchesAny(s, [p, q]) <==> ContainsIgnoreCase(s, p) || ContainsIgnoreCase(s, q)
  {
    assert p in [p, q] && q in [p, q];
  }

  lemma NotContained(s: string, p: string, k: nat)
    requires k < |p| && Fold(p)[k] !in Fold(s)
    ensures !ContainsIgnoreCase(s, p)
  {
    if ContainsIgnoreCase(s, p) {
      ContainsCharAt(Fold(s), Fold(p), k);
    }
  }

  lemma LabelsDoNotMatchLater()
    ensures !ContainsIgnoreCase("Terreno/Lote", "Casa")
    ensures !ContainsIgnoreCase("Terreno/Lote", "Apartamento")
    ensures !ContainsIgnoreCase("Casa", "Apartamento")
  {
    assert Fold("Casa")[0] == 'c' && Fold("Apartamento")[0] == 'a';
    assert Fold("Terreno/Lote") == "terreno/lote";
    NotContained("Terreno/Lote", "Casa", 0);
    NotContained("Terreno/Lote", "Apartamento", 0);
    assert !OccursAt(Fold("Casa"), Fold("Apartamento"), 0);
  }

  lemma UnspecifiedFolded()
    ensures Fold(Unspecified) == "não especificado"
  {
  }

  lemma UnspecifiedNotLand()
    ensures !ContainsIgnoreCase(Unspecified, "Terreno") && !ContainsIgnoreCase(Unspecified, "Lote")
  {
    UnspecifiedFolded();
    assert Fold("Terreno")[0] == 't' && Fold("Lote")[0] == 'l';
    NotContained(Unspecified, "Terreno", 0);
    NotContained(Unspecified, "Lote", 0);
  }

  lemma UnspecifiedNotHouse()
    ensures !ContainsIgnoreCase(Unspecified, "Casa")
  {
    var u := Fold(Unspecified);
    UnspecifiedFolded();
    assert Fold("Casa") == "casa";
    assert forall i :: 0 <= i < |u| - 1 ==> !(u[i] == 'a' && u[i + 1] == 's');
    PairAbsent(u, "casa", 1);
  }

  lemma UnspecifiedNotFlat()
    ensures !ContainsIgnoreCase(Unspecified, "Apartamento")
  {
    UnspecifiedFolded();
    assert Fold("Apartamento")[3] == 'r';
    NotContained(Unspecified, "Apartamento", 3);
  }

  /** After the missing types are filled, the successive passes amount to a
      first-match rule: "Terreno"/"Lote" wins over "Casa", which wins over
      "Apartamento", because each new label matches none of the later tests. */
  lemma RelabelFirstMatch(t: Cell)
    ensures Relabelled(Some(t.GetOr(Unspecified))) == Some(Category(t))
  {
    LabelsDoNotMatchLater();
    var s := t.GetOr(Unspecified);
    MatchesTwo(s, "Terreno", "Lote");
    MatchesOne(s, "Casa");
    MatchesOne(s, "Apartamento");
    MatchesOne("Terreno/Lote", "Casa");
    MatchesOne("Terreno/Lote", "Apartamento");
    MatchesOne("Casa", "Apartamento");
  }

  /** An offer without a type ends up "Não Especificado". */
  lemma MissingTypeUnspecified()
    ensures Category(None) == Unspecified
  {
    UnspecifiedNotLand();
    UnspecifiedNotHouse();
    UnspecifiedNotFlat();
  }

  // ---------------------------------------------------------------------
  // Preparing the offers

  /** A row of the consolidated spreadsheet, as far as the report reads it. */
  datatype Listing = Listing(preco: Cell, endereco: Cell, tipo: Cell)

  /** A row during preparation: the listing's cells and the derived
      `preco_num` and `bairro` columns. */
  datatype Offer = Offer(preco: Cell, endereco: Cell, tipo: Cell, price: Option<Decimal>, bairro: Cell)

  /** The rows satisfying `keep`, in order. */
  function Where(rows: seq<Offer>, keep: Offer -> bool): (r: seq<Offer>)
    ensures |r| <= |rows|
    ensures forall x :: x in r <==> x in rows && keep(x)
    decreases |rows|
  {
    if rows == [] then []
    else
      var rest := Where(rows[1..], keep);
      assert forall x :: x in rows <==> x == rows[0] || x in rows[1..];
      if keep(rows[0]) then [rows[0]] + rest else rest
  }

  /** `f` applied to every row. */
  function MapRows(rows: seq<Offer>, f: Offer -> Offer): (r: seq<Offer>)
    ensures |r| == |rows|
    ensures forall i :: 0 <= i < |rows| ==> r[i] == f(rows[i])
  {
    seq(|rows|, i requires 0 <= i < |rows| => f(rows[i]))
  }

  /** How a price cell is read into `preco_num`. The program reads it with
      `limpar_valor` (`LimparValor`); `CleanPrice` is the corrected reading. */
  type PriceReader = Cell -> Option<Decimal>

  function WithPrice(o: Offer, read: PriceReader): Offer { o.(price := read(o.preco)) }
  predicate Priced(o: Offer) { o.price.Some? }
  predicate AboveFloor(o: Offer) { o.price.Some? && Exceeds(o.price.value, PriceFloor) }
  function WithBairro(o: Offer): Offer { o.(bairro := BairroOf(o.endereco)) }
  function WithType(o: Offer): Offer { o.(tipo := Some(o.tipo.GetOr(Unspecified))) }

  /** The frame the report works on, changed in place step by step. */
  class Sheet {
    var rows: seq<Offer>

    /** The spreadsheet as loaded: the listings, no derived column yet. */
    constructor (listings: seq<Listing>)
      ensures |rows| == |listings|
      ensures forall i :: 0 <= i < |listings| ==>
        rows[i] == Offer(listings[i].preco, listings[i].endereco, listings[i].tipo, None, None)
    {
      rows := seq(|listings|, i requires 0 <= i < |listings| =>
        Offer(listings[i].preco, listings[i].endereco, listings[i].tipo, None, None));
    }

    /** Adds the `preco_num` column: every row's price text, read by `read`. */
    method AddPrices(read: PriceReader)
      modifies this
      ensures rows == MapRows(old(rows), (o: Offer) => WithPrice(o, read))
    {
      rows := MapRows(rows, (o: Offer) => WithPrice(o, read));
    }

    /** Removes the rows whose price could not be read, keeping the order. */
    method DropUnpriced()
      modifies this
      ensures rows == Where(old(rows), Priced)
    {
      rows := Where(rows, Priced);
    }

    /** Keeps only the rows priced strictly above the floor. */
    method KeepAboveFloor()
      modifies this
      ensures rows == Where(old(rows), AboveFloor)
    {
      rows := Where(rows, AboveFloor);
    }

    /** Adds the `bairro` column, derived from every row's address. */
    method AddBairros()
      modifies this
      ensures rows == MapRows(old(rows), WithBairro)
    {
      rows := MapRows(rows, WithBairro);
    }

    /** Gives every row without a type the type `Unspecified`. */
    method FillTypes()
      modifies this
      ensures rows == MapRows(old(rows), WithType)
    {
      rows := MapRows(rows, WithType);
    }

    /** One relabelling pass: a type containing one of `patterns`, in any
        case, becomes `tag`. */
    method RelabelTypes(patterns: seq<string>, tag: string)
      modifies this
      ensures rows == MapRows(old(rows), (o: Offer) => o.(tipo := Relabel(o.tipo, patterns, tag)))
    {
      rows := MapRows(rows, (o: Offer) => o.(tipo := Relabel(o.tipo, patterns, tag)));
    }
  }

  /** What an offer that stays in the report looks like at the end. */
  function Finished(l: Listing, read: PriceReader): Offer {
    Offer(l.preco, l.endereco, Some(Category(l.tipo)), read(l.preco), BairroOf(l.endereco))
  }

  /** The offers of the report, in the order of the spreadsheet: the
      listings whose price, read by `read`, is above the floor, finished. */
  function Offers(listings: seq<Listing>, read: PriceReader): (r: seq<Offer>)
    ensures |r| <= |listings|
    decreases |listings|
  {
    if listings == [] then []
    else
      var o := Finished(listings[0], read);
      (if AboveFloor(o) then [o] else []) + Offers(listings[1..], read)
  }

  /** Everything the preparation does to a row after the filters. */
  function Derive(o: Offer): Offer {
    var o' := WithType(WithBairro(o));
    o'.(tipo := Relabelled(o'.tipo))
  }

  /** Filtering twice by a stronger test is filtering once. */
  lemma {:induction false} WhereStronger(rows: seq<Offer>)
    ensures Where(Where(rows, Priced), AboveFloor) == Where(rows, AboveFloor)
    decreases |rows|
  {
    if rows != [] {
      WhereStronger(rows[1..]);
      if Priced(rows[0]) {
        assert ([rows[0]] + Where(rows[1..], Priced))[1..] == Where(rows[1..], Priced);
      }
    }
  }

  lemma MapRowsAppend(a: seq<Offer>, b: seq<Offer>, f: Offer -> Offer)
    ensures MapRows(a + b, f) == MapRows(a, f) + MapRows(b, f)
  {
    assert forall i :: 0 <= i < |a + b| ==> MapRows(a + b, f)[i] == (MapRows(a, f) + MapRows(b, f))[i];
  }

  /** Filtering rows aligned with the listings and then deriving the columns
      gives the finished rows that pass. */
  lemma {:induction false} FilterThenDerive(ls: seq<Listing>, ys: seq<Offer>, read: PriceReader)
    requires |ys| == |ls|
    requires forall i :: 0 <= i < |ls| ==>
      Derive(ys[i]) == Finished(ls[i], read) && (AboveFloor(ys[i]) <==> AboveFloor(Finished(ls[i], read)))
    ensures MapRows(Where(ys, AboveFloor), Derive) == Offers(ls, read)
    decreases |ls|
  {
    if ls != [] {
      var ls', ys' := ls[1..], ys[1..];
      assert forall i :: 0 <= i < |ls'| ==> ls'[i] == ls[i + 1] && ys'[i] == ys[i + 1];
      FilterThenDerive(ls', ys', read);
      var head := if AboveFloor(ys[0]) then [ys[0]] else [];
      assert Where(ys, AboveFloor) == head + Where(ys', AboveFloor);
      MapRowsAppend(head, Where(ys', AboveFloor), Derive);
      assert MapRows(head, Derive) == if AboveFloor(Finished(ls[0], read)) then [Finished(ls[0], read)] else [];
    }
  }

  /** The offers kept are exactly the listings whose price reads above the
      floor, each with its neighbourhood and category derived, whatever the
      price reader. */
  lemma {:induction false} OffersIff(listings: seq<Listing>, read: PriceReader, o: Offer)
    ensures o in Offers(listings, read) <==>
      exists l :: l in listings && AboveFloor(Finished(l, read)) && o == Finished(l, read)
    decreases |listings|
  {
    if listings != [] {
      OffersIff(listings[1..], read, o);
      assert forall l :: l in listings <==> l == listings[0] || l in listings[1..];
    }
  }

  /** Every offer of the report has a price above the floor, read by the
      reader from its own price text, a filled type and the neighbourhood of
      its address. */
  lemma OffersAboveFloor(listings: seq<Listing>, read: PriceReader)
    ensures forall o :: o in Offers(listings, read) ==>
      && o.price == read(o.preco) && o.price.Some? && Exceeds(o.price.value, PriceFloor)
      && o.tipo.Some? && o.bairro == BairroOf(o.endereco)
  {
    forall o | o in Offers(listings, read)
      ensures o.price == read(o.preco) && o.price.Some? && Exceeds(o.price.value, PriceFloor)
      ensures o.tipo.Some? && o.bairro == BairroOf(o.endereco)
    {
      OffersIff(listings, read, o);
    }
  }

  /** The offers of more listings are the offers of each part, in order. */
  lemma {:induction false} OffersAppend(a: seq<Listing>, b: seq<Listing>, read: PriceReader)
    ensures Offers(a + b, read) == Offers(a, read) + Offers(b, read)
    decreases |a|
  {
    if a == [] {
      assert a + b == b;
    } else {
      assert (a + b)[0] == a[0] && (a + b)[1..] == a[1..] + b;
      OffersAppend(a[1..], b, read);
      var o := Finished(a[0], read);
      var head: seq<Offer> := if AboveFloor(o) then [o] else [];
      assert Offers(a + b, read) == head + (Offers(a[1..], read) + Offers(b, read));
      assert Offers(a, read) == head + Offers(a[1..], read);
    }
  }

  /** As written, a listing priced like "R$ 350.000" never reaches the
      report: appending it changes no offer. */
  lemma ThousandsListingDropped(listings: seq<Listing>, l: Listing, lead: string, a: string, b: string)
    requires forall i :: 0 <= i < |lead| ==> !PriceChar(lead[i])
    requires AllDigits(a) && AllDigits(b) && a != [] && |a| <= 3 && |b| == 3
    requires l.preco == Some(lead + (a + "." + b))
    ensures Offers(listings + [l], LimparValor) == Offers(listings, LimparValor)
  {
    ThousandsPriceFallsUnderFloor(lead, a, b);
    OffersAppend(listings, [l], LimparValor);
    assert Offers([l], LimparValor) == [];
  }

  /** As written, a listing priced in the millions with thousands dots, like
      "R$ 1.500.000", never reaches the report either. */
  lemma MillionsListingDropped(listings: seq<Listing>, l: Listing, lead: string, a: string, b: string, d: string)
    requires forall i :: 0 <= i < |lead| ==> !PriceChar(lead[i])
    requires AllDigits(a) && AllDigits(b) && AllDigits(d)
    requires l.preco == Some(lead + (a + "." + b + "." + d))
    ensures Offers(listings + [l], LimparValor) == Offers(listings, LimparValor)
  {
    MillionsRejected(lead, a, b, d);
    OffersAppend(listings, [l], LimparValor);
    assert Offers([l], LimparValor) == [];
  }

  /** With the corrected reading, a listing priced like "R$ 350.000" above
      the floor is kept, priced in thousands. */
  lemma ThousandsListingKept(listings: seq<Listing>, l: Listing, lead: string, a: string, b: string)
    requires forall i :: 0 <= i < |lead| ==> !PriceChar(lead[i])
    requires AllDigits(a) && AllDigits(b) && a != [] && |b| == 3
    requires Digits(a) * 1000 + Digits(b) > PriceFloor
    requires l.preco == Some(lead + (a + "." + b))
    ensures Offers(listings + [l], CleanPrice) == Offers(listings, CleanPrice) + [Finished(l, CleanPrice)]
    ensures AllDigits(a + b) && Finished(l, CleanPrice).price == Some(Decimal(Digits(a + b), 0))
  {
    ThousandsDotRead(lead, a, b);
    DigitsAppend(a, b);
    assert Pow10(|b|) == 1000;
    OffersAppend(listings, [l], CleanPrice);
    assert Offers([l], CleanPrice) == [Finished(l, CleanPrice)];
  }

  /** The preparation, with prices read by `read`: prices read, unpriced and
      cheap offers dropped, neighbourhood derived, types filled and
      relabelled. The program is `Prepare(listings, LimparValor)`. */
  method Prepare(listings: seq<Listing>, read: PriceReader) returns (offers: seq<Offer>)
    ensures offers == Offers(listings, read)
  {
    var sheet := new Sheet(listings);
    sheet.AddPrices(read);
    ghost var priced := sheet.rows;
    sheet.DropUnpriced();
    sheet.KeepAboveFloor();
    WhereStronger(priced);
    ghost var kept := sheet.rows;
    sheet.AddBairros();
    sheet.FillTypes();
    sheet.RelabelTypes(["Terreno", "Lote"], "Terreno/Lote");
    sheet.RelabelTypes(["Casa"], "Casa");
    sheet.RelabelTypes(["Apartamento"], "Apartamento");
    offers := sheet.rows;
    assert offers == MapRows(kept, Derive);
    forall i | 0 <= i < |listings|
      ensures Derive(priced[i]) == Finished(listings[i], read)
      ensures AboveFloor(priced[i]) <==> AboveFloor(Finished(listings[i], read))
    {
      RelabelFirstMatch(listings[i].tipo);
    }
    FilterThenDerive(listings, priced, read);
  }

  // ---------------------------------------------------------------------
  // Neighbourhood ranking

  /** How many offers lie in neighbourhood `b`. */
  function CountIn(offers: seq<Offer>, b: string): (n: nat)
    ensures n == 0 <==> forall i :: 0 <= i < |offers| ==> offers[i].bairro != Some(b)
    ensures n <= |offers|
    decreases |offers|
  {
    if offers == [] then 0
    else
      var rest := CountIn(offers[1..], b);
      assert forall i :: 1 <= i < |offers| ==> offers[i] == offers[1..][i - 1];
      (if offers[0].bairro == Some(b) then 1 else 0) + rest
  }

  /** `groupby('bairro')[...].count()`: one group per neighbourhood present,
      offers without a neighbourhood dropped. */
  function Groups(offers: seq<Offer>): (m: map<string, nat>)
    ensures forall b :: b in m <==> exists i :: 0 <= i < |offers| && offers[i].bairro == Some(b)
    ensures forall b :: b in m ==> m[b] == CountIn(offers, b) && m[b] > 0
    decreases |offers|
  {
    if offers == [] then map[]
    else
      var m := Groups(offers[1..]);
      assert forall i :: 1 <= i < |offers| ==> offers[i] == offers[1..][i - 1];
      match offers[0].bairro
      case None => m
      case Some(b) => m[b := 1 + (if b in m then m[b] else 0)]
  }

  /** How many neighbourhoods the table keeps. */
  const TopLimit: nat := 10

  function Min(a: nat, b: nat): nat {
    if a <= b then a else b
  }

  /** Neighbourhood `b` is on the table. */
  predicate Listed(top: seq<(string, nat)>, b: string) {
    exists j :: 0 <= j < |top| && top[j].0 == b
  }

  /** `sort_values(by='count', ascending=False).head(10)`: as many rows as
      there are groups, up to ten, each a group with its count, no group
      twice, counts not increasing, and no group left out with more offers
      than one kept. Offers tied on count may come in any order. */
  ghost predicate RankedTop(top: seq<(string, nat)>, groups: map<string, nat>) {
    && |top| == Min(TopLimit, |groups|)
    && (forall k :: 0 <= k < |top| ==> top[k].0 in groups && top[k].1 == groups[top[k].0])
    && (forall j, k :: 0 <= j < k < |top| ==> top[j].0 != top[k].0 && top[j].1 >= top[k].1)
    && (forall b, k :: b in groups && !Listed(top, b) && 0 <= k < |top| ==> groups[b] <= top[k].1)
  }

  /** A neighbourhood of `among` with the most offers. */
  method MostOffers(groups: map<string, nat>, among: set<string>) returns (b: string)
    requires among != {} && among <= groups.Keys
    ensures b in among && forall x :: x in among ==> groups[x] <= groups[b]
  {
    b :| b in among;
    var todo := among - {b};
    while todo != {}
      invariant todo <= among && b in among
      invariant forall x :: x in among && x !in todo ==> groups[x] <= groups[b]
      decreases |todo|
    {
      var x :| x in todo;
      if groups[x] > groups[b] {
        b := x;
      }
      todo := todo - {x};
    }
  }

  /** The neighbourhood table of the report. */
  method TopBairros(offers: seq<Offer>) returns (top: seq<(string, nat)>)
    ensures RankedTop(top, Groups(offers))
  {
    top := Rank(Groups(offers));
  }

  /** Repeatedly take a most frequent group not yet taken, up to ten. */
  method Rank(groups: map<string, nat>) returns (top: seq<(string, nat)>)
    ensures RankedTop(top, groups)
  {
    var rest := groups.Keys;
    top := [];
    while |top| < TopLimit && rest != {}
      invariant RankingSoFar(groups, top, rest)
      decreases |rest|
    {
      var b := MostOffers(groups, rest);
      RankStep(groups, top, rest, b);
      top := top + [(b, groups[b])];
      rest := rest - {b};
    }
    RankDone(groups, top, rest);
  }

  /** The ranking loop's invariant: `rest` holds the groups not yet taken,
      and what was taken is ranked and beats everything left. */
  ghost predicate RankingSoFar(groups: map<string, nat>, top: seq<(string, nat)>, rest: set<string>) {
    && rest <= groups.Keys
    && (forall b :: b in groups ==> (b in rest <==> !Listed(top, b)))
    && |rest| + |top| == |groups|
    && |top| <= TopLimit
    && (forall k :: 0 <= k < |top| ==> top[k].0 in groups && top[k].1 == groups[top[k].0])
    && (forall j, k :: 0 <= j < k < |top| ==> top[j].0 != top[k].0 && top[j].1 >= top[k].1)
    && (forall b, k :: b in rest && 0 <= k < |top| ==> groups[b] <= top[k].1)
  }

  lemma RankStep(groups: map<string, nat>, top: seq<(string, nat)>, rest: set<string>, b: string)
    requires RankingSoFar(groups, top, rest) && |top| < TopLimit
    requires b in rest && forall x :: x in rest ==> groups[x] <= groups[b]
    ensures RankingSoFar(groups, top + [(b, groups[b])], rest - {b})
  {
    ListedPush(top, b, groups[b]);
    StepKeepsOrder(groups, top, rest, b);
  }

  lemma StepKeepsOrder(groups: map<string, nat>, top: seq<(string, nat)>, rest: set<string>, b: string)
    requires rest <= groups.Keys && (forall x :: x in groups ==> (x in rest <==> !Listed(top, x)))
    requires forall k :: 0 <= k < |top| ==> top[k].0 in groups && top[k].1 == groups[top[k].0]
    requires forall j, k :: 0 <= j < k < |top| ==> top[j].0 != top[k].0 && top[j].1 >= top[k].1
    requires forall x, k :: x in rest && 0 <= k < |top| ==> groups[x] <= top[k].1
    requires b in rest && forall x :: x in rest ==> groups[x] <= groups[b]
    ensures var top' := top + [(b, groups[b])];
      && (forall k :: 0 <= k < |top'| ==> top'[k].0 in groups && top'[k].1 == groups[top'[k].0])
      && (forall j, k :: 0 <= j < k < |top'| ==> top'[j].0 != top'[k].0 && top'[j].1 >= top'[k].1)
      && (forall x, k :: x in rest - {b} && 0 <= k < |top'| ==> groups[x] <= top'[k].1)
  {
    var top' := top + [(b, groups[b])];
    assert forall k :: 0 <= k < |top| ==> top'[k] == top[k];
    assert top'[|top|] == (b, groups[b]);
    forall j | 0 <= j < |top| ensures top[j].0 != b {
      assert Listed(top, top[j].0);
    }
  }

  lemma RankDone(groups: map<string, nat>, top: seq<(string, nat)>, rest: set<string>)
    requires RankingSoFar(groups, top, rest) && !(|top| < TopLimit && rest != {})
    ensures RankedTop(top, groups)
  {
  }

  lemma ListedPush(top: seq<(string, nat)>, b: string, n: nat)
    ensures forall x :: Listed(top + [(b, n)], x) <==> Listed(top, x) || x == b
  {
    var top' := top + [(b, n)];
    forall x | Listed(top', x) ensures Listed(top, x) || x == b {
      var j :| 0 <= j < |top'| && top'[j].0 == x;
      if j < |top| {
        assert top[j].0 == x;
      }
    }
    forall x | Listed(top, x) ensures Listed(top', x) {
      var j :| 0 <= j < |top| && top[j].0 == x;
      assert top'[j].0 == x;
    }
    assert top'[|top|].0 == b;
  }
}
