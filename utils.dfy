/** Business validators and error formatting of the shared utilities:
    the Ecuadorian national-ID (cedula) check and format_error_response. */
module Utils {
  import opened Digits
  import opened Values

  // ------------------------------------------------------------- separators

  /** s.replace(c, ''). */
  function RemoveChar(s: string, c: char): string {
    if s == [] then []
    else (if s[0] == c then [] else [s[0]]) + RemoveChar(s[1..], c)
  }

  /** Every occurrence goes, nothing is added, and a string without the
      character is left as it is. */
  lemma {:induction false} RemoveCharRemoves(s: string, c: char)
    ensures c !in RemoveChar(s, c) && |RemoveChar(s, c)| <= |s|
    ensures c !in s ==> RemoveChar(s, c) == s
  {
    if s != [] {
      if c !in s {
        assert c !in s[1..];
      }
      RemoveCharRemoves(s[1..], c);
    }
  }

  lemma {:induction false} RemoveCharAppend(a: string, b: string, c: char)
    ensures RemoveChar(a + b, c) == RemoveChar(a, c) + RemoveChar(b, c)
  {
    if a == [] {
      assert a + b == b;
    } else {
      assert (a + b)[1..] == a[1..] + b;
      RemoveCharAppend(a[1..], b, c);
    }
  }

  /** Removing one character never brings in another. */
  lemma {:induction false} RemoveCharKeepsAbsent(s: string, c: char, d: char)
    requires d !in s
    ensures d !in RemoveChar(s, c)
  {
    if s != [] {
      assert d !in s[1..];
      RemoveCharKeepsAbsent(s[1..], c, d);
    }
  }

  /** cedula.replace('-', '').replace(' ', ''). */
  function StripSeparators(s: string): (r: string)
    ensures '-' !in r && ' ' !in r
  {
    var t := RemoveChar(s, '-');
    RemoveCharRemoves(s, '-');
    RemoveCharRemoves(t, ' ');
    RemoveCharKeepsAbsent(t, ' ', '-');
    RemoveChar(t, ' ')
  }

  lemma StripSeparatorsAppend(a: string, b: string)
    ensures StripSeparators(a + b) == StripSeparators(a) + StripSeparators(b)
  {
    RemoveCharAppend(a, b, '-');
    RemoveCharAppend(RemoveChar(a, '-'), RemoveChar(b, '-'), ' ');
  }

  /** Inserting a '-' or a ' ' anywhere leaves the stripped text unchanged. */
  lemma StripSeparatorsInsert(s: string, k: nat, c: char)
    requires k <= |s| && (c == '-' || c == ' ')
    ensures StripSeparators(s[..k] + [c] + s[k..]) == StripSeparators(s)
  {
    var a, b := s[..k], s[k..];
    assert s == a + b;
    StripSeparatorsAppend(a + [c], b);
    StripSeparatorsAppend(a, [c]);
    StripSeparatorsAppend(a, b);
    StripSeparatorsOfSeparator(c);
  }

  lemma StripSeparatorsOfSeparator(c: char)
    requires c == '-' || c == ' '
    ensures StripSeparators([c]) == []
  {
    assert [c][1..] == [];
    assert RemoveChar([c], '-') == (if c == '-' then [] else [c]);
    assert RemoveChar([c], ' ') == (if c == ' ' then [] else [c]);
  }

  /** A string of digits has no separators to strip. */
  lemma StripSeparatorsOfDigits(s: string)
    requires AllDigits(s)
    ensures StripSeparators(s) == s
  {
    assert '-' !in s;
    assert ' ' !in s;
    RemoveCharRemoves(s, '-');
    RemoveCharRemoves(s, ' ');
  }

  // ------------------------------------------------------------ check digit

  /** A digit at an even index, doubled, with 9 taken off a two-digit product. */
  function Doubled(d: nat): (r: nat)
    requires d <= 9
    ensures r <= 9
  {
    if d * 2 > 9 then d * 2 - 9 else d * 2
  }

  /** Ten decimal digits, as the list of their values. */
  predicate TenDigits(digitos: seq<nat>) {
    |digitos| == 10 && forall k | 0 <= k < 10 :: digitos[k] <= 9
  }

  /** [int(d) for d in cedula]. */
  function Digitos(s: string): (d: seq<nat>)
    requires |s| == 10 && AllDigits(s)
    ensures TenDigits(d) && forall k | 0 <= k < 10 :: d[k] == DigitValue(s[k])
  {
    seq(10, k requires 0 <= k < 10 => DigitValue(s[k]))
  }

  /** The doubled digits at the even indices below k, as the loop adds them up. */
  function DoubledSum(digitos: seq<nat>, k: nat): nat
    requires TenDigits(digitos) && k <= 10 && k % 2 == 0
  {
    if k == 0 then 0 else DoubledSum(digitos, k - 2) + Doubled(digitos[k - 2])
  }

  lemma DoubledSumTen(digitos: seq<nat>)
    requires TenDigits(digitos)
    ensures DoubledSum(digitos, 10) == Doubled(digitos[0]) + Doubled(digitos[2])
      + Doubled(digitos[4]) + Doubled(digitos[6]) + Doubled(digitos[8])
  {
    assert DoubledSum(digitos, 2) == Doubled(digitos[0]);
    assert DoubledSum(digitos, 4) == DoubledSum(digitos, 2) + Doubled(digitos[2]);
    assert DoubledSum(digitos, 6) == DoubledSum(digitos, 4) + Doubled(digitos[4]);
    assert DoubledSum(digitos, 8) == DoubledSum(digitos, 6) + Doubled(digitos[6]);
  }

  /** The weighted total of the first nine digits: the digits at indices 1, 3,
      5 and 7 as they are, those at 0, 2, 4, 6 and 8 doubled. */
  function CheckTotal(digitos: seq<nat>): nat
    requires TenDigits(digitos)
  {
    digitos[1] + digitos[3] + digitos[5] + digitos[7]
    + Doubled(digitos[0]) + Doubled(digitos[2]) + Doubled(digitos[4])
    + Doubled(digitos[6]) + Doubled(digitos[8])
  }

  /** 10 - total % 10, with 10 read as 0: the digit that brings the total to a
      multiple of ten. */
  function Verificador(total: nat): (v: nat)
    ensures v <= 9
    ensures (total + v) % 10 == 0
  {
    if 10 - total % 10 == 10 then 0 else 10 - total % 10
  }

  /** The weight of digit v at index k in the total: doubled at even indices. */
  function Weight(k: nat, v: nat): nat
    requires v <= 9
  {
    if k % 2 == 0 then Doubled(v) else v
  }

  lemma WeightChange(k: nat, u: nat, v: nat)
    requires u <= 9 && v <= 9 && u != v
    ensures Weight(k, u) != Weight(k, v) && Weight(k, u) < Weight(k, v) + 10 && Weight(k, v) < Weight(k, u) + 10
  {
  }

  /** What es_cedula_ecuatoriana_valida accepts. */
  predicate IsValidCedula(cedula: string) {
    var s := StripSeparators(cedula);
    && |s| == 10 && AllDigits(s)
    && 1 <= NumberValue(s[..2]) <= 24
    && Digitos(s)[2] <= 6
    && Verificador(CheckTotal(Digitos(s))) == Digitos(s)[9]
  }

  /** The loop over the even indices 0, 2, 4, 6, 8: each digit doubled, 9
      taken off a product above 9, all added up. */
  method SumaImpares(digitos: seq<nat>) returns (impares: nat)
    requires TenDigits(digitos)
    ensures impares == Doubled(digitos[0]) + Doubled(digitos[2]) + Doubled(digitos[4])
                       + Doubled(digitos[6]) + Doubled(digitos[8])
  {
    impares := 0;
    var i := 0;
    while i < 9
      invariant 0 <= i <= 10 && i % 2 == 0
      invariant impares == DoubledSum(digitos, i)
    {
      var producto := digitos[i] * 2;
      if producto > 9 {
        producto := producto - 9;
      }
      impares := impares + producto;
      i := i + 2;
    }
    DoubledSumTen(digitos);
  }

  /** es_cedula_ecuatoriana_valida: strip separators; exactly ten digits;
      province (first two digits) in 1..24; third digit at most 6; check digit. */
  method EsCedulaEcuatorianaValida(cedula: string) returns (valida: bool)
    ensures valida == IsValidCedula(cedula)
    ensures valida ==> |StripSeparators(cedula)| == 10 && AllDigits(StripSeparators(cedula))
  {
    var s := StripSeparators(cedula);
    if |s| != 10 || !AllDigits(s) {
      return false;
    }
    var digitos := Digitos(s);
    var provincia := NumberValue(s[..2]);
    if provincia < 1 || provincia > 24 {
      return false;
    }
    var ultimo := digitos[9];
    if digitos[2] > 6 {
      return false;
    }
    var pares := digitos[1] + digitos[3] + digitos[5] + digitos[7];
    var impares := SumaImpares(digitos);
    var total := pares + impares;
    var verificador := 10 - total % 10;
    if verificador == 10 {
      verificador := 0;
    }
    valida := verificador == ultimo;
  }

  /** Separators are ignored: inserting '-' or ' ' never changes the verdict. */
  lemma CedulaIgnoresSeparators(cedula: string, k: nat, c: char)
    requires k <= |cedula| && (c == '-' || c == ' ')
    ensures IsValidCedula(cedula[..k] + [c] + cedula[k..]) == IsValidCedula(cedula)
  {
    StripSeparatorsInsert(cedula, k, c);
  }

  /** A valid cedula's ten digits have a weighted total, check digit
      included, that is a multiple of ten. */
  lemma CedulaTotalIsMultipleOfTen(cedula: string)
    requires IsValidCedula(cedula)
    ensures var d := Digitos(StripSeparators(cedula)); (CheckTotal(d) + d[9]) % 10 == 0
  {
  }

  /** Two totals that differ by 1..9 cannot share a check digit. */
  lemma VerificadorSeparates(x: nat, y: nat)
    requires x != y && y < x + 10 && x < y + 10
    ensures Verificador(x) != Verificador(y)
  {
  }

  /** Replacing one of the first nine digits moves the weighted total by 1..9. */
  lemma CheckTotalChange(d: seq<nat>, i: nat, b: nat)
    requires TenDigits(d) && i < 9 && b <= 9 && b != d[i]
    ensures TenDigits(d[i := b])
    ensures var x, y := CheckTotal(d), CheckTotal(d[i := b]);
      x != y && y < x + 10 && x < y + 10
  {
    var e := d[i := b];
    assert TenDigits(e);
    var w, v := Weight(i, d[i]), Weight(i, b);
    WeightChange(i, d[i], b);
    assert CheckTotal(e) + w == CheckTotal(d) + v by {
      assert forall k | 0 <= k < 10 && k != i :: e[k] == d[k];
      if i == 0 {} else if i == 1 {} else if i == 2 {} else if i == 3 {}
      else if i == 4 {} else if i == 5 {} else if i == 6 {} else if i == 7 {}
    }
  }

  /** A single mistyped digit among the first nine is always caught. */
  lemma CedulaDetectsSingleDigitError(s: string, i: nat, c: char)
    requires |s| == 10 && AllDigits(s) && IsValidCedula(s)
    requires i < 9 && IsDigit(c) && c != s[i]
    ensures !IsValidCedula(s[i := c])
  {
    var t := s[i := c];
    assert AllDigits(t);
    var b := DigitValue(c);
    if b == DigitValue(s[i]) {
      DigitCharOfValue(s[i]);
      DigitCharOfValue(c);
    }
    assert Digitos(t) == Digitos(s)[i := b];
    CheckTotalChange(Digitos(s), i, b);
    StripSeparatorsOfDigits(s);
    StripSeparatorsOfDigits(t);
    VerificadorSeparates(CheckTotal(Digitos(s)), CheckTotal(Digitos(t)));
  }

  /** On ten plain digits the verdict is the province, third-digit and
      check-digit tests alone. */
  lemma IsValidCedulaOfDigits(s: string)
    requires |s| == 10 && AllDigits(s)
    ensures IsValidCedula(s) <==>
      && 1 <= 10 * DigitValue(s[0]) + DigitValue(s[1]) <= 24
      && DigitValue(s[2]) <= 6
      && Verificador(CheckTotal(Digitos(s))) == DigitValue(s[9])
  {
    StripSeparatorsOfDigits(s);
    TwoDigitValue(s[..2]);
  }

  /** 1710034065 passes every step: province 17, third digit 1, weighted
      total 25, check digit 5. */
  lemma CedulaExampleValid(s: string)
    requires s == "1710034065"
    ensures IsValidCedula(s)
  {
    assert AllDigits(s);
    IsValidCedulaOfDigits(s);
    assert CheckTotal(Digitos(s)) == 25;
  }

  /** 1710034064 has the same weighted total but the wrong check digit. */
  lemma CedulaExampleWrongCheckDigit(s: string)
    requires s == "1710034064"
    ensures !IsValidCedula(s)
  {
    assert AllDigits(s);
    IsValidCedulaOfDigits(s);
    assert CheckTotal(Digitos(s)) == 25;
  }

  /** The valid example written with a dash before the check digit. */
  lemma CedulaExampleWithDash(s: string)
    requires s == "171003406-5"
    ensures IsValidCedula(s)
  {
    var plain := s[..9] + s[10..];
    assert plain == "1710034065";
    CedulaExampleValid(plain);
    assert s == plain[..9] + ['-'] + plain[9..];
    StripSeparatorsInsert(plain, 9, '-');
  }

  // ---------------------------------------------------------- error response

  /** The errors entry of format_error_response: a string becomes
      {'error': [s]}, a list {'error': list}, anything else is kept. */
  function NormalizeErrors(errors: Value): Value {
    match errors
    case Str(s) => Dict(map["error" := List([Str(s)])])
    case List(items) => Dict(map["error" := List(items)])
    case _ => errors
  }

  /** format_error_response: ({'errors': normalised errors}, status code). */
  function FormatErrorResponse(errors: Value, statusCode: int := 400): (Value, int) {
    (Dict(map["errors" := NormalizeErrors(errors)]), statusCode)
  }

  /** The response body is a dict whose one key, 'errors', holds the
      normalised errors; a string or a list ends up as the list under 'error'
      with nothing lost; other values are passed through; the status code is
      400 unless given. */
  lemma FormatErrorResponseShape(errors: Value, code: int)
    ensures var (body, status) := FormatErrorResponse(errors);
      status == 400 && body.Dict? && body.entries.Keys == {"errors"}
    ensures FormatErrorResponse(errors, code).0 == Dict(map["errors" := NormalizeErrors(errors)])
    ensures FormatErrorResponse(errors, code).1 == code
    ensures errors.Str? ==> NormalizeErrors(errors) == Dict(map["error" := List([errors])])
    ensures errors.List? ==> NormalizeErrors(errors) == Dict(map["error" := errors])
    ensures !errors.Str? && !errors.List? ==> NormalizeErrors(errors) == errors
  {
  }

  /** Normalising an already normalised payload changes nothing. */
  lemma NormalizeErrorsIdempotent(errors: Value)
    ensures NormalizeErrors(NormalizeErrors(errors)) == NormalizeErrors(errors)
  {
  }
}
