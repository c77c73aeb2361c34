/** Input validators and the file-name sanitiser of the security utilities:
    validate_input_length, validate_date_format, generate_safe_filename and
    is_valid_id. */
module Security {
  import opened Wrappers
  import opened Digits
  import opened Calendar
  import opened Values

  // ---------------------------------------------------------------- lengths

  /** validate_input_length: a string whose length lies in [minLength, maxLength];
      anything that is not a string is refused. */
  predicate ValidateInputLength(input: Value, minLength: int := 1, maxLength: int := 255) {
    if !input.Str? then false
    else minLength <= |input.s| <= maxLength
  }

  /** With the default bounds: a non-empty string of at most 255 characters. */
  lemma ValidateInputLengthDefaults(input: Value, lo: int, hi: int)
    ensures ValidateInputLength(input) <==> input.Str? && input.s != [] && |input.s| <= 255
    ensures !input.Str? ==> !ValidateInputLength(input, lo, hi)
  {
  }

  /** Widening the bounds never refuses a string that was accepted. */
  lemma ValidateInputLengthWiden(input: Value, lo: int, hi: int, lo': int, hi': int)
    requires ValidateInputLength(input, lo, hi)
    requires lo' <= lo && hi <= hi'
    ensures ValidateInputLength(input, lo', hi')
  {
  }

  // ------------------------------------------------------------ date format

  /** `\d{4}-\d{2}-\d{2}` over exactly ten characters. */
  predicate DateShape(s: string) {
    |s| == 10 && AllDigits(s[..4]) && s[4] == '-' && AllDigits(s[5..7]) && s[7] == '-' && AllDigits(s[8..])
  }

  /** re.match(r'^\d{4}-\d{2}-\d{2}$', s): `$` also matches in front of one
      final newline. */
  predicate DatePatternMatches(s: string) {
    DateShape(s) || (|s| == 11 && DateShape(s[..10]) && s[10] == '\n')
  }

  /** validate_date_format: a string, the pattern, then strptime(s, '%Y-%m-%d'). */
  predicate ValidateDateFormat(v: Value) {
    && v.Str?
    && DatePatternMatches(v.s)
    && StrptimeYmd(v.s).Some?
  }

  /** The three numeric fields of a string of the right shape. */
  function ShapeDate(s: string): CivilDate
    requires DateShape(s)
  {
    CivilDate(NumberValue(s[..4]), NumberValue(s[5..7]), NumberValue(s[8..]))
  }

  lemma Pad2OfDigits(t: string)
    requires |t| == 2 && AllDigits(t)
    ensures NumberValue(t) < 100 && Pad2(NumberValue(t)) == t
  {
    TwoDigitValue(t);
    var a, b := DigitValue(t[0]), DigitValue(t[1]);
    var n := NumberValue(t);
    assert n / 10 == a && n % 10 == b;
    DigitCharOfValue(t[0]);
    DigitCharOfValue(t[1]);
  }

  lemma Pad4OfDigits(t: string)
    requires |t| == 4 && AllDigits(t)
    ensures NumberValue(t) < 10000 && Pad4(NumberValue(t)) == t
  {
    FourDigitValue(t);
    var a, b, c, d := DigitValue(t[0]), DigitValue(t[1]), DigitValue(t[2]), DigitValue(t[3]);
    var n := NumberValue(t);
    assert n / 10 == 100 * a + 10 * b + c && n % 10 == d;
    assert n / 10 / 10 == 10 * a + b && n / 10 % 10 == c;
    assert n / 10 / 10 / 10 == a && n / 10 / 10 % 10 == b;
    DigitCharOfValue(t[0]);
    DigitCharOfValue(t[1]);
    DigitCharOfValue(t[2]);
    DigitCharOfValue(t[3]);
  }

  /** A string of the right shape is the padded rendering of its own fields. */
  lemma ShapeIsFormat(s: string)
    requires DateShape(s)
    ensures var d := ShapeDate(s);
      0 <= d.year < 10000 && 0 <= d.month < 100 && 0 <= d.day < 100 && s == FormatIsoDate(d)
  {
    Pad4OfDigits(s[..4]);
    Pad2OfDigits(s[5..7]);
    Pad2OfDigits(s[8..]);
    assert s == s[..4] + "-" + s[5..7] + "-" + s[8..];
  }

  /** The trailing newline the pattern lets through is refused by strptime. */
  lemma StrptimeRefusesNewline(s: string)
    requires |s| == 11 && DateShape(s[..10]) && s[10] == '\n'
    ensures StrptimeYmd(s).None?
  {
    var rest := s[5..];
    assert s[..10][5..7] == rest[..2];
    assert rest[2] == '-';
    assert IsDigit(s[..10][6]);
    assert |rest[3..]| == 3;
  }

  /** Accepted strings are exactly ten characters, 4-2-2 digits, naming a real
      calendar date: year at least 1, month 1..12, day within the month. */
  lemma {:induction false} ValidateDateFormatMeaning(v: Value)
    ensures ValidateDateFormat(v) <==> v.Str? && DateShape(v.s) && IsValidDate(ShapeDate(v.s))
    ensures ValidateDateFormat(v) ==> |v.s| == 10
  {
    if v.Str? {
      var s := v.s;
      if DateShape(s) {
        var d := ShapeDate(s);
        ShapeIsFormat(s);
        StrptimeOfFormat(d);
      } else if DatePatternMatches(s) {
        StrptimeRefusesNewline(s);
      }
    }
  }

  /** The zero-padded rendering of a date is accepted iff the date exists. */
  lemma ValidateDateFormatOfFormat(d: CivilDate)
    requires 0 <= d.year < 10000 && 0 <= d.month < 100 && 0 <= d.day < 100
    ensures ValidateDateFormat(Str(FormatIsoDate(d))) <==> IsValidDate(d)
  {
    StrptimeOfFormat(d);
  }

  /** 29 February is accepted exactly in leap years. */
  lemma ValidateDateFormatLeapDay(year: int)
    requires 1 <= year <= 9999
    ensures ValidateDateFormat(Str(FormatIsoDate(CivilDate(year, 2, 29)))) <==> IsLeapYear(year)
  {
    ValidateDateFormatOfFormat(CivilDate(year, 2, 29));
  }

  // ---------------------------------------------------------- safe filename

  /** The class `[a-zA-Z0-9._-]`. */
  predicate IsSafeChar(c: char) {
    ('a' <= c <= 'z') || ('A' <= c <= 'Z') || ('0' <= c <= '9') || c == '.' || c == '_' || c == '-'
  }

  predicate AllSafe(s: string) {
    forall i | 0 <= i < |s| :: IsSafeChar(s[i])
  }

  /** re.sub(r'[^a-zA-Z0-9._-]', '_', s). */
  function Substitute(s: string): string {
    seq(|s|, i requires 0 <= i < |s| => if IsSafeChar(s[i]) then s[i] else '_')
  }

  /** s.split('.')[-1]: the text after the last '.', or all of s when it has none. */
  function LastSegment(s: string): (seg: string)
    ensures '.' !in seg
    ensures |seg| <= |s| && seg == s[|s| - |seg|..]
    ensures |seg| < |s| ==> s[|s| - |seg| - 1] == '.'
    ensures '.' !in s ==> seg == s
  {
    if s == [] then []
    else if s[|s| - 1] == '.' then []
    else
      var prefix := LastSegment(s[..|s| - 1]);
      assert s[..|s| - 1] + [s[|s| - 1]] == s;
      prefix + [s[|s| - 1]]
  }

  /** The extension generate_safe_filename keeps: empty when there is no '.'. */
  function Extension(s: string): string {
    if '.' in s then LastSegment(s) else ""
  }

  /** generate_safe_filename: substitute, then cut names over 100 characters
      to their first 95, a '.', and the extension. */
  function GenerateSafeFilename(filename: string): string {
    var safe := Substitute(filename);
    if |safe| > 100 then safe[..95] + "." + Extension(safe) else safe
  }

  lemma SubstituteSafe(s: string)
    ensures |Substitute(s)| == |s| && AllSafe(Substitute(s))
    ensures AllSafe(s) ==> Substitute(s) == s
  {
  }

  /** The last segment of a + "." + b, where b has no '.', is b. */
  lemma {:induction false} LastSegmentAfterDot(a: string, b: string)
    requires '.' !in b
    ensures LastSegment(a + "." + b) == b
  {
    var s := a + "." + b;
    if b != [] {
      assert s[..|s| - 1] == a + "." + b[..|b| - 1];
      assert b[|b| - 1] in b;
      LastSegmentAfterDot(a, b[..|b| - 1]);
      assert b[..|b| - 1] + [b[|b| - 1]] == b;
    }
  }

  /** Every character of the result is in `[A-Za-z0-9._-]`. */
  lemma SafeFilenameAllSafe(filename: string)
    ensures AllSafe(GenerateSafeFilename(filename))
  {
    var safe := Substitute(filename);
    SubstituteSafe(filename);
    if |safe| > 100 && '.' in safe {
      var ext := LastSegment(safe);
      assert forall i | 0 <= i < |ext| :: ext[i] == safe[|safe| - |ext| + i];
    }
  }

  /** Up to 100 characters, the result has the input's length and differs from
      it only by '_' where the input's character is not allowed. */
  lemma SafeFilenameShort(filename: string)
    requires |filename| <= 100
    ensures |GenerateSafeFilename(filename)| == |filename|
    ensures forall i | 0 <= i < |filename| ::
      GenerateSafeFilename(filename)[i] == if IsSafeChar(filename[i]) then filename[i] else '_'
    ensures AllSafe(filename) ==> GenerateSafeFilename(filename) == filename
  {
  }

  /** Over 100 characters, the result is the first 95 substituted characters,
      '.', and the text after the last '.' (nothing when there is none), so
      its length is 96 plus the extension's. */
  lemma SafeFilenameLong(filename: string)
    requires |filename| > 100
    ensures var safe := Substitute(filename);
      && GenerateSafeFilename(filename)[..95] == safe[..95]
      && GenerateSafeFilename(filename)[95] == '.'
      && |GenerateSafeFilename(filename)| == 96 + |Extension(safe)|
      && ('.' !in safe ==> |GenerateSafeFilename(filename)| == 96)
      && ('.' in safe ==> '.' !in Extension(safe) && safe[|safe| - |Extension(safe)| - 1] == '.')
  {
  }

  /** The 100-character limit is not a bound: a long extension is kept whole. */
  lemma SafeFilenameNotBounded()
    ensures var name := seq(95, _ => 'a') + "." + seq(10, _ => 'b');
      |GenerateSafeFilename(name)| == 106
  {
    var name := seq(95, _ => 'a') + "." + seq(10, _ => 'b');
    assert AllSafe(name);
    SubstituteSafe(name);
    assert name[95] == '.';
    LastSegmentAfterDot(seq(95, _ => 'a'), seq(10, _ => 'b'));
  }

  /** Sanitising a sanitised name changes nothing. */
  lemma SafeFilenameIdempotent(filename: string)
    ensures GenerateSafeFilename(GenerateSafeFilename(filename)) == GenerateSafeFilename(filename)
  {
    var r := GenerateSafeFilename(filename);
    SafeFilenameAllSafe(filename);
    SubstituteSafe(r);
    var safe := Substitute(filename);
    if |safe| > 100 && |r| > 100 {
      var ext := Extension(safe);
      assert r == safe[..95] + "." + ext;
      assert '.' !in ext;
      LastSegmentAfterDot(safe[..95], ext);
      assert r[..95] == safe[..95];
      assert '.' in r by { assert r[95] == '.'; }
    }
  }

  // ---------------------------------------------------------------- ids

  /** The ASCII characters int() skips as whitespace around a number. */
  predicate IsSpace(c: char) {
    c == ' ' || c == '\t' || c == '\n' || c == '\r' || c as int == 11 || c as int == 12
  }

  function TrimLeft(s: string): (t: string)
    ensures |t| <= |s| && t == s[|s| - |t|..]
    ensures t == [] || !IsSpace(t[0])
  {
    if s != [] && IsSpace(s[0]) then TrimLeft(s[1..]) else s
  }

  function TrimRight(s: string): (t: string)
    ensures |t| <= |s| && t == s[..|t|]
    ensures t == [] || !IsSpace(t[|t| - 1])
  {
    if s != [] && IsSpace(s[|s| - 1]) then TrimRight(s[..|s| - 1]) else s
  }

  /** Digits with single underscores between them, `\d(_?\d)*`: a digit,
      then nothing, or a run, or an underscore and a run. */
  predicate DigitRun(s: string)
    decreases |s|
  {
    && |s| >= 1
    && IsDigit(s[0])
    && (|s| == 1 || DigitRun(s[1..]) || (s[1] == '_' && DigitRun(s[2..])))
  }

  lemma {:induction false} DigitRunOfDigits(s: string)
    requires AllDigits(s) && s != []
    ensures DigitRun(s)
    decreases |s|
  {
    if |s| > 1 {
      DigitRunOfDigits(s[1..]);
    }
  }

  lemma {:induction false} DigitRunChars(s: string)
    requires DigitRun(s)
    ensures forall i | 0 <= i < |s| :: IsDigit(s[i]) || s[i] == '_'
    decreases |s|
  {
    if |s| > 1 {
      if DigitRun(s[1..]) {
        DigitRunChars(s[1..]);
        assert forall i | 1 <= i < |s| :: s[i] == s[1..][i - 1];
      } else {
        DigitRunChars(s[2..]);
        assert forall i | 2 <= i < |s| :: s[i] == s[2..][i - 2];
      }
    }
  }

  function DropUnderscores(s: string): (t: string)
    ensures (forall i | 0 <= i < |s| :: IsDigit(s[i]) || s[i] == '_') ==> AllDigits(t)
    ensures AllDigits(s) ==> t == s
  {
    if s == [] then [] else (if s[0] == '_' then [] else [s[0]]) + DropUnderscores(s[1..])
  }

  /** The longest decimal literal int() converts: sys.int_info's default
      max_str_digits. Digits are counted without sign and underscores,
      leading zeros included; a longer literal raises ValueError. */
  const MaxStrDigits: nat := 4300

  /** A digit run with nothing around it; None when it is not one, or when it
      has more digits than int() converts. */
  function ParseRun(body: string): Option<nat> {
    if !DigitRun(body) then None
    else
      DigitRunChars(body);
      var digits := DropUnderscores(body);
      if |digits| > MaxStrDigits then None else Some(NumberValue(digits))
  }

  /** A magnitude under a leading '+' or '-'. */
  function Signed(sign: char, n: nat): int {
    if sign == '-' then -(n as int) else n as int
  }

  /** An optional sign and a digit run, with nothing around them. */
  function ParseSignedRun(t: string): Option<int> {
    if |t| > 0 && (t[0] == '+' || t[0] == '-') then
      match ParseRun(t[1..])
      case None => None
      case Some(n) => Some(Signed(t[0], n))
    else
      match ParseRun(t)
      case None => None
      case Some(n) => Some(n as int)
  }

  /** int(s) for a str: surrounding whitespace, an optional sign, and a digit
      run; None stands for the ValueError. */
  function ParseIntLiteral(s: string): Option<int> {
    ParseSignedRun(TrimLeft(TrimRight(s)))
  }

  /** int(x) for a float: truncation toward zero. */
  function TruncateTowardZero(x: real): int {
    if x >= 0.0 then x.Floor else -((-x).Floor)
  }

  /** int(v); None stands for the ValueError or TypeError is_valid_id catches. */
  function ToInt(v: Value): Option<int> {
    match v
    case Null => None
    case Bool(b) => Some(if b then 1 else 0)
    case Int(i) => Some(i)
    case Float(x) => Some(TruncateTowardZero(x))
    case Str(s) => ParseIntLiteral(s)
    case List(_) => None
    case Dict(_) => None
  }

  /** is_valid_id: converts to an integer greater than zero. */
  predicate IsValidId(v: Value) {
    match ToInt(v)
    case Some(i) => i > 0
    case None => false
  }

  /** An int, or a bool, is a valid id iff it is positive; None, lists and
      dicts never are. */
  lemma IsValidIdOfNonStrings(v: Value)
    ensures v.Int? ==> (IsValidId(v) <==> v.i > 0)
    ensures v.Bool? ==> (IsValidId(v) <==> v.b)
    ensures v.Null? || v.List? || v.Dict? ==> !IsValidId(v)
  {
  }

  /** A float is a valid id iff it is at least 1 (0.5 truncates to 0). */
  lemma IsValidIdOfFloat(x: real)
    ensures IsValidId(Float(x)) <==> x >= 1.0
  {
  }

  /** A plain digit string is a run; its value, unless it is too long. */
  lemma ParseRunOfDigits(s: string)
    requires AllDigits(s) && s != []
    ensures ParseRun(s) == if |s| > MaxStrDigits then None else Some(NumberValue(s))
  {
    DigitRunOfDigits(s);
  }

  /** An unsigned trimmed digit string parses to its value. */
  lemma ParseUnsigned(s: string)
    requires AllDigits(s) && s != []
    ensures ParseSignedRun(s) == if |s| > MaxStrDigits then None else Some(NumberValue(s) as int)
  {
    ParseRunOfDigits(s);
    assert IsDigit(s[0]);
  }

  /** A leading sign applies to the value of the run after it. */
  lemma SignedRun(sign: char, s: string)
    requires sign == '+' || sign == '-'
    ensures ParseSignedRun([sign] + s) ==
      match ParseRun(s)
      case None => None
      case Some(n) => Some(Signed(sign, n))
  {
    assert ([sign] + s)[1..] == s;
  }

  /** A signed trimmed digit string parses to its signed value. */
  lemma ParseSigned(sign: char, s: string)
    requires AllDigits(s) && s != []
    requires sign == '+' || sign == '-'
    ensures ParseSignedRun([sign] + s) ==
      if |s| > MaxStrDigits then None
      else Some(Signed(sign, NumberValue(s)))
  {
    SignedRun(sign, s);
    ParseRunOfDigits(s);
    if |s| <= MaxStrDigits {
      assert ParseRun(s) == Some(NumberValue(s));
    } else {
      assert ParseRun(s) == None;
    }
  }

  lemma TrimSigned(s: string, sign: char)
    requires AllDigits(s) && s != []
    requires sign == '+' || sign == '-'
    ensures TrimLeft(TrimRight([sign] + s)) == [sign] + s
  {
    var t := [sign] + s;
    assert t[|t| - 1] == s[|s| - 1];
    assert !IsSpace(t[|t| - 1]);
    assert TrimRight(t) == t;
    assert !IsSpace(t[0]);
  }

  lemma TrimDigits(s: string)
    requires AllDigits(s) && s != []
    ensures TrimLeft(TrimRight(s)) == s
  {
    assert TrimRight(s) == s;
  }

  /** Text made of whitespace only. */
  predicate AllSpace(s: string) {
    forall i | 0 <= i < |s| :: IsSpace(s[i])
  }

  lemma {:induction false} TrimRightSpaces(x: string, q: string)
    requires AllSpace(q)
    ensures TrimRight(x + q) == TrimRight(x)
    decreases |q|
  {
    if q == [] {
      assert x + q == x;
    } else {
      var xq := x + q;
      assert IsSpace(xq[|xq| - 1]);
      assert xq[..|xq| - 1] == x + q[..|q| - 1];
      TrimRightSpaces(x, q[..|q| - 1]);
    }
  }

  lemma {:induction false} TrimLeftSpaces(p: string, x: string)
    requires AllSpace(p)
    ensures TrimLeft(p + x) == TrimLeft(x)
    decreases |p|
  {
    if p == [] {
      assert p + x == x;
    } else {
      assert (p + x)[1..] == p[1..] + x;
      TrimLeftSpaces(p[1..], x);
    }
  }

  /** What TrimRight takes off is whitespace. */
  lemma {:induction false} TrimRightRest(s: string)
    ensures AllSpace(s[|TrimRight(s)|..])
    decreases |s|
  {
    if s != [] && IsSpace(s[|s| - 1]) {
      var u := s[..|s| - 1];
      TrimRightRest(u);
      var k := |TrimRight(u)|;
      assert s[k..] == u[k..] + [s[|s| - 1]];
    }
  }

  /** Stripping the right end only looks at the text's own trailing whitespace. */
  lemma TrimRightAfter(x: string, s: string)
    ensures TrimRight(x + s) == TrimRight(x + TrimRight(s))
  {
    var t := TrimRight(s);
    var rest := s[|t|..];
    TrimRightRest(s);
    assert s == t + rest;
    assert x + s == (x + t) + rest;
    TrimRightSpaces(x + t, rest);
  }

  /** Whitespace in front of text that does not end in whitespace survives
      the right strip, unless there is no text. */
  lemma TrimRightLeading(p: string, t: string)
    requires AllSpace(p)
    requires t == [] || !IsSpace(t[|t| - 1])
    ensures TrimRight(p + t) == if t == [] then [] else p + t
  {
    if t == [] {
      assert p + t == [] + p;
      TrimRightSpaces([], p);
    } else {
      var pt := p + t;
      assert pt[|pt| - 1] == t[|t| - 1];
    }
  }

  /** Stripping both ends ignores whitespace put in front of the text. */
  lemma TrimIgnoresLeadingSpaces(p: string, s: string)
    requires AllSpace(p)
    ensures TrimLeft(TrimRight(p + s)) == TrimLeft(TrimRight(s))
  {
    var t := TrimRight(s);
    TrimRightAfter(p, s);
    TrimRightLeading(p, t);
    if t != [] {
      TrimLeftSpaces(p, t);
    }
  }

  /** Stripping both ends ignores whitespace added around the text. */
  lemma TrimIgnoresSpaces(p: string, s: string, q: string)
    requires AllSpace(p) && AllSpace(q)
    ensures TrimLeft(TrimRight(p + s + q)) == TrimLeft(TrimRight(s))
  {
    TrimRightSpaces(p + s, q);
    TrimIgnoresLeadingSpaces(p, s);
  }

  /** Whitespace before and after the text never changes what int() makes
      of it. */
  lemma ParseIgnoresSpaces(p: string, s: string, q: string)
    requires AllSpace(p) && AllSpace(q)
    ensures ParseIntLiteral(p + s + q) == ParseIntLiteral(s)
  {
    TrimIgnoresSpaces(p, s, q);
  }

  /** A digit string parses to its value, unless it has more digits than
      int() converts. */
  lemma ParseDigits(s: string)
    requires AllDigits(s) && s != []
    ensures ParseIntLiteral(s) == if |s| <= MaxStrDigits then Some(NumberValue(s) as int) else None
  {
    TrimDigits(s);
    ParseUnsigned(s);
  }

  /** A digit string behind a sign parses to its signed value, unless it has
      more digits than int() converts. */
  lemma ParseSignedDigits(s: string, sign: char)
    requires AllDigits(s) && s != []
    requires sign == '+' || sign == '-'
    ensures ParseIntLiteral([sign] + s) ==
      if |s| > MaxStrDigits then None
      else Some(Signed(sign, NumberValue(s)))
  {
    TrimSigned(s, sign);
    ParseSigned(sign, s);
  }

  /** A string of decimal digits (leading zeros allowed, as int() allows
      them) is a valid id iff int() converts it and its value is positive. */
  lemma IsValidIdOfDigits(s: string)
    requires AllDigits(s) && s != []
    ensures IsValidId(Str(s)) <==> |s| <= MaxStrDigits && NumberValue(s) > 0
  {
    ParseDigits(s);
  }

  /** Surrounding whitespace is ignored. */
  lemma IsValidIdOfPaddedDigits(p: string, s: string, q: string)
    requires AllSpace(p) && AllSpace(q)
    requires AllDigits(s) && s != []
    ensures IsValidId(Str(p + s + q)) <==> |s| <= MaxStrDigits && NumberValue(s) > 0
  {
    ParseIgnoresSpaces(p, s, q);
    ParseDigits(s);
  }

  /** A '+' sign is accepted; behind a '-' sign no digit string is a valid id. */
  lemma IsValidIdOfSignedDigits(s: string)
    requires AllDigits(s) && s != []
    ensures IsValidId(Str("+" + s)) <==> |s| <= MaxStrDigits && NumberValue(s) > 0
    ensures !IsValidId(Str("-" + s))
  {
    var plus, minus := "+" + s, "-" + s;
    assert plus == ['+'] + s && minus == ['-'] + s;
    ParseSignedDigits(s, '+');
    ParseSignedDigits(s, '-');
    var n := NumberValue(s);
    assert Signed('+', n) == n && Signed('-', n) <= 0;
  }

  /** The digit limit at work: 4301 ones are refused, although any shorter
      run of ones is a valid id. */
  lemma IsValidIdOfLongDigits(s: string)
    requires |s| == MaxStrDigits + 1 && forall i | 0 <= i < |s| :: s[i] == '1'
    ensures !IsValidId(Str(s)) && IsValidId(Str(s[1..]))
  {
    assert AllDigits(s) && AllDigits(s[1..]);
    IsValidIdOfDigits(s);
    IsValidIdOfDigits(s[1..]);
    OnesPositive(s[1..]);
  }

  lemma {:induction false} OnesPositive(s: string)
    requires s != [] && forall i | 0 <= i < |s| :: s[i] == '1'
    ensures AllDigits(s) && NumberValue(s) > 0
  {
    if |s| > 1 {
      OnesPositive(s[..|s| - 1]);
    }
  }
}
