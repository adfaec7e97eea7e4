/** The value layer shared by every component: optional and failing results, the
    runtime attribute values a Dataverse record carries, and the .NET behaviours the
    comparisons rely on (Object.ToString, Convert.To*, ordinal ignore-case comparison,
    char.IsWhiteSpace, Int32 and Guid text). */
module Values {

  // ---------------------------------------------------------------------------
  // Optional values and results

  datatype Option<+T> = None | Some(value: T) {
    function GetOr(default: T): T {
      match this
      case Some(v) => v
      case None => default
    }
  }

  datatype Result<+T, +E> = Ok(value: T) | Err(error: E) {
    predicate IsFailure() { Err? }
    function PropagateFailure<U>(): Result<U, E>
      requires Err?
    {
      Err(error)
    }
    function Extract(): T
      requires Ok?
    {
      value
    }
  }

  /** The .NET exception kinds that cross the modelled boundaries. */
  datatype ExceptionKind =
    | FormatException
    | OverflowException
    | ArgumentNullException
    | ArgumentException
    | NullReferenceException
    | NotSupportedException
    | InvalidPluginExecutionException

  datatype Exception = Exception(kind: ExceptionKind, message: string)

  const InputFormatMessage := "Input string was not in a correct format."
  const Int32OverflowMessage := "Value was either too large or too small for an Int32."
  const DecimalOverflowMessage := "Value was either too large or too small for a Decimal."
  const BooleanFormatMessage := "String was not recognized as a valid Boolean."
  const DateTimeFormatMessage := "String was not recognized as a valid DateTime."
  const NullReferenceMessage := "Object reference not set to an instance of an object."

  /** ArgumentNullException(paramName) as .NET Framework words it. */
  function ArgumentNull(paramName: string): Exception {
    Exception(ArgumentNullException, "Value cannot be null.\r\nParameter name: " + paramName)
  }

  // ---------------------------------------------------------------------------
  // Integer ranges

  const Int32Min: int := -0x8000_0000
  const Int32Max: int := 0x7FFF_FFFF
  type Int32 = n: int | Int32Min <= n <= Int32Max

  /** System.Decimal amounts are modelled by their integral part; its bound is 2^96 - 1. */
  const DecimalMax: int := 79228162514264337593543950335
  type DecimalAmount = n: int | -DecimalMax <= n <= DecimalMax

  /** DateTime values are modelled by their tick count; DateTime.MaxValue.Ticks bounds it. */
  const MaxTicks: int := 3155378975999999999
  type Ticks = n: int | 0 <= n <= MaxTicks

  // ---------------------------------------------------------------------------
  // Characters and strings

  /** char.IsWhiteSpace: the control range U+0009..U+000D, U+0085 and the Unicode
      space, line and paragraph separators. */
  predicate IsWhiteSpace(c: char) {
    ('\t' <= c <= '\r') || c == ' ' || c == '\U{85}' || c == '\U{A0}' || c == '\U{1680}'
    || ('\U{2000}' <= c <= '\U{200A}') || c == '\U{2028}' || c == '\U{2029}' || c == '\U{202F}'
    || c == '\U{205F}' || c == '\U{3000}'
  }

  /** string.IsNullOrWhiteSpace, and equally string.IsNullOrEmpty(s.Trim()). */
  predicate IsNullOrWhiteSpace(s: Option<string>) {
    s.None? || forall i :: 0 <= i < |s.value| ==> IsWhiteSpace(s.value[i])
  }

  function TrimStart(s: string, white: char -> bool): (r: string)
    ensures |r| <= |s| && r == s[|s| - |r|..]
    ensures r != [] ==> !white(r[0])
  {
    if s != [] && white(s[0]) then TrimStart(s[1..], white) else s
  }

  function TrimEnd(s: string, white: char -> bool): (r: string)
    ensures |r| <= |s| && r == s[..|r|]
    ensures r != [] ==> !white(r[|r| - 1])
  {
    if s != [] && white(s[|s| - 1]) then TrimEnd(s[..|s| - 1], white) else s
  }

  function Trim(s: string, white: char -> bool): string {
    TrimEnd(TrimStart(s, white), white)
  }

  /** The invariant-culture upper case of one character, restricted to ASCII letters. */
  function UpperChar(c: char): char {
    if 'a' <= c <= 'z' then (c as int - 32) as char else c
  }

  function Upper(s: string): (r: string)
    ensures |r| == |s| && forall i :: 0 <= i < |s| ==> r[i] == UpperChar(s[i])
  {
    seq(|s|, i requires 0 <= i < |s| => UpperChar(s[i]))
  }

  /** string.Equals(a, b, StringComparison.OrdinalIgnoreCase), null standing for None. */
  predicate EqualsIgnoreCase(a: Option<string>, b: Option<string>) {
    if a.None? || b.None? then a.None? && b.None? else Upper(a.value) == Upper(b.value)
  }

  // ---------------------------------------------------------------------------
  // Decimal integer text (Int32.ToString and Int32.Parse)

  function DigitChar(d: nat): char
    requires d < 10
  {
    ('0' as int + d) as char
  }

  predicate IsDigit(c: char) { '0' <= c <= '9' }

  function DigitValue(c: char): nat
    requires IsDigit(c)
  {
    c as int - '0' as int
  }

  predicate AllDigits(s: string) { forall i :: 0 <= i < |s| ==> IsDigit(s[i]) }

  function DigitsText(n: nat): (s: string)
    ensures s != [] && AllDigits(s)
  {
    if n < 10 then [DigitChar(n)] else DigitsText(n / 10) + [DigitChar(n % 10)]
  }

  function DigitsValue(s: string): nat
    requires AllDigits(s)
  {
    if s == [] then 0 else DigitsValue(s[..|s| - 1]) * 10 + DigitValue(s[|s| - 1])
  }

  /** The invariant-culture text of an integer. */
  function IntText(n: int): string {
    if n < 0 then "-" + DigitsText(-n) else DigitsText(n)
  }

  /** White space allowed around a number by NumberStyles.Integer. */
  predicate IsNumberWhite(c: char) { ('\t' <= c <= '\r') || c == ' ' }

  /** The integer written as [white][sign]digits[white], or None. */
  function ParseInteger(s: string): Option<int> {
    var t := Trim(s, IsNumberWhite);
    if t == [] then None
    else if t[0] == '-' || t[0] == '+' then
      if |t| > 1 && AllDigits(t[1..]) then
        var magnitude: int := DigitsValue(t[1..]);
        Some(if t[0] == '-' then -magnitude else magnitude)
      else None
    else if AllDigits(t) then Some(DigitsValue(t))
    else None
  }

  lemma {:induction false} DigitsRoundTrip(n: nat)
    ensures DigitsValue(DigitsText(n)) == n
  {
    if n >= 10 {
      DigitsRoundTrip(n / 10);
      var s := DigitsText(n);
      assert s[..|s| - 1] == DigitsText(n / 10);
    }
  }

  /** Trimming a string that neither starts nor ends with white space keeps it. */
  lemma TrimKeeps(s: string, white: char -> bool)
    requires s != [] ==> !white(s[0]) && !white(s[|s| - 1])
    ensures Trim(s, white) == s
  {
    assert TrimStart(s, white) == s;
  }

  /** Trimming stops at the first character that is not white space. */
  lemma {:induction false} TrimStartKeeps(s: string, white: char -> bool, i: nat)
    requires i < |s| && !white(s[i])
    ensures |TrimStart(s, white)| >= |s| - i
  {
    if s != [] && white(s[0]) {
      TrimStartKeeps(s[1..], white, i - 1);
    }
  }

  lemma {:induction false} TrimEndKeeps(s: string, white: char -> bool, i: nat)
    requires i < |s| && !white(s[i])
    ensures |TrimEnd(s, white)| > i
  {
    if s != [] && white(s[|s| - 1]) {
      TrimEndKeeps(s[..|s| - 1], white, i);
    }
  }

  /** A string with a character that is not white space does not trim to nothing. */
  lemma TrimNonEmpty(s: string, white: char -> bool, i: nat)
    requires i < |s| && !white(s[i])
    ensures Trim(s, white) != []
  {
    var t := TrimStart(s, white);
    TrimStartKeeps(s, white, i);
    var j := i - (|s| - |t|);
    assert t[j] == s[i];
    TrimEndKeeps(t, white, j);
  }

  lemma {:induction false} TrimStartAllWhite(s: string, white: char -> bool)
    requires forall i :: 0 <= i < |s| ==> white(s[i])
    ensures TrimStart(s, white) == []
  {
    if s != [] {
      assert white(s[0]);
      TrimStartAllWhite(s[1..], white);
    }
  }

  /** A string trims to nothing exactly when all its characters are white space. */
  lemma TrimEmptyIffAllWhite(s: string, white: char -> bool)
    ensures Trim(s, white) == [] <==> forall i :: 0 <= i < |s| ==> white(s[i])
  {
    if forall i :: 0 <= i < |s| ==> white(s[i]) {
      TrimStartAllWhite(s, white);
    } else {
      var i :| 0 <= i < |s| && !white(s[i]);
      TrimNonEmpty(s, white, i);
    }
  }

  /** A leading zero does not change the value of a digit string. */
  lemma {:induction false} LeadingZero(d: string)
    requires AllDigits(d)
    ensures AllDigits("0" + d) && DigitsValue("0" + d) == DigitsValue(d)
  {
    var z := "0" + d;
    assert forall i :: 1 <= i < |z| ==> z[i] == d[i - 1];
    if d != [] {
      assert z[..|z| - 1] == "0" + d[..|d| - 1];
      LeadingZero(d[..|d| - 1]);
    } else {
      assert z[..0] == [];
    }
  }

  /** The text of an integer starts with a minus sign or a digit and ends with a digit. */
  lemma IntTextEnds(n: int)
    ensures var t := IntText(n); t != [] && (t[0] == '-' || IsDigit(t[0])) && IsDigit(t[|t| - 1])
  {
    var m: nat := if n < 0 then -n else n;
    var t := IntText(n);
    assert t[|t| - 1] == DigitsText(m)[|DigitsText(m)| - 1];
  }

  /** Integer text is also read with white space around it ... */
  lemma PaddedIntText(n: int)
    ensures ParseInteger(" " + IntText(n) + " ") == Some(n)
  {
    var t := IntText(n);
    IntTextRoundTrip(n);
    IntTextEnds(n);
    TrimKeeps(t, IsNumberWhite);
    var padded := " " + t + " ";
    assert padded[1..] == t + " ";
    assert TrimStart(t + " ", IsNumberWhite) == t + " ";
    assert (t + " ")[..|t|] == t;
    assert Trim(padded, IsNumberWhite) == Trim(t, IsNumberWhite);
  }

  /** ... and a non-negative one with a plus sign ... */
  lemma PlusIntText(n: nat)
    ensures ParseInteger("+" + IntText(n)) == Some(n)
  {
    var t := IntText(n);
    IntTextEnds(n);
    DigitsRoundTrip(n);
    var plus := "+" + t;
    TrimKeeps(plus, IsNumberWhite);
    assert plus[1..] == t;
  }

  /** ... or with a leading zero. */
  lemma ZeroIntText(n: nat)
    ensures ParseInteger("0" + IntText(n)) == Some(n)
  {
    var t := IntText(n);
    IntTextEnds(n);
    DigitsRoundTrip(n);
    LeadingZero(t);
    TrimKeeps("0" + t, IsNumberWhite);
  }

  /** Parsing the text of any integer gives that integer back. */
  lemma IntTextRoundTrip(n: int)
    ensures ParseInteger(IntText(n)) == Some(n)
  {
    var m: nat := if n < 0 then -n else n;
    var d := DigitsText(m);
    DigitsRoundTrip(m);
    var s := IntText(n);
    TrimKeeps(s, IsNumberWhite);
    if n < 0 {
      assert s[0] == '-' && s[1..] == d;
    } else {
      assert s == d && IsDigit(s[0]);
    }
  }

  // ---------------------------------------------------------------------------
  // GUIDs: 32 hexadecimal digits, printed in the "D" format (8-4-4-4-12, lower case)

  type HexDigit = d: int | 0 <= d < 16
  type Guid = s: seq<HexDigit> | |s| == 32 witness seq(32, i => 0)

  function HexChar(d: HexDigit): char {
    if d < 10 then ('0' as int + d) as char else ('a' as int + d - 10) as char
  }

  function HexValue(c: char): Option<HexDigit> {
    if '0' <= c <= '9' then Some(c as int - '0' as int)
    else if 'a' <= c <= 'f' then Some(c as int - 'a' as int + 10)
    else if 'A' <= c <= 'F' then Some(c as int - 'A' as int + 10)
    else None
  }

  function HexText(ds: seq<HexDigit>): (s: string)
    ensures |s| == |ds| && forall i :: 0 <= i < |ds| ==> s[i] == HexChar(ds[i])
  {
    seq(|ds|, i requires 0 <= i < |ds| => HexChar(ds[i]))
  }

  function ParseHex(s: string): (r: Option<seq<HexDigit>>)
    ensures r.Some? ==> |r.value| == |s|
  {
    if s == [] then Some([])
    else match (HexValue(s[0]), ParseHex(s[1..]))
      case (Some(d), Some(ds)) => Some([d] + ds)
      case _ => None
  }

  /** Guid.ToString(): lower-case "D" format. */
  function GuidText(g: Guid): (s: string)
    ensures |s| == 36
  {
    HexText(g[..8]) + "-" + HexText(g[8..12]) + "-" + HexText(g[12..16]) + "-"
    + HexText(g[16..20]) + "-" + HexText(g[20..])
  }

  /** Guid.Parse for the "D" format, either letter case, surrounding white space trimmed. */
  function ParseGuid(s: string): Option<Guid> {
    var t := Trim(s, IsWhiteSpace);
    if |t| != 36 || t[8] != '-' || t[13] != '-' || t[18] != '-' || t[23] != '-' then None
    else match ParseHex(t[..8] + t[9..13] + t[14..18] + t[19..23] + t[24..])
      case Some(ds) => Some(ds)
      case None => None
  }

  lemma {:induction false} HexRoundTrip(ds: seq<HexDigit>)
    ensures ParseHex(HexText(ds)) == Some(ds)
  {
    if ds != [] {
      HexRoundTrip(ds[1..]);
      var d := ds[0];
      var s := HexText(ds);
      assert s[0] == HexChar(d);
      assert HexValue(HexChar(d)) == Some(d);
      assert s[1..] == HexText(ds[1..]);
      assert [d] + ds[1..] == ds;
      assert ParseHex(s) == Some([d] + ds[1..]);
    }
  }

  lemma HexTextSplit(x: seq<HexDigit>, y: seq<HexDigit>)
    ensures HexText(x + y) == HexText(x) + HexText(y)
  {
  }

  /** Parsing the text of a GUID gives that GUID back. */
  lemma GuidTextRoundTrip(g: Guid)
    ensures ParseGuid(GuidText(g)) == Some(g)
  {
    var t := GuidText(g);
    GuidTextLayout(g);
    TrimKeeps(t, IsWhiteSpace);
    GuidDigitsJoin(g);
    HexRoundTrip(g);
  }

  /** Hexadecimal digits are read in either letter case. */
  lemma {:induction false} ParseHexIgnoresCase(s: string)
    ensures ParseHex(Upper(s)) == ParseHex(s)
  {
    if s != [] {
      assert Upper(s)[0] == UpperChar(s[0]);
      assert Upper(s)[1..] == Upper(s[1..]);
      ParseHexIgnoresCase(s[1..]);
    }
  }

  /** Guid.Parse also reads the upper-case "D" text of a GUID. */
  lemma UpperGuidTextRoundTrip(g: Guid)
    ensures ParseGuid(Upper(GuidText(g))) == Some(g)
  {
    var t := GuidText(g);
    var u := Upper(t);
    GuidTextLayout(g);
    GuidTextRoundTrip(g);
    TrimKeeps(t, IsWhiteSpace);
    TrimKeeps(u, IsWhiteSpace);
    var dt := t[..8] + t[9..13] + t[14..18] + t[19..23] + t[24..];
    var du := u[..8] + u[9..13] + u[14..18] + u[19..23] + u[24..];
    assert |du| == |dt| == 32;
    assert forall i :: 0 <= i < 32 ==> du[i] == UpperChar(dt[i]);
    assert du == Upper(dt);
    ParseHexIgnoresCase(dt);
  }

  /** Where the groups and the hyphens sit in the text of a GUID. */
  lemma GuidTextLayout(g: Guid)
    ensures var t := GuidText(g);
            && t[..8] == HexText(g[..8]) && t[9..13] == HexText(g[8..12]) && t[14..18] == HexText(g[12..16])
            && t[19..23] == HexText(g[16..20]) && t[24..] == HexText(g[20..])
            && t[8] == '-' && t[13] == '-' && t[18] == '-' && t[23] == '-'
            && !IsWhiteSpace(t[0]) && !IsWhiteSpace(t[35])
  {
    var a, b, c, d, e := HexText(g[..8]), HexText(g[8..12]), HexText(g[12..16]),
                         HexText(g[16..20]), HexText(g[20..]);
    var t := GuidText(g);
    assert t == a + "-" + b + "-" + c + "-" + d + "-" + e;
    assert t[..8] == a && t[9..13] == b && t[14..18] == c && t[19..23] == d && t[24..] == e;
  }

  /** The five groups together are the digits of the GUID. */
  lemma GuidDigitsJoin(g: Guid)
    ensures HexText(g[..8]) + HexText(g[8..12]) + HexText(g[12..16]) + HexText(g[16..20]) + HexText(g[20..])
            == HexText(g)
  {
    HexTextSplit(g[..8], g[8..12]);
    HexTextSplit(g[..12], g[12..16]);
    HexTextSplit(g[..16], g[16..20]);
    HexTextSplit(g[..20], g[20..]);
    assert g[..8] + g[8..12] == g[..12];
    assert g[..12] + g[12..16] == g[..16];
    assert g[..16] + g[16..20] == g[..20];
    assert g[..20] + g[20..] == g;
  }

  // ---------------------------------------------------------------------------
  // Runtime attribute values

  datatype EntityReference = EntityReference(logicalName: string, id: Guid)

  /** The dynamically typed values an Entity attribute can hold; Null is an attribute
      present with a null value. */
  datatype Value =
    | Null
    | Str(s: string)
    | Int(i: Int32)
    | Dec(d: DecimalAmount)
    | Bool(b: bool)
    | DateTime(ticks: Ticks)
    | GuidValue(g: Guid)
    | Money(amount: DecimalAmount)
    | OptionSet(code: Int32)
    | Reference(ref: EntityReference)
    | Aliased(inner: Value)

  /** Object.ToString() of a non-null value.  The SDK wrapper types do not override
      it and print their type name. */
  function Text(v: Value): string
    requires !v.Null?
  {
    match v
    case Str(s) => s
    case Int(i) => IntText(i)
    case Dec(d) => IntText(d)
    case Bool(b) => if b then "True" else "False"
    case DateTime(t) => IntText(t)
    case GuidValue(g) => GuidText(g)
    case Money(_) => "Microsoft.Xrm.Sdk.Money"
    case OptionSet(_) => "Microsoft.Xrm.Sdk.OptionSetValue"
    case Reference(_) => "Microsoft.Xrm.Sdk.EntityReference"
    case Aliased(_) => "Microsoft.Xrm.Sdk.AliasedValue"
  }

  // ---------------------------------------------------------------------------
  // Convert.To*(object)

  /** What Convert.ToX(value) does: a converted value, an InvalidCastException (the
      value is not IConvertible or has no such conversion), or an escaping exception. */
  datatype Conversion<+T> = Converted(value: T) | InvalidCast | Raised(exception: Exception)

  function ParseInt32(s: string): Conversion<Int32> {
    match ParseInteger(s)
    case None => Raised(Exception(FormatException, InputFormatMessage))
    case Some(n) =>
      if Int32Min <= n <= Int32Max then Converted(n)
      else Raised(Exception(OverflowException, Int32OverflowMessage))
  }

  function ToInt32(v: Value): Conversion<Int32>
    requires !v.Null?
  {
    match v
    case Str(s) => ParseInt32(s)
    case Int(i) => Converted(i)
    case Dec(d) =>
      if Int32Min <= d <= Int32Max then Converted(d)
      else Raised(Exception(OverflowException, Int32OverflowMessage))
    case Bool(b) => Converted(if b then 1 else 0)
    case _ => InvalidCast
  }

  function ToDecimal(v: Value): Conversion<DecimalAmount>
    requires !v.Null?
  {
    match v
    case Str(s) =>
      (match ParseInteger(s)
       case None => Raised(Exception(FormatException, InputFormatMessage))
       case Some(n) =>
         if -DecimalMax <= n <= DecimalMax then Converted(n)
         else Raised(Exception(OverflowException, DecimalOverflowMessage)))
    case Int(i) => Converted(i)
    case Dec(d) => Converted(d)
    case Bool(b) => Converted(if b then 1 else 0)
    case _ => InvalidCast
  }

  /** Boolean.Parse: "True" or "False" in any letter case, white space and NULs trimmed. */
  function ParseBoolean(s: string): Conversion<bool> {
    var t := Upper(Trim(s, c => IsWhiteSpace(c) || c == '\0'));
    if t == "TRUE" then Converted(true)
    else if t == "FALSE" then Converted(false)
    else Raised(Exception(FormatException, BooleanFormatMessage))
  }

  function ToBoolean(v: Value): Conversion<bool>
    requires !v.Null?
  {
    match v
    case Str(s) => ParseBoolean(s)
    case Int(i) => Converted(i != 0)
    case Dec(d) => Converted(d != 0)
    case Bool(b) => Converted(b)
    case _ => InvalidCast
  }

  /** DateTime.Parse, with a date's text modelled as its tick count. */
  function ToDateTime(v: Value): Conversion<Ticks>
    requires !v.Null?
  {
    match v
    case Str(s) =>
      (match ParseInteger(s)
       case Some(n) => if 0 <= n <= MaxTicks then Converted(n)
                       else Raised(Exception(FormatException, DateTimeFormatMessage))
       case None => Raised(Exception(FormatException, DateTimeFormatMessage)))
    case DateTime(t) => Converted(t)
    case _ => InvalidCast
  }
}
