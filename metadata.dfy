/** The conversion of the trigger attribute's current value, sent by the form as text,
    into the typed value the attribute holds, chosen by the attribute's metadata type. */
module MetadataHelper {
  import opened Values

  /** Microsoft.Xrm.Sdk.Metadata.AttributeTypeCode. */
  datatype AttributeTypeCode =
    | Boolean | Customer | DateTime | Decimal | Double | Integer | Lookup | Memo | Money
    | Owner | PartyList | Picklist | State | Status | String | Uniqueidentifier
    | CalendarRules | Virtual | BigInt | ManagedProperty | EntityName

  /** The enumeration member's name, as string interpolation prints it. */
  function TypeCodeName(t: AttributeTypeCode): string {
    match t
    case Boolean => "Boolean"
    case Customer => "Customer"
    case DateTime => "DateTime"
    case Decimal => "Decimal"
    case Double => "Double"
    case Integer => "Integer"
    case Lookup => "Lookup"
    case Memo => "Memo"
    case Money => "Money"
    case Owner => "Owner"
    case PartyList => "PartyList"
    case Picklist => "Picklist"
    case State => "State"
    case Status => "Status"
    case String => "String"
    case Uniqueidentifier => "Uniqueidentifier"
    case CalendarRules => "CalendarRules"
    case Virtual => "Virtual"
    case BigInt => "BigInt"
    case ManagedProperty => "ManagedProperty"
    case EntityName => "EntityName"
  }

  /** The metadata's AttributeType is nullable; a null one prints as nothing. */
  function AttributeTypeText(t: Option<AttributeTypeCode>): string {
    if t.None? then "" else TypeCodeName(t.value)
  }

  function NotSupportedMessage(t: Option<AttributeTypeCode>): string {
    "Parsing for attribute type " + AttributeTypeText(t) + " is not supported."
  }

  function IntegerFormatMessage(current: string): string {
    "Trigger current value '" + current + "' is not a valid integer."
  }

  function OptionSetFormatMessage(current: string): string {
    "Trigger current value '" + current + "' is not a valid integer for option set."
  }

  /** int.TryParse: an integer in the Int32 range written as [white][sign]digits[white]. */
  function TryParseInt32(s: string): (r: Option<Int32>)
    ensures r.Some? <==> ParseInt32(s).Converted?
    ensures r.Some? ==> r.value == ParseInt32(s).value
  {
    match ParseInteger(s)
    case Some(n) => if Int32Min <= n <= Int32Max then Some(n) else None
    case None => None
  }

  /** ParseLookupValue: a reference to the named table with the parsed id; no logical
      name, or text that is not a GUID, gives null (the format error is caught). */
  function ParseLookupValue(current: string, lookupLogicalName: Option<string>): (r: Value)
    ensures r.Null? || r.Reference?
    ensures IsNullOrWhiteSpace(lookupLogicalName) ==> r.Null?
    ensures ParseGuid(current).None? ==> r.Null?
    ensures !IsNullOrWhiteSpace(lookupLogicalName) && ParseGuid(current).Some? ==>
              r == Reference(EntityReference(lookupLogicalName.value, ParseGuid(current).value))
  {
    if IsNullOrWhiteSpace(lookupLogicalName) then Null
    else match ParseGuid(current)
      case Some(id) => Reference(EntityReference(lookupLogicalName.value, id))
      case None => Null
  }

  /** ParseIntValue: the boxed integer, or a FormatException naming the text. */
  function ParseIntValue(current: string): (r: Result<Value, Exception>)
    ensures r.Ok? <==> TryParseInt32(current).Some?
    ensures r.Ok? ==> r == Ok(Int(TryParseInt32(current).value))
    ensures r.Err? ==> r.error == Exception(FormatException, IntegerFormatMessage(current))
  {
    match TryParseInt32(current)
    case Some(n) => Ok(Int(n))
    case None => Err(Exception(FormatException, IntegerFormatMessage(current)))
  }

  /** ParseOptionValue: the option's integer code, boxed as a plain int, or a
      FormatException naming the text. */
  function ParseOptionValue(current: string): (r: Result<Value, Exception>)
    ensures r.Ok? <==> TryParseInt32(current).Some?
    ensures r.Ok? ==> r == Ok(Int(TryParseInt32(current).value))
    ensures r.Err? ==> r.error == Exception(FormatException, OptionSetFormatMessage(current))
  {
    match TryParseInt32(current)
    case Some(n) => Ok(Int(n))
    case None => Err(Exception(FormatException, OptionSetFormatMessage(current)))
  }

  /** The kind of value each supported attribute type parses to. */
  predicate Fits(v: Value, t: AttributeTypeCode) {
    match t
    case Lookup => v.Reference?
    case String => v.Str?
    case Integer => v.Int?
    case Picklist => v.Int?
    case _ => false
  }

  /** ParseAttributeValue.  The attribute type is read from the metadata service only
      after the blank check, so it is a parameter here and is irrelevant for a blank
      current value.  The result is null or a value of the attribute's kind; the
      exceptions are a format error for the numeric types and NotSupportedException
      for every type other than the four supported ones. */
  function ParseAttributeValue(currentValue: Option<string>, lookupLogicalName: Option<string>,
                               attributeType: Option<AttributeTypeCode>): (r: Result<Value, Exception>)
    ensures IsNullOrWhiteSpace(currentValue) ==> r == Ok(Null)
    ensures r.Ok? && !r.value.Null? ==> attributeType.Some? && Fits(r.value, attributeType.value)
    ensures r.Err? ==> !IsNullOrWhiteSpace(currentValue)
    ensures r.Err? && r.error.kind == FormatException ==>
              attributeType == Some(Integer) || attributeType == Some(Picklist)
    ensures !IsNullOrWhiteSpace(currentValue) ==>
              ((r.Err? && r.error == Exception(NotSupportedException, NotSupportedMessage(attributeType)))
               <==> !(attributeType.Some? && attributeType.value in {Lookup, String, Integer, Picklist}))
  {
    if IsNullOrWhiteSpace(currentValue) then Ok(Null)
    else
      var current := currentValue.value;
      match attributeType
      case Some(Lookup) => Ok(ParseLookupValue(current, lookupLogicalName))
      case Some(String) => Ok(Str(current))
      case Some(Integer) => ParseIntValue(current)
      case Some(Picklist) => ParseOptionValue(current)
      case _ => Err(Exception(NotSupportedException, NotSupportedMessage(attributeType)))
  }

  /** For a lookup whose current value is not blank, the lookup parser decides. */
  lemma LookupDispatch(current: string, lookupLogicalName: Option<string>)
    requires !IsNullOrWhiteSpace(Some(current))
    ensures ParseAttributeValue(Some(current), lookupLogicalName, Some(Lookup))
            == Ok(ParseLookupValue(current, lookupLogicalName))
  {
  }

  /** For a number whose current value is not blank, the integer parsers decide. */
  lemma NumberDispatch(current: string, lookupLogicalName: Option<string>)
    requires !IsNullOrWhiteSpace(Some(current))
    ensures ParseAttributeValue(Some(current), lookupLogicalName, Some(Integer)) == ParseIntValue(current)
    ensures ParseAttributeValue(Some(current), lookupLogicalName, Some(Picklist)) == ParseOptionValue(current)
  {
  }

  /** A blank current value is null, whatever the attribute and whatever its type. */
  lemma BlankValueIsNull(current: string, lookupLogicalName: Option<string>, t: Option<AttributeTypeCode>)
    requires forall i :: 0 <= i < |current| ==> IsWhiteSpace(current[i])
    ensures ParseAttributeValue(Some(current), lookupLogicalName, t) == Ok(Null)
    ensures ParseAttributeValue(None, lookupLogicalName, t) == Ok(Null)
  {
  }

  /** A text attribute takes the text exactly as sent, padding included. */
  lemma TextIsKeptAsSent(current: string, lookupLogicalName: Option<string>)
    requires !IsNullOrWhiteSpace(Some(current))
    ensures ParseAttributeValue(Some(current), lookupLogicalName, Some(String)) == Ok(Str(current))
    ensures ParseAttributeValue(Some(" x "), lookupLogicalName, Some(String)) == Ok(Str(" x "))
  {
    assert !IsWhiteSpace(" x "[1]);
  }

  /** Whole numbers and option set codes: the text of any Int32 parses back to it. */
  lemma NumberRoundTrip(n: Int32, lookupLogicalName: Option<string>)
    ensures ParseAttributeValue(Some(IntText(n)), lookupLogicalName, Some(Integer)) == Ok(Int(n))
    ensures ParseAttributeValue(Some(IntText(n)), lookupLogicalName, Some(Picklist)) == Ok(Int(n))
  {
    IntTextRoundTrip(n);
    assert TryParseInt32(IntText(n)) == Some(n);
    NumberTextIsNotBlank(n);
    NumberDispatch(IntText(n), lookupLogicalName);
  }

  /** The text of an integer is never blank: it starts with a digit or a minus sign. */
  lemma NumberTextIsNotBlank(n: int)
    ensures !IsNullOrWhiteSpace(Some(IntText(n)))
  {
    var m: nat := if n < 0 then -n else n;
    assert IsDigit(DigitsText(m)[0]);
    assert !IsWhiteSpace(IntText(n)[0]);
  }

  /** A number beyond the Int32 range is refused as a format error, as TryParse fails
      on overflow too. */
  lemma OutOfRangeNumberIsAFormatError(lookupLogicalName: Option<string>)
    ensures ParseAttributeValue(Some(IntText(Int32Max + 1)), lookupLogicalName, Some(Integer))
            == Err(Exception(FormatException, IntegerFormatMessage(IntText(Int32Max + 1))))
    ensures ParseAttributeValue(Some(IntText(Int32Min - 1)), lookupLogicalName, Some(Picklist))
            == Err(Exception(FormatException, OptionSetFormatMessage(IntText(Int32Min - 1))))
  {
    IntTextRoundTrip(Int32Max + 1);
    assert TryParseInt32(IntText(Int32Max + 1)) == None;
    IntTextRoundTrip(Int32Min - 1);
    assert TryParseInt32(IntText(Int32Min - 1)) == None;
    NumberTextIsNotBlank(Int32Max + 1);
    NumberTextIsNotBlank(Int32Min - 1);
    NumberDispatch(IntText(Int32Max + 1), lookupLogicalName);
    NumberDispatch(IntText(Int32Min - 1), lookupLogicalName);
  }

  /** A lookup's text is the id of the referenced row: the GUID's own text parses back to
      a reference to it, in the table the request names. */
  lemma LookupRoundTrip(g: Guid, lookupLogicalName: string)
    requires !IsNullOrWhiteSpace(Some(lookupLogicalName))
    ensures ParseAttributeValue(Some(GuidText(g)), Some(lookupLogicalName), Some(Lookup))
            == Ok(Reference(EntityReference(lookupLogicalName, g)))
  {
    var t := GuidText(g);
    GuidTextRoundTrip(g);
    GuidTextIsNotBlank(g);
    assert ParseLookupValue(t, Some(lookupLogicalName)) == Reference(EntityReference(lookupLogicalName, g));
    LookupDispatch(t, Some(lookupLogicalName));
  }

  /** Guid.Parse is not limited to the text Guid.ToString prints: upper-case text
      names the same row. */
  lemma UpperCaseLookupIsTheSameRow(g: Guid, lookupLogicalName: string)
    requires !IsNullOrWhiteSpace(Some(lookupLogicalName))
    ensures ParseAttributeValue(Some(Upper(GuidText(g))), Some(lookupLogicalName), Some(Lookup))
            == Ok(Reference(EntityReference(lookupLogicalName, g)))
  {
    UpperGuidTextIsNotBlank(g);
    UpperGuidTextRoundTrip(g);
    LookupDispatch(Upper(GuidText(g)), Some(lookupLogicalName));
  }

  lemma UpperGuidTextIsNotBlank(g: Guid)
    ensures !IsNullOrWhiteSpace(Some(Upper(GuidText(g))))
  {
    GuidTextLayout(g);
    assert !IsWhiteSpace(Upper(GuidText(g))[0]);
  }

  /** Any text int.TryParse reads as n gives n, for whole numbers and option sets. */
  lemma ParsedNumber(s: string, n: Int32, i: nat, lookupLogicalName: Option<string>)
    requires ParseInteger(s) == Some(n) && i < |s| && !IsWhiteSpace(s[i])
    ensures ParseAttributeValue(Some(s), lookupLogicalName, Some(Integer)) == Ok(Int(n))
    ensures ParseAttributeValue(Some(s), lookupLogicalName, Some(Picklist)) == Ok(Int(n))
  {
    assert TryParseInt32(s) == Some(n);
    NumberDispatch(s, lookupLogicalName);
  }

  /** int.TryParse is not limited to the text Int32.ToString prints: white space
      around the number, a plus sign and a leading zero give the same number. */
  lemma PaddedNumberText(n: Int32, lookupLogicalName: Option<string>)
    ensures ParseAttributeValue(Some(" " + IntText(n) + " "), lookupLogicalName, Some(Integer)) == Ok(Int(n))
  {
    var s := " " + IntText(n) + " ";
    PaddedIntText(n);
    NumberTextIsNotBlank(n);
    assert s[1] == IntText(n)[0];
    ParsedNumber(s, n, 1, lookupLogicalName);
  }

  lemma SignedNumberText(n: Int32, lookupLogicalName: Option<string>)
    requires n >= 0
    ensures ParseAttributeValue(Some("+" + IntText(n)), lookupLogicalName, Some(Integer)) == Ok(Int(n))
  {
    PlusIntText(n);
    ParsedNumber("+" + IntText(n), n, 0, lookupLogicalName);
  }

  lemma ZeroPaddedOptionText(n: Int32, lookupLogicalName: Option<string>)
    requires n >= 0
    ensures ParseAttributeValue(Some("0" + IntText(n)), lookupLogicalName, Some(Picklist)) == Ok(Int(n))
  {
    ZeroIntText(n);
    ParsedNumber("0" + IntText(n), n, 0, lookupLogicalName);
  }

  lemma GuidTextIsNotBlank(g: Guid)
    ensures !IsNullOrWhiteSpace(Some(GuidText(g)))
  {
    GuidTextLayout(g);
  }

  /** A lookup whose text is not a GUID, or whose table is not named, is null rather
      than an error. */
  lemma UnparsableLookupIsNull(current: string, lookupLogicalName: Option<string>)
    requires !IsNullOrWhiteSpace(Some(current))
    requires ParseGuid(current).None? || IsNullOrWhiteSpace(lookupLogicalName)
    ensures ParseAttributeValue(Some(current), lookupLogicalName, Some(Lookup)) == Ok(Null)
  {
  }
}
