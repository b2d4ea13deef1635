/**
 * The geometry kind of a map feature (`DataType`): parsing from a string in
 * any letter case, the stable numeric code and the display name.
 */
module DataTypes {
  import opened Wrappers
  import opened Ints

  /** Declared in this order, so the discriminants are 0, 1, 2. */
  datatype DataType = Points | Lines | Polygons

  /** The variants in declaration order; index i holds discriminant i. */
  const DeclarationOrder: seq<DataType> := [Points, Lines, Polygons]

  /** ASCII lower-casing of one character. */
  function LowerChar(c: char): char
  {
    if 'A' <= c <= 'Z' then (c as int - 'A' as int + 'a' as int) as char else c
  }

  /** Lower-casing of a whole string, character by character. */
  function ToLowercase(s: string): string
  {
    seq(|s|, i requires 0 <= i < |s| => LowerChar(s[i]))
  }

  /** Two strings that are equal once both are lower-cased. */
  predicate EqualsIgnoreCase(a: string, b: string)
  {
    ToLowercase(a) == ToLowercase(b)
  }

  /** The message of a rejected spelling quotes the input exactly as given. */
  function InvalidMessage(input: string): string
  {
    "'" + input + "' is not a valid DataType"
  }

  /** `FromStr for DataType`. */
  function FromStr(input: string): (r: Result<DataType, string>)
    ensures r.Ok? ==> EqualsIgnoreCase(input, Name(r.value))
    ensures r.Err? ==> r.error == InvalidMessage(input)
  {
    LowercaseNames();
    var lower := ToLowercase(input);
    if lower == "points" then Ok(Points)
    else if lower == "lines" then Ok(Lines)
    else if lower == "polygons" then Ok(Polygons)
    else Err(InvalidMessage(input))
  }

  /** `From<DataType> for u8`. */
  function Code(d: DataType): (r: u8)
    ensures r < |DeclarationOrder|
  {
    match d
    case Points => 0
    case Lines => 1
    case Polygons => 2
  }

  /** `Display for DataType`. */
  function Name(d: DataType): (r: string)
    ensures |r| > 0 && 'A' <= r[0] <= 'Z'
    ensures forall i :: 1 <= i < |r| ==> 'a' <= r[i] <= 'z'
  {
    match d
    case Points => "Points"
    case Lines => "Lines"
    case Polygons => "Polygons"
  }

  /** Lower-casing twice is lower-casing once. */
  lemma {:induction false} ToLowercaseIdempotent(s: string)
    ensures ToLowercase(ToLowercase(s)) == ToLowercase(s)
  {
    var once := ToLowercase(s);
    var twice := ToLowercase(once);
    assert forall i :: 0 <= i < |s| ==> twice[i] == LowerChar(LowerChar(s[i])) == once[i];
  }

  /** The display names lower-case to the spellings the parser compares against. */
  lemma LowercaseNames()
    ensures ToLowercase("Points") == "points"
    ensures ToLowercase("Lines") == "lines"
    ensures ToLowercase("Polygons") == "polygons"
  {
  }

  /**
   * Parsing succeeds with d exactly when the input is d's display name in
   * some letter case.
   */
  lemma FromStrExactlyNames(input: string, d: DataType)
    ensures FromStr(input) == Ok(d) <==> EqualsIgnoreCase(input, Name(d))
  {
    LowercaseNames();
  }

  /** Every input that is no display name in any letter case is rejected, quoting it unchanged. */
  lemma FromStrRejects(input: string)
    requires forall d: DataType :: !EqualsIgnoreCase(input, Name(d))
    ensures FromStr(input) == Err(InvalidMessage(input))
  {
    FromStrExactlyNames(input, Points);
    FromStrExactlyNames(input, Lines);
    FromStrExactlyNames(input, Polygons);
  }

  /** Parsing the display name of a geometry kind gives that kind back. */
  lemma ParseDisplayRoundTrip(d: DataType)
    ensures FromStr(Name(d)) == Ok(d)
  {
    FromStrExactlyNames(Name(d), d);
  }

  /** Parsing is insensitive to letter case. */
  lemma FromStrIgnoresCase(a: string, b: string)
    requires EqualsIgnoreCase(a, b)
    ensures FromStr(a).Ok? <==> FromStr(b).Ok?
    ensures FromStr(a).Ok? ==> FromStr(a) == FromStr(b)
  {
  }

  /** Distinct kinds get distinct codes, and the code is the declaration-order discriminant. */
  lemma CodeIsDiscriminant(d: DataType, e: DataType)
    ensures DeclarationOrder[Code(d)] == d
    ensures Code(d) == Code(e) ==> d == e
  {
    match d
    case Points =>
    case Lines =>
    case Polygons =>
  }

  /** The spellings the unit tests accept. */
  lemma FromStrAcceptsTestSpellings()
    ensures FromStr("points") == Ok(Points)
    ensures FromStr("lines") == Ok(Lines)
    ensures FromStr("polygons") == Ok(Polygons)
  {
    LowercaseNames();
    ToLowercaseIdempotent("Points");
    ToLowercaseIdempotent("Lines");
    ToLowercaseIdempotent("Polygons");
  }

  /** The spelling the unit tests reject. */
  lemma FromStrRejectsTestSpelling()
    ensures FromStr("invalid") == Err(InvalidMessage("invalid"))
  {
    var lower := ToLowercase("invalid");
    assert lower[0] == 'i';
    assert lower != "points" && lower != "lines" && lower != "polygons";
  }
}
