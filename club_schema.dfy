/**
 * The request and row shapes of a club, with the constraints the schema
 * puts on them: a name of 1 to 255 characters, and a colour code matching
 * `^#(?:[0-9a-fA-F]{3}){1,2}$`, that is "#" and then one or two groups of
 * three hexadecimal digits.
 */
module ClubSchema {
  import opened Wrappers
  import opened Folds

  const HEX_COLOR_REGEX: string := "^#(?:[0-9a-fA-F]{3}){1,2}$"
  const DEFAULT_COLOR: string := "#103105"
  const NAME_MIN_LENGTH: nat := 1
  const NAME_MAX_LENGTH: nat := 255

  /** A club row, and equally a `ClubCreate` body: the two have the same fields. */
  datatype Club = Club(
    name: string,
    description: Option<string>,
    imageUrl: Option<string>,
    colorCode: Option<string>,
    isActive: Option<bool>)

  /** A field of an update body: left out of the request, or given (possibly as null). */
  datatype Field<T> = Unset | Set(value: T)

  /** A `ClubUpdate` body. An explicit null name is not representable (see README). */
  datatype ClubUpdate = ClubUpdate(
    name: Field<string>,
    description: Field<Option<string>>,
    imageUrl: Field<Option<string>>,
    colorCode: Field<Option<string>>,
    isActive: Field<Option<bool>>)

  predicate IsHexDigit(c: char)
  {
    '0' <= c <= '9' || 'a' <= c <= 'f' || 'A' <= c <= 'F'
  }

  predicate AllHex(s: string)
  {
    forall i :: 0 <= i < |s| ==> IsHexDigit(s[i])
  }

  /** `(?:[0-9a-fA-F]{3}){min,max}$` on `rest`: between `min` and `max`
      groups of three hex digits and then the end of the string. */
  function HexGroups(rest: string, min: nat, max: nat): (b: bool)
    ensures b <==> |rest| % 3 == 0 && min <= |rest| / 3 <= max && AllHex(rest)
    decreases max
  {
    if |rest| == 0 then min == 0
    else if max == 0 || |rest| < 3 || !AllHex(rest[..3]) then false
    else HexGroups(rest[3..], if min == 0 then 0 else min - 1, max - 1)
  }

  /** `HEX_COLOR_REGEX` matches `s`. */
  function MatchesHexColor(s: string): (b: bool)
  {
    |s| >= 1 && s[0] == '#' && HexGroups(s[1..], 1, 2)
  }

  /** The pattern accepts exactly "#" followed by three or six hex digits. */
  lemma HexColorShape(s: string)
    ensures MatchesHexColor(s) <==> (|s| == 4 || |s| == 7) && s[0] == '#' && AllHex(s[1..])
  {
  }

  lemma DefaultColorMatches()
    ensures MatchesHexColor(DEFAULT_COLOR)
  {
    HexColorShape(DEFAULT_COLOR);
  }

  predicate ValidName(name: string)
  {
    NAME_MIN_LENGTH <= |name| <= NAME_MAX_LENGTH
  }

  /** A null colour is allowed; a given one must match the pattern. */
  predicate ValidColor(color: Option<string>)
  {
    color.Some? ==> MatchesHexColor(color.value)
  }

  /** The constraints of `ClubBase` / `ClubCreate`. */
  predicate ValidClub(c: Club)
  {
    ValidName(c.name) && ValidColor(c.colorCode)
  }

  /** The constraints of `ClubUpdate`: only fields that are given are checked. */
  predicate ValidClubUpdate(u: ClubUpdate)
  {
    (u.name.Set? ==> ValidName(u.name.value)) && (u.colorCode.Set? ==> ValidColor(u.colorCode.value))
  }

  /** A `ClubCreate` body that gives only a name: the optional fields take
      their defaults (no description, no image, the default colour, active). */
  function NewClub(name: string): (c: Club)
    ensures ValidName(name) <==> ValidClub(c)
    ensures c.colorCode == Some(DEFAULT_COLOR) && c.isActive == Some(true)
  {
    DefaultColorMatches();
    Club(name, None, None, Some(DEFAULT_COLOR), Some(true))
  }

  /** One entry of `club_update.model_dump(exclude_unset=True)`. */
  datatype ClubField =
    | NameField(name: string)
    | DescriptionField(description: Option<string>)
    | ImageUrlField(imageUrl: Option<string>)
    | ColorCodeField(colorCode: Option<string>)
    | IsActiveField(isActive: Option<bool>)

  /** The given fields of an update, in declaration order. */
  function Dump(u: ClubUpdate): seq<ClubField>
  {
    (if u.name.Set? then [NameField(u.name.value)] else [])
    + (if u.description.Set? then [DescriptionField(u.description.value)] else [])
    + (if u.imageUrl.Set? then [ImageUrlField(u.imageUrl.value)] else [])
    + (if u.colorCode.Set? then [ColorCodeField(u.colorCode.value)] else [])
    + (if u.isActive.Set? then [IsActiveField(u.isActive.value)] else [])
  }

  /** `setattr(club, key, value)` for one entry. */
  function SetAttr(c: Club, f: ClubField): Club
  {
    match f
    case NameField(v) => c.(name := v)
    case DescriptionField(v) => c.(description := v)
    case ImageUrlField(v) => c.(imageUrl := v)
    case ColorCodeField(v) => c.(colorCode := v)
    case IsActiveField(v) => c.(isActive := v)
  }

  /** The `setattr` loop over a list of entries, first to last. */
  function SetAttrs(c: Club, fields: seq<ClubField>): Club
  {
    Fold(c, fields, SetAttr)
  }

  function Pick<T>(f: Field<T>, current: T): T
  {
    if f.Set? then f.value else current
  }

  /** What an update means field by field: a given field takes the given
      value, every other field keeps its value. */
  function Updated(c: Club, u: ClubUpdate): Club
  {
    Club(Pick(u.name, c.name), Pick(u.description, c.description), Pick(u.imageUrl, c.imageUrl),
         Pick(u.colorCode, c.colorCode), Pick(u.isActive, c.isActive))
  }

  /** Running the `setattr` loop over the dumped fields gives the field-by-field update. */
  lemma SetAttrsOfDump(c: Club, u: ClubUpdate)
    ensures SetAttrs(c, Dump(u)) == Updated(c, u)
  {
    var a := if u.name.Set? then [NameField(u.name.value)] else [];
    var b := if u.description.Set? then [DescriptionField(u.description.value)] else [];
    var d := if u.imageUrl.Set? then [ImageUrlField(u.imageUrl.value)] else [];
    var e := if u.colorCode.Set? then [ColorCodeField(u.colorCode.value)] else [];
    var f := if u.isActive.Set? then [IsActiveField(u.isActive.value)] else [];
    FoldAppend(c, a, b, SetAttr);
    FoldAppend(c, a + b, d, SetAttr);
    FoldAppend(c, a + b + d, e, SetAttr);
    FoldAppend(c, a + b + d + e, f, SetAttr);
  }


  /** A valid update keeps a valid club valid. */
  lemma UpdatePreservesValidity(c: Club, u: ClubUpdate)
    requires ValidClub(c) && ValidClubUpdate(u)
    ensures ValidClub(Updated(c, u))
  {
  }

  /** An empty update changes nothing, and applying an update twice is applying it once. */
  lemma UpdateIdentityAndIdempotence(c: Club, u: ClubUpdate)
    ensures Updated(c, ClubUpdate(Unset, Unset, Unset, Unset, Unset)) == c
    ensures Updated(Updated(c, u), u) == Updated(c, u)
  {
  }
}
