/**
 * The colour check of the club form on the front end: the zod schema's
 * `color_code` is a nullable, optional string matching the JavaScript
 * pattern `/^#(?:[0-9a-fA-F]{3}){1,2}$/`. The pattern is read here
 * structurally (a '#', then one or two groups of three hex digits, then the
 * end of the string) and shown to accept exactly the colours the back end's
 * `ClubBase` schema accepts.
 */
module ClubForm {
  import opened Wrappers
  import ClubSchema

  /** `[0-9a-fA-F]{3}` on exactly `g`. */
  predicate HexTriple(g: string)
  {
    |g| == 3 && ClubSchema.IsHexDigit(g[0]) && ClubSchema.IsHexDigit(g[1]) && ClubSchema.IsHexDigit(g[2])
  }

  /** `(?:[0-9a-fA-F]{3}){1,2}$` on the rest of the string: one group, or two. */
  predicate OneOrTwoTriples(r: string)
  {
    HexTriple(r) || (|r| == 6 && HexTriple(r[..3]) && HexTriple(r[3..]))
  }

  /** The zod `.regex(...)` test on a given colour string. */
  predicate FormAcceptsColorCode(s: string)
  {
    |s| >= 1 && s[0] == '#' && OneOrTwoTriples(s[1..])
  }

  /** `.nullable().optional()`: a missing or null colour passes; `None` stands for both. */
  predicate FormAcceptsColor(c: Option<string>)
  {
    c.None? || FormAcceptsColorCode(c.value)
  }

  /** The form and the back end accept the same colour strings, and both let a null colour through. */
  lemma FormAndSchemaAgreeOnColors(c: Option<string>)
    ensures FormAcceptsColor(c) <==> ClubSchema.ValidColor(c)
  {
    if c.Some? {
      var s := c.value;
      ClubSchema.HexColorShape(s);
      if |s| >= 1 {
        var r := s[1..];
        if |r| == 6 {
          assert ClubSchema.AllHex(r) <==> ClubSchema.AllHex(r[..3]) && ClubSchema.AllHex(r[3..]) by {
            assert forall i :: 0 <= i < 3 ==> r[..3][i] == r[i] && r[3..][i] == r[i + 3];
          }
        }
      }
    }
  }

  /** The form's initial colour "#103105" passes its own check. */
  lemma FormDefaultColorAccepted()
    ensures FormAcceptsColorCode(ClubSchema.DEFAULT_COLOR)
  {
    FormAndSchemaAgreeOnColors(Some(ClubSchema.DEFAULT_COLOR));
    ClubSchema.DefaultColorMatches();
  }
}
