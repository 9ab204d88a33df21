/** Timestamp formats the calendar exports produce: the extended form
    `Date.prototype.toISOString` writes and the basic UTC DATE-TIME of
    section 3.3.5 of RFC 5545, and the default event length. */
module Stamps {
  import opened Strs

  /** The shape `toISOString` produces for years 0 to 9999: `YYYY-MM-DDTHH:MM:SS.sssZ`. */
  predicate IsoShaped(u: string) {
    |u| == 24 && u[4] == '-' && u[7] == '-' && u[10] == 'T' && u[13] == ':' && u[16] == ':'
    && u[19] == '.' && u[23] == 'Z'
    && forall i :: 0 <= i < 23 && i != 4 && i != 7 && i != 10 && i != 13 && i != 16 && i != 19 ==>
         IsDigit(u[i])
  }

  /** The UTC DATE-TIME of section 3.3.5 of RFC 5545 in its basic form: `YYYYMMDDTHHMMSSZ`. */
  predicate BasicUtcDateTime(b: string) {
    |b| == 16 && b[8] == 'T' && b[15] == 'Z'
    && forall i :: 0 <= i < 15 && i != 8 ==> IsDigit(b[i])
  }

  function BasicForm(u: string): string
    requires |u| >= 19
  {
    u[0..4] + u[5..7] + u[8..10] + "T" + u[11..13] + u[14..16] + u[17..19] + "Z"
  }

  lemma BasicFormShape(u: string)
    requires IsoShaped(u)
    ensures BasicUtcDateTime(BasicForm(u))
  {
    var b := BasicForm(u);
    forall i | 0 <= i < 15 && i != 8 ensures IsDigit(b[i]) {
      if i < 4 { assert b[i] == u[i]; }
      else if i < 6 { assert b[i] == u[i + 1]; }
      else if i < 8 { assert b[i] == u[i + 2]; }
      else if i < 11 { assert b[i] == u[i + 2]; }
      else if i < 13 { assert b[i] == u[i + 3]; }
      else { assert b[i] == u[i + 4]; }
    }
  }

  /** The runs between the separators, put back together in front of
      `rest`, are the basic date and time followed by `rest`. */
  lemma BasicFormRuns(u: string, rest: string)
    requires |u| >= 19 && u[10] == 'T'
    ensures u[0..4] + (u[5..7] + (u[8..13] + (u[14..16] + (u[17..19] + rest)))) == BasicForm(u)[..15] + rest
    ensures BasicForm(u)[..15] + "Z" == BasicForm(u)
  {
    assert u[8..13] == u[8..10] + "T" + u[11..13];
  }

  /** Every calendar export ends an event three hours after its start. */
  const ThreeHoursMs: int := 3 * 3600 * 1000
}
