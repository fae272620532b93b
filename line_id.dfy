/** The production line id derived from a workstation name
    (`get_line`): the first two characters of the name followed by the
    number written in characters 2..4, without leading zeros. */
module LineId {
  import opened Text

  function Min(a: int, b: int): int {
    if a <= b then a else b
  }

  /** Python's `workstation[0:4]`. */
  function Head(workstation: string): string {
    workstation[..Min(4, |workstation|)]
  }

  /** Python's `workstation[0:4][2:]`, the digits naming the line. */
  function LineDigits(workstation: string): string
    requires |workstation| >= 2
  {
    workstation[2..Min(4, |workstation|)]
  }

  /** `int(parts[1])` succeeds: the line digits are one or two ASCII
      digits. Otherwise Python raises ValueError. */
  predicate WellFormed(workstation: string) {
    |workstation| >= 3 && AllDigits(LineDigits(workstation))
  }

  function GetLine(workstation: string): (line: string)
    requires WellFormed(workstation)
    ensures 3 <= |line| <= |Head(workstation)|
    ensures line[..2] == workstation[..2]
    ensures Canonical(line[2..])
    ensures ParseNat(line[2..]) == ParseNat(LineDigits(workstation))
  {
    NatToStringNoLonger(LineDigits(workstation));
    var line := workstation[..2] + NatToString(ParseNat(LineDigits(workstation)));
    assert line[2..] == NatToString(ParseNat(LineDigits(workstation)));
    line
  }

  /** The default workstation name maps to line "3L6". */
  lemma GetLineOfDefaultWorkstation()
    ensures WellFormed("3L06B1AO17") && GetLine("3L06B1AO17") == "3L6"
  {
    var w := "3L06B1AO17";
    assert LineDigits(w) == "06";
    assert ParseNat("06") == 6 by {
      assert "06"[..1] == "0" && "0"[..0] == [];
    }
  }

  /** Only the first four characters of the workstation name matter. */
  lemma GetLineReadsOnlyHead(w1: string, w2: string)
    requires WellFormed(w1) && WellFormed(w2)
    requires Head(w1) == Head(w2)
    ensures GetLine(w1) == GetLine(w2)
  {
    assert LineDigits(w1) == Head(w1)[2..];
    assert LineDigits(w2) == Head(w2)[2..];
    assert w1[..2] == Head(w1)[..2] && w2[..2] == Head(w2)[..2];
  }

  /** A leading zero of the line number is dropped, any other digit pair
      is kept as it is: "3L06…" gives "3L6", "3L00…" gives "3L0", "3L10…"
      gives "3L10". */
  lemma {:induction false} GetLineDropsLeadingZero(w: string)
    requires WellFormed(w) && |w| >= 4
    ensures w[2] == '0' ==> GetLine(w) == w[..2] + [w[3]]
    ensures w[2] != '0' ==> GetLine(w) == w[..4]
  {
    var digits := LineDigits(w);
    assert digits == [w[2], w[3]];
    if w[2] == '0' {
      assert digits[..1] == "0" && "0"[..0] == [];
      assert ParseNat(digits) == ParseNat([w[3]]) by {
        assert [w[3]][..0] == [];
      }
      CanonicalRoundTrip([w[3]]);
    } else {
      CanonicalRoundTrip(digits);
      assert w[..4] == w[..2] + digits;
    }
  }

  /** A line id is itself a well-formed workstation name that maps to
      itself, so `get_line` is idempotent. */
  lemma {:induction false} GetLineIdempotent(w: string)
    requires WellFormed(w)
    ensures WellFormed(GetLine(w))
    ensures GetLine(GetLine(w)) == GetLine(w)
  {
    var line := GetLine(w);
    assert LineDigits(line) == line[2..];
    CanonicalRoundTrip(line[2..]);
    assert line == line[..2] + line[2..];
  }
}
