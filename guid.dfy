/**
 * The client's identifier and logging helpers: the text layout of the generated
 * identifiers, which imitates the 8-4-4-4-12 form of a version-4 UUID (section 3 of
 * RFC 4122, with the version digit of section 4.1.3 and the variant digit of
 * section 4.1.1), and the condition under which a log line is printed.
 *
 * The clock and the random number generator are not modelled: their text is a parameter.
 */
module Guid {
  import opened Wrappers

  /** JavaScript's `substr(start, length)` for non-negative arguments: clamped to the end of the string. */
  function Substr(u: string, start: nat, length: nat): (r: string)
    ensures |r| <= length
    ensures start + length <= |u| ==> r == u[start..start + length]
    ensures start >= |u| ==> r == ""
    ensures forall i :: 0 <= i < |r| ==> start + i < |u| && r[i] == u[start + i]
  {
    if start >= |u| then ""
    else if start + length <= |u| then u[start..start + length]
    else u[start..]
  }

  /** The text the identifier is cut from: the clock in hex, the random number in hex, sixteen zeros. */
  function GuidSource(timeHex: string, randomHex: string): string
  {
    timeHex + randomHex + "0000000000000000"
  }

  /** `generateGUIDv4`, given its source text `u`. */
  function FormatGuid(u: string): (g: string)
    ensures 9 <= |g| <= 36
    ensures |u| >= 28 ==> |g| == 36
  {
    Substr(u, 0, 8) + "-" + Substr(u, 8, 4) + "-" + "4000-8" + Substr(u, 13, 3) + "-" + Substr(u, 16, 12)
  }

  /**
   * With at least 28 characters of source text, the identifier has the 8-4-4-4-12 layout:
   * 36 characters, dashes at 8, 13, 18 and 23, the version group `4000`, the variant
   * digit `8`, and the source's characters 0-11 and 13-27 in order around them.
   */
  lemma GuidLayout(u: string)
    requires |u| >= 28
    ensures |FormatGuid(u)| == 36
    ensures FormatGuid(u)[8] == '-' && FormatGuid(u)[13] == '-' && FormatGuid(u)[18] == '-' && FormatGuid(u)[23] == '-'
    ensures FormatGuid(u)[14..18] == "4000" && FormatGuid(u)[19] == '8'
    ensures FormatGuid(u)[..8] == u[..8] && FormatGuid(u)[9..13] == u[8..12]
    ensures FormatGuid(u)[20..23] == u[13..16] && FormatGuid(u)[24..] == u[16..28]
  {
    var g := FormatGuid(u);
    assert g == u[0..8] + "-" + u[8..12] + "-" + "4000-8" + u[13..16] + "-" + u[16..28];
  }

  /**
   * Whatever the length of the source text, the version group and the variant digit are
   * there, no later than where the layout puts them.
   */
  lemma GuidAlwaysMarked(u: string)
    ensures var k := |Substr(u, 0, 8)| + 1 + |Substr(u, 8, 4)|;
      k <= 13 && k + 7 <= |FormatGuid(u)| && FormatGuid(u)[k..k + 7] == "-4000-8"
  {
    var a, b := Substr(u, 0, 8) + "-" + Substr(u, 8, 4), Substr(u, 13, 3) + "-" + Substr(u, 16, 12);
    assert FormatGuid(u) == a + "-4000-8" + b;
    assert FormatGuid(u)[|a|..|a| + 7] == "-4000-8";
  }

  /** The source character at index 12 never reaches the identifier. */
  lemma GuidSkipsIndex12(u: string, c: char)
    requires |u| > 12
    ensures FormatGuid(u[12 := c]) == FormatGuid(u)
  {
    var v := u[12 := c];
    assert Substr(v, 0, 8) == Substr(u, 0, 8);
    assert Substr(v, 8, 4) == Substr(u, 8, 4);
    assert Substr(v, 13, 3) == Substr(u, 13, 3);
    assert Substr(v, 16, 12) == Substr(u, 16, 12);
  }

  /** A lower-case hex digit, as `toString(16)` writes them. */
  predicate HexChar(c: char)
  {
    '0' <= c <= '9' || 'a' <= c <= 'f'
  }

  /**
   * With an 11-digit clock and a random number printed as `0.` and hex digits, the
   * point of the random number falls on index 12 of the source, so the identifier is
   * 36 characters of hex digits and dashes.
   */
  lemma GuidIsHex(timeHex: string, fraction: string)
    requires |timeHex| == 11 && forall i :: 0 <= i < |timeHex| ==> HexChar(timeHex[i])
    requires forall i :: 0 <= i < |fraction| ==> HexChar(fraction[i])
    ensures |FormatGuid(GuidSource(timeHex, "0." + fraction))| == 36
    ensures forall i :: 0 <= i < 36 ==>
      var c := FormatGuid(GuidSource(timeHex, "0." + fraction))[i];
      HexChar(c) || c == '-'
  {
    var u := GuidSource(timeHex, "0." + fraction);
    assert |u| >= 28;
    GuidLayout(u);
    assert forall i :: 0 <= i < |u| && i != 12 ==> HexChar(u[i]) by {
      forall i | 0 <= i < |u| && i != 12
        ensures HexChar(u[i])
      {
        if i < 11 {
          assert u[i] == timeHex[i];
        } else if i == 11 {
          assert u[i] == '0';
        } else if i < 13 + |fraction| {
          assert u[i] == fraction[i - 13];
        } else {
          assert u[i] == '0';
        }
      }
    }
    var g := FormatGuid(u);
    forall i | 0 <= i < 36
      ensures HexChar(g[i]) || g[i] == '-'
    {
      if i < 8 {
        assert g[i] == g[..8][i] == u[i];
      } else if 9 <= i < 13 {
        assert g[i] == g[9..13][i - 9] == u[i - 1];
      } else if 14 <= i < 18 {
        assert g[i] == g[14..18][i - 14];
      } else if 20 <= i < 23 {
        assert g[i] == g[20..23][i - 20] == u[i - 7];
      } else if 24 <= i {
        assert g[i] == g[24..][i - 24] == u[i - 8];
      }
    }
  }

  /** The settings the client ships with: logging on, verbose messages off. */
  const LOG: bool := true
  const VERBOSE: bool := false

  /**
   * `log`'s guard: whether a call prints, given the two settings and whether the call has
   * a first argument that carries a truthy `verbose` (`None` when there are no arguments).
   */
  predicate LogPrints(logOn: bool, verboseOn: bool, firstVerbose: Option<bool>): (b: bool)
    ensures b ==> logOn
    ensures logOn && (verboseOn || firstVerbose != Some(true)) ==> b
  {
    !(!logOn || (!verboseOn && firstVerbose.Some? && firstVerbose.value))
  }

  /** Nothing prints with logging off; with the shipped settings, exactly the calls not marked verbose print. */
  lemma LogFilter(verboseOn: bool, firstVerbose: Option<bool>)
    ensures !LogPrints(false, verboseOn, firstVerbose)
    ensures LogPrints(true, true, firstVerbose)
    ensures LogPrints(LOG, VERBOSE, firstVerbose) <==> firstVerbose != Some(true)
  {
  }
}
