/**
 * The manufacturer label shown for a scanned device: from the advertised
 * manufacturer data when there is any (the lowest company identifier decides),
 * otherwise from brand words in the device name.
 */
module Manufacturer {
  import opened Wrappers
  import opened Text

  /** Bluetooth SIG company identifiers the client names. */
  const CompanyIds: map<int, string> := map[
    0x004C := "Apple",
    0x0006 := "Microsoft",
    0x000F := "Broadcom",
    0x0075 := "Samsung",
    0x0087 := "Garmin",
    0x00D2 := "Wahoo Fitness",
    0x011F := "Tacx",
    0x04D8 := "Elite"]

  /** Lower-case words in a device name and the brand each one stands for, in the order tried. */
  const BrandHints: seq<(string, string)> := [
    ("wahoo", "Wahoo Fitness"),
    ("kicker", "Wahoo Fitness"),
    ("kickr", "Wahoo Fitness"),
    ("elite", "Elite"),
    ("direto", "Elite"),
    ("suito", "Elite"),
    ("tacx", "Tacx"),
    ("garmin", "Garmin"),
    ("saris", "Saris"),
    ("stages", "Stages"),
    ("zwift", "Zwift")]

  /** An upper-case hexadecimal digit. */
  function HexDigit(d: nat): (c: char)
    requires d < 16
  {
    if d < 10 then ('0' as int + d) as char else ('A' as int + d - 10) as char
  }

  predicate IsHexDigit(c: char) { '0' <= c <= '9' || 'A' <= c <= 'F' }

  function HexDigitValue(c: char): (d: nat)
    requires IsHexDigit(c)
    ensures d < 16 && HexDigit(d) == c
  {
    if c <= '9' then c as int - '0' as int else c as int - 'A' as int + 10
  }

  /** The shortest upper-case hexadecimal form of `n`. */
  function Hex(n: nat): (s: string)
    ensures |s| >= 1 && forall k :: 0 <= k < |s| ==> IsHexDigit(s[k])
    ensures n < 0x10 ==> |s| == 1
    ensures n < 0x100 ==> |s| <= 2
    ensures n < 0x1000 ==> |s| <= 3
    ensures n < 0x1_0000 ==> |s| <= 4
  {
    if n < 16 then [HexDigit(n)] else Hex(n / 16) + [HexDigit(n % 16)]
  }

  /** `f"{n:04X}"`: the hexadecimal form, padded with zeros to at least four digits. */
  function Hex04(n: nat): (s: string)
    ensures |s| >= 4 && forall k :: 0 <= k < |s| ==> IsHexDigit(s[k])
    ensures n < 0x1_0000 ==> |s| == 4
  {
    var h := Hex(n);
    if |h| >= 4 then h else seq(4 - |h|, _ => '0') + h
  }

  /** The value of a run of hexadecimal digits. */
  function HexValue(s: string): nat
    requires forall k :: 0 <= k < |s| ==> IsHexDigit(s[k])
  {
    if s == [] then 0 else HexValue(s[..|s| - 1]) * 16 + HexDigitValue(s[|s| - 1])
  }

  /** Reading the hexadecimal form back gives the number. */
  lemma {:induction false} HexRoundTrip(n: nat)
    ensures HexValue(Hex(n)) == n
  {
    if n >= 16 {
      var s := Hex(n);
      assert s[..|s| - 1] == Hex(n / 16);
      HexRoundTrip(n / 16);
    }
  }

  /** Leading zeros add nothing to a hexadecimal value. */
  lemma {:induction false} LeadingZeros(z: nat, s: string)
    requires forall k :: 0 <= k < |s| ==> IsHexDigit(s[k])
    ensures HexValue(seq(z, _ => '0') + s) == HexValue(s)
  {
    var t := seq(z, _ => '0') + s;
    if s == [] {
      assert t == seq(z, _ => '0');
      ZerosValue(z);
    } else {
      assert t[..|t| - 1] == seq(z, _ => '0') + s[..|s| - 1];
      LeadingZeros(z, s[..|s| - 1]);
    }
  }

  lemma {:induction false} ZerosValue(z: nat)
    ensures HexValue(seq(z, _ => '0')) == 0
  {
    if z > 0 {
      assert seq(z, _ => '0')[..z - 1] == seq(z - 1, _ => '0');
      ZerosValue(z - 1);
    }
  }

  /** The padded form still reads back as the number. */
  lemma Hex04RoundTrip(n: nat)
    ensures HexValue(Hex04(n)) == n
  {
    HexRoundTrip(n);
    var h := Hex(n);
    if |h| < 4 {
      LeadingZeros(4 - |h|, h);
    }
  }

  /** The label for a company identifier: its name when known, else `MFG 0x` and the identifier in hex. */
  function CompanyName(id: nat): (s: string)
    ensures id in CompanyIds ==> s == CompanyIds[id]
    ensures id !in CompanyIds ==>
      |s| >= 10 && s[..6] == "MFG 0x" && (forall k :: 6 <= k < |s| ==> IsHexDigit(s[k])) && HexValue(s[6..]) == id
  {
    if id in CompanyIds then CompanyIds[id]
    else
      Hex04RoundTrip(id);
      var s := "MFG 0x" + Hex04(id);
      assert s[6..] == Hex04(id);
      s
  }

  /** The smallest of the identifiers: the one `sorted(...)` puts first. */
  function Smallest(ids: seq<nat>): (m: nat)
    requires |ids| > 0
    ensures m in ids && forall k :: 0 <= k < |ids| ==> m <= ids[k]
  {
    if |ids| == 1 then ids[0]
    else
      var rest := Smallest(ids[1..]);
      assert forall k :: 1 <= k < |ids| ==> ids[k] == ids[1..][k - 1];
      if ids[0] <= rest then ids[0] else rest
  }

  /** `needle in haystack` for strings. */
  predicate Contains(haystack: string, needle: string)
    decreases |haystack|
  {
    |needle| <= |haystack| && (haystack[..|needle|] == needle || Contains(haystack[1..], needle))
  }

  /** The needle occurs in the haystack starting at position `i`. */
  predicate OccursAt(haystack: string, needle: string, i: int) {
    0 <= i && i + |needle| <= |haystack| && haystack[i..i + |needle|] == needle
  }

  /** Containment means the needle occurs at some position. */
  lemma {:induction false} ContainsOccurs(haystack: string, needle: string)
    decreases |haystack|
    ensures Contains(haystack, needle) <==> exists i :: OccursAt(haystack, needle, i)
  {
    if |needle| <= |haystack| {
      if haystack[..|needle|] == needle {
        assert OccursAt(haystack, needle, 0);
      } else {
        var tail := haystack[1..];
        ContainsOccurs(tail, needle);
        if Contains(tail, needle) {
          var i :| OccursAt(tail, needle, i);
          assert haystack[i + 1..i + 1 + |needle|] == tail[i..i + |needle|];
          assert OccursAt(haystack, needle, i + 1);
        }
        if exists i :: OccursAt(haystack, needle, i) {
          var i :| OccursAt(haystack, needle, i);
          assert i != 0;
          assert tail[i - 1..i - 1 + |needle|] == haystack[i..i + |needle|];
          assert OccursAt(tail, needle, i - 1);
        }
      }
    } else {
      assert forall i :: !OccursAt(haystack, needle, i);
    }
  }

  /** The brand of the first hint from `k` on that occurs in the lower-cased name. */
  function HintFrom(lowered: string, k: nat): (b: Option<string>)
    requires k <= |BrandHints|
    decreases |BrandHints| - k
  {
    if k == |BrandHints| then None
    else if Contains(lowered, BrandHints[k].0) then Some(BrandHints[k].1)
    else HintFrom(lowered, k + 1)
  }

  /**
   * `_resolve_manufacturer`, with the manufacturer data given by its company
   * identifiers (empty when the advertisement carries none).
   */
  function ResolveManufacturer(name: string, companyIds: seq<nat>): Option<string> {
    if |companyIds| > 0 then Some(CompanyName(Smallest(companyIds)))
    else HintFrom(Lower(name), 0)
  }

  /**
   * `_resolve_manufacturer` as the source runs it: with manufacturer data, the
   * first of the sorted identifiers decides; otherwise the brand hints are
   * scanned in table order and the first that occurs in the lower-cased name wins.
   */
  method ResolveManufacturerScan(name: string, companyIds: seq<nat>) returns (r: Option<string>)
    ensures r == ResolveManufacturer(name, companyIds)
  {
    if |companyIds| > 0 {
      return Some(CompanyName(Smallest(companyIds)));
    }
    var lowered := Lower(name);
    var k := 0;
    while k < |BrandHints|
      invariant 0 <= k <= |BrandHints|
      invariant HintFrom(lowered, k) == HintFrom(lowered, 0)
    {
      if Contains(lowered, BrandHints[k].0) {
        return Some(BrandHints[k].1);
      }
      k := k + 1;
    }
    return None;
  }

  /**
   * With manufacturer data present the smallest identifier decides and the name
   * is not looked at.
   */
  lemma ManufacturerDataFirst(name: string, other: string, companyIds: seq<nat>)
    requires |companyIds| > 0
    ensures ResolveManufacturer(name, companyIds) == ResolveManufacturer(other, companyIds)
    ensures var m := Smallest(companyIds);
      ResolveManufacturer(name, companyIds) == Some(CompanyName(m)) &&
      m in companyIds && forall k :: 0 <= k < |companyIds| ==> m <= companyIds[k]
  {
  }

  /**
   * Without manufacturer data the brand of the first hint in table order that
   * occurs in the lower-cased name is returned, and nothing when none occurs.
   */
  lemma {:induction false} FirstHintWins(lowered: string, k: nat)
    requires k <= |BrandHints|
    decreases |BrandHints| - k
    ensures HintFrom(lowered, k).Some? <==> exists j :: k <= j < |BrandHints| && Contains(lowered, BrandHints[j].0)
    ensures HintFrom(lowered, k).Some? ==>
      exists j :: k <= j < |BrandHints| && Contains(lowered, BrandHints[j].0) &&
        HintFrom(lowered, k).value == BrandHints[j].1 &&
        forall i :: k <= i < j ==> !Contains(lowered, BrandHints[i].0)
  {
    if k < |BrandHints| && !Contains(lowered, BrandHints[k].0) {
      FirstHintWins(lowered, k + 1);
    }
  }

  /** Identifiers 0x04D8 and 0x0087 resolve to Garmin (the smaller); an unknown one to its hex code. */
  lemma CompanyExamples()
    ensures ResolveManufacturer("", [0x04D8, 0x0087]) == Some("Garmin")
    ensures ResolveManufacturer("", [0x00AB]) == Some("MFG 0x00AB")
  {
    assert Smallest([0x04D8, 0x0087]) == 0x0087;
    assert 0xAB !in CompanyIds;
    assert Hex(0xAB) == "AB" by {
      assert Hex(0xA) == "A";
    }
    assert seq(2, _ => '0') == "00";
    assert Hex04(0xAB) == "00AB";
    assert "MFG 0x" + "00AB" == "MFG 0x00AB";
  }

  /** A name with "KICKR" resolves to Wahoo Fitness; a name with no brand word to nothing. */
  lemma NameExamples()
    ensures ResolveManufacturer("KICKR", []) == Some("Wahoo Fitness")
    ensures ResolveManufacturer("", []) == None
  {
    assert Lower("KICKR") == "kickr";
    assert !Contains("kickr", "wahoo") && !Contains("kickr", "kicker");
    assert Contains("kickr", "kickr");
    assert forall j :: 0 <= j < |BrandHints| ==> !Contains("", BrandHints[j].0);
    FirstHintWins("", 0);
  }
}
