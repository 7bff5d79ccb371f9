/**
 * A reverse-geocoding candidate and the two-line address text the screen
 * shows for it (`string(from:)` in CurrentLocationViewController.swift).
 */
module Address {
  import opened Wrappers

  /** The five placemark components the address text is built from. */
  datatype Placemark = Placemark(
    subThoroughfare: Option<string>,     // house number
    thoroughfare: Option<string>,        // street name
    locality: Option<string>,            // city
    administrativeArea: Option<string>,  // state or province
    postalCode: Option<string>)

  /** `x` ends `s`. */
  predicate IsSuffix(x: string, s: string) {
    |x| <= |s| && s[|s| - |x|..] == x
  }

  /** No component contains a line break. */
  predicate SingleLineFields(p: Placemark) {
    '\n' !in TextOr(p.subThoroughfare) && '\n' !in TextOr(p.thoroughfare) &&
    '\n' !in TextOr(p.locality) && '\n' !in TextOr(p.administrativeArea) &&
    '\n' !in TextOr(p.postalCode)
  }

  /** First line: the house number and a space (only when present), then the street. */
  function Line1(p: Placemark): (line1: string)
    ensures p.subThoroughfare.None? && p.thoroughfare.None? ==> line1 == ""
    ensures p.subThoroughfare.Some? ==> p.subThoroughfare.value + " " <= line1
    ensures p.thoroughfare.Some? ==> IsSuffix(p.thoroughfare.value, line1)
    ensures p.subThoroughfare.None? ==> line1 == TextOr(p.thoroughfare)
    ensures |line1| == (if p.subThoroughfare.Some? then |p.subThoroughfare.value| + 1 else 0) +
                       |TextOr(p.thoroughfare)|
  {
    var house := if p.subThoroughfare.Some? then p.subThoroughfare.value + " " else "";
    if p.thoroughfare.Some? then house + p.thoroughfare.value else house
  }

  /**
   * Second line: the city and a space, or failing a city the state and a
   * space, then the postal code.
   */
  function Line2(p: Placemark): (line2: string)
    ensures p.locality.Some? ==> p.locality.value + " " <= line2
    ensures p.locality.None? && p.administrativeArea.Some? ==> p.administrativeArea.value + " " <= line2
    ensures p.postalCode.Some? ==> IsSuffix(p.postalCode.value, line2)
    ensures p.locality.None? && p.administrativeArea.None? ==> line2 == TextOr(p.postalCode)
    ensures |line2| == (if p.locality.Some? then |p.locality.value| + 1
                        else if p.administrativeArea.Some? then |p.administrativeArea.value| + 1
                        else 0) +
                       |TextOr(p.postalCode)|
  {
    var region :=
      if p.locality.Some? then p.locality.value + " "
      else if p.administrativeArea.Some? then p.administrativeArea.value + " "
      else "";
    if p.postalCode.Some? then region + p.postalCode.value else region
  }

  /** The address text: line 1, a line break, line 2. */
  function FormatAddress(p: Placemark): (r: string)
    ensures '\n' in r
    ensures p.subThoroughfare.Some? ==> p.subThoroughfare.value + " " <= r
    ensures p.postalCode.Some? ==> IsSuffix(p.postalCode.value, r)
    ensures Line1(p) + "\n" <= r && IsSuffix(Line2(p), r)
    ensures |r| == |Line1(p)| + 1 + |Line2(p)|
  {
    Line1(p) + "\n" + Line2(p)
  }

  /** The number of line breaks in `s`. */
  function CountNewlines(s: string): (n: nat)
    ensures n <= |s|
    ensures n == 0 <==> '\n' !in s
  {
    if s == [] then 0
    else (if s[0] == '\n' then 1 else 0) + CountNewlines(s[1..])
  }

  lemma {:induction false} CountNewlinesConcat(a: string, b: string)
    ensures CountNewlines(a + b) == CountNewlines(a) + CountNewlines(b)
  {
    if a == [] {
      assert a + b == b;
    } else {
      assert (a + b)[1..] == a[1..] + b;
      CountNewlinesConcat(a[1..], b);
    }
  }

  /** When no component spans lines, the address text has exactly one line break. */
  lemma FormatAddressHasOneNewline(p: Placemark)
    requires SingleLineFields(p)
    ensures CountNewlines(FormatAddress(p)) == 1
  {
    var l1, l2 := Line1(p), Line2(p);
    assert '\n' !in l1 by {
      var house := if p.subThoroughfare.Some? then p.subThoroughfare.value + " " else "";
      assert '\n' !in house;
    }
    assert '\n' !in l2 by {
      var region :=
        if p.locality.Some? then p.locality.value + " "
        else if p.administrativeArea.Some? then p.administrativeArea.value + " "
        else "";
      assert '\n' !in region;
    }
    CountNewlinesConcat(l1, "\n");
    CountNewlinesConcat(l1 + "\n", l2);
  }

  /** Splits a text at its first line break (the whole text and "" when there is none). */
  function SplitAtNewline(s: string): (r: (string, string))
    ensures '\n' !in r.0
    ensures '\n' in s ==> s == r.0 + "\n" + r.1
    ensures '\n' !in s ==> r == (s, "")
  {
    if s == [] then ("", "")
    else if s[0] == '\n' then ("", s[1..])
    else
      var rest := SplitAtNewline(s[1..]);
      assert s == [s[0]] + s[1..];
      ([s[0]] + rest.0, rest.1)
  }

  lemma {:induction false} SplitAtNewlineJoin(a: string, b: string)
    requires '\n' !in a
    ensures SplitAtNewline(a + "\n" + b) == (a, b)
  {
    if a == [] {
      assert a + "\n" + b == "\n" + b;
    } else {
      var s := a + "\n" + b;
      assert s[0] == a[0] && a[0] != '\n';
      assert s[1..] == a[1..] + "\n" + b;
      SplitAtNewlineJoin(a[1..], b);
      assert [a[0]] + a[1..] == a;
    }
  }

  /**
   * Reading the address text back: the part before the line break is line 1
   * and the rest is line 2, whenever the house number and street are single-line.
   */
  lemma FormatAddressSplits(p: Placemark)
    requires '\n' !in TextOr(p.subThoroughfare) && '\n' !in TextOr(p.thoroughfare)
    ensures SplitAtNewline(FormatAddress(p)) == (Line1(p), Line2(p))
  {
    var house := if p.subThoroughfare.Some? then p.subThoroughfare.value + " " else "";
    assert '\n' !in house;
    assert '\n' !in Line1(p);
    SplitAtNewlineJoin(Line1(p), Line2(p));
  }

  /** The state or province is ignored whenever a city is present. */
  lemma LocalityShadowsAdministrativeArea(p: Placemark, area: Option<string>)
    requires p.locality.Some?
    ensures FormatAddress(p.(administrativeArea := area)) == FormatAddress(p)
  {
  }
}
