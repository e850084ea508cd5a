/** The location resolver: finds an ISO 6709 coordinate (Annex H text form of
    ISO 6709:2008) in the container's `location` tag and names the nearest
    city to it. */
module Location {
  import opened Wrappers
  import opened Decimal
  import opened Probe

  const LocationTag := "location"
  const UnknownLocation := "Unknown location"
  /** Radius handed to the nearest-city lookup, in metres. */
  const SearchRadius: nat := 100 * 1000

  /** A position in ten-thousandths of a degree: the pattern admits exactly
      four decimals, so the degrees are these integers divided by 10000. */
  datatype Coordinate = Coordinate(latitude: int, longitude: int)

  /** The nearest-city lookup: latitude and longitude in ten-thousandths of a
      degree and a radius in metres, to the names of the cities within that
      radius, nearest first. */
  type CityLookup = (int, int, nat) -> seq<string>

  predicate IsSign(c: char) {
    c == '+' || c == '-'
  }

  /** A signed fixed-point number with `whole` integer digits and four
      decimals: `[+-]\d\d\.\d\d\d\d` for whole = 2, `[+-]\d\d\d\.\d\d\d\d` for
      whole = 3. */
  predicate FixedText(t: string, whole: nat) {
    |t| == whole + 6 && IsSign(t[0]) && AllDigits(t[1..whole + 1])
    && t[whole + 1] == '.' && AllDigits(t[whole + 2..])
  }

  /** The number a fixed-point text denotes, in ten-thousandths. */
  function FixedValue(t: string, whole: nat): int
    requires FixedText(t, whole)
  {
    var magnitude: int := Value(t[1..whole + 1]) * 10000 + Value(t[whole + 2..]);
    if t[0] == '-' then -magnitude else magnitude
  }

  /** The pattern `([+-]\d\d\.\d\d\d\d)([+-]\d\d\d\.\d\d\d\d)\/` matches s at
      offset i: a latitude, a longitude and a slash, 18 characters in all. */
  predicate MatchesAt(s: string, i: int) {
    0 <= i && i + 18 <= |s| && FixedText(s[i..i + 8], 2)
    && FixedText(s[i + 8..i + 17], 3) && s[i + 17] == '/'
  }

  /** The two captured groups of a match, as numbers. */
  function DecodeAt(s: string, i: int): Coordinate
    requires MatchesAt(s, i)
  {
    Coordinate(FixedValue(s[i..i + 8], 2), FixedValue(s[i + 8..i + 17], 3))
  }

  /** The leftmost offset at or after `from` where the pattern matches. */
  function FirstMatch(s: string, from: nat): (r: Option<nat>)
    requires from <= |s|
    ensures r.Some? ==> from <= r.value && MatchesAt(s, r.value)
                        && forall k :: from <= k < r.value ==> !MatchesAt(s, k)
    ensures r.None? ==> forall k :: from <= k ==> !MatchesAt(s, k)
    decreases |s| - from
  {
    if from + 18 > |s| then None
    else if MatchesAt(s, from) then Some(from)
    else FirstMatch(s, from + 1)
  }

  /** The unanchored regular-expression search of the `location` tag: the
      coordinate of the leftmost match, or none when nothing matches. */
  function ParseLocation(s: string): (r: Option<Coordinate>)
    ensures r.None? <==> forall k :: !MatchesAt(s, k)
    ensures r.Some? ==> exists i :: MatchesAt(s, i) && r.value == DecodeAt(s, i)
                                    && forall k :: k < i ==> !MatchesAt(s, k)
  {
    match FirstMatch(s, 0)
    case None => None
    case Some(i) => Some(DecodeAt(s, i))
  }

  /** getCityName: "Unknown location" when the tag is missing or empty, when
      no coordinate is found in it, or when either coordinate is zero; then the
      nearest city within 100 km, or "Unknown location" when there is none. */
  function CityName(doc: Document, nearest: CityLookup): (r: string)
    ensures !Truthy(ContainerTag(doc, LocationTag)) ==> r == UnknownLocation
    ensures (Truthy(ContainerTag(doc, LocationTag))
             && ParseLocation(ContainerTag(doc, LocationTag).value).None?) ==> r == UnknownLocation
    ensures (Truthy(ContainerTag(doc, LocationTag))
             && ParseLocation(ContainerTag(doc, LocationTag).value).Some?)
            ==> var c := ParseLocation(ContainerTag(doc, LocationTag).value).value;
                var cities := nearest(c.latitude, c.longitude, SearchRadius);
                r == if c.latitude == 0 || c.longitude == 0 || cities == [] then UnknownLocation
                     else cities[0]
  {
    var ll := ContainerTag(doc, LocationTag);
    if !Truthy(ll) then UnknownLocation
    else match ParseLocation(ll.value)
      case None => UnknownLocation
      case Some(c) =>
        if c.latitude == 0 || c.longitude == 0 then UnknownLocation
        else
          var cities := nearest(c.latitude, c.longitude, SearchRadius);
          if |cities| > 0 then cities[0] else UnknownLocation
  }

  /** The Annex H text of a coordinate: the sign, `whole` zero-filled integer
      digits, a point and four zero-filled decimals. */
  function FixedTextOf(v: int, whole: nat): (t: string)
    requires -(Pow10(whole + 4) as int) < v < Pow10(whole + 4)
  {
    var magnitude := if v < 0 then -v else v;
    [if v < 0 then '-' else '+'] + Pad(magnitude / 10000, whole) + "." + Pad(magnitude % 10000, 4)
  }

  /** 10^(k+4) is 10^k ten-thousands. */
  lemma Pow10Plus4(k: nat)
    ensures Pow10(k + 4) == Pow10(k) * 10000
  {
    calc {
      Pow10(k + 4);
      10 * Pow10(k + 3);
      10 * (10 * Pow10(k + 2));
      10 * (10 * (10 * Pow10(k + 1)));
      10 * (10 * (10 * (10 * Pow10(k))));
    }
  }

  /** Splitting a magnitude below 10^(whole+4) into whole units and
      ten-thousandths. */
  lemma SplitMagnitude(magnitude: nat, whole: nat)
    requires magnitude < Pow10(whole + 4)
    ensures magnitude / 10000 < Pow10(whole) && magnitude % 10000 < Pow10(4)
  {
    Pow10Plus4(whole);
    assert Pow10(4) == 10000;
  }

  /** A sign, `whole` digits, a point and four digits form a fixed-point
      text whose runs of digits are the two given. */
  lemma FixedTextShape(sign: char, p: string, q: string, whole: nat)
    requires IsSign(sign) && |p| == whole && |q| == 4 && AllDigits(p) && AllDigits(q)
    ensures var t := [sign] + p + "." + q;
            FixedText(t, whole) && t[1..whole + 1] == p && t[whole + 2..] == q
  {
  }

  /** The Annex H text of a number is fixed-point text whose integer digits
      read as the whole units and whose decimals read as the ten-thousandths. */
  lemma FixedTextPieces(v: int, whole: nat)
    requires 1 <= whole && -(Pow10(whole + 4) as int) < v < Pow10(whole + 4)
    ensures var magnitude: nat := if v < 0 then -v else v;
            var t := FixedTextOf(v, whole);
            FixedText(t, whole) && Value(t[1..whole + 1]) == magnitude / 10000
            && Value(t[whole + 2..]) == magnitude % 10000
  {
    var magnitude: nat := if v < 0 then -v else v;
    SplitMagnitude(magnitude, whole);
    var p, q := Pad(magnitude / 10000, whole), Pad(magnitude % 10000, 4);
    FixedTextShape(if v < 0 then '-' else '+', p, q, whole);
  }

  /** Writing a number as Annex H fixed-point text and reading it back gives
      the number again. */
  lemma {:induction false} FixedTextRoundTrip(v: int, whole: nat)
    requires 1 <= whole && -(Pow10(whole + 4) as int) < v < Pow10(whole + 4)
    ensures FixedText(FixedTextOf(v, whole), whole)
    ensures FixedValue(FixedTextOf(v, whole), whole) == v
  {
    FixedTextPieces(v, whole);
  }

  /** A latitude text, a longitude text and a slash, followed by anything,
      match the pattern at the start and decode to the two values. */
  lemma MatchAtStart(lat: string, lon: string, rest: string)
    requires FixedText(lat, 2) && FixedText(lon, 3)
    ensures var s := lat + lon + "/" + rest;
            MatchesAt(s, 0) && DecodeAt(s, 0) == Coordinate(FixedValue(lat, 2), FixedValue(lon, 3))
  {
    var s := lat + lon + "/" + rest;
    assert s[0..8] == lat;
    assert s[8..17] == lon;
    assert s[17] == '/';
  }

  /** A coordinate written as the tag text `<latitude><longitude>/`, followed by
      anything at all, is found again by the search: latitudes below 100
      degrees and longitudes below 1000 degrees in magnitude survive the trip. */
  lemma {:induction false} EncodedLocationParses(c: Coordinate, rest: string)
    requires -(Pow10(6) as int) < c.latitude < Pow10(6) && -(Pow10(7) as int) < c.longitude < Pow10(7)
    ensures ParseLocation(FixedTextOf(c.latitude, 2) + FixedTextOf(c.longitude, 3) + "/" + rest)
            == Some(c)
  {
    FixedTextRoundTrip(c.latitude, 2);
    FixedTextRoundTrip(c.longitude, 3);
    MatchAtStart(FixedTextOf(c.latitude, 2), FixedTextOf(c.longitude, 3), rest);
  }

  /** The altitude of an Annex H position: a sign, then digits with at most a
      decimal point among them. */
  predicate AltitudeText(a: string) {
    |a| >= 2 && IsSign(a[0]) && forall i :: 1 <= i < |a| ==> IsDigit(a[i]) || a[i] == '.'
  }

  /** In `<latitude><longitude><altitude>/` the only slash is the last
      character and the only signs start the three components. */
  lemma TagCharacter(lat: string, lon: string, alt: string, j: int)
    requires FixedText(lat, 2) && FixedText(lon, 3) && AltitudeText(alt)
    requires 0 <= j < |lat + lon + alt + "/"|
    ensures (lat + lon + alt + "/")[j] == '/' <==> j == 17 + |alt|
    ensures IsSign((lat + lon + alt + "/")[j]) <==> j == 0 || j == 8 || j == 17
  {
    var s := lat + lon + alt + "/";
    if j < 8 {
      assert s[j] == lat[j];
    } else if j < 17 {
      assert s[j] == lon[j - 8];
    } else if j < 17 + |alt| {
      assert s[j] == alt[j - 17];
    }
  }

  /** A tag that carries an altitude between the longitude and the slash
      (`+37.7749-122.4194+012.3/`) does not match the pattern anywhere, so
      its location is never resolved. */
  lemma {:induction false} AltitudeDefeatsPattern(lat: string, lon: string, alt: string)
    requires FixedText(lat, 2) && FixedText(lon, 3) && AltitudeText(alt)
    ensures ParseLocation(lat + lon + alt + "/").None?
  {
    var s := lat + lon + alt + "/";
    forall k | 0 <= k && k + 18 <= |s|
      ensures !MatchesAt(s, k)
    {
      TagCharacter(lat, lon, alt, k);
      TagCharacter(lat, lon, alt, k + 8);
      TagCharacter(lat, lon, alt, k + 17);
      assert s[k..k + 8][0] == s[k];
      assert s[k + 8..k + 17][0] == s[k + 8];
    }
  }

  /** The resolver on a document whose `location` tag carries a coordinate
      in Annex H form: a zero latitude or longitude gives "Unknown location"
      whatever the lookup would say; otherwise the nearest city within 100 km
      of exactly that coordinate, or "Unknown location" when there is none. */
  lemma {:induction false} ResolvesEncoded(c: Coordinate, rest: string, streams: Option<seq<Stream>>,
                                           nearest: CityLookup)
    requires -(Pow10(6) as int) < c.latitude < Pow10(6) && -(Pow10(7) as int) < c.longitude < Pow10(7)
    ensures var tag := FixedTextOf(c.latitude, 2) + FixedTextOf(c.longitude, 3) + "/" + rest;
            var doc := Document(Some(Format(Some(map[LocationTag := tag]))), streams);
            var cities := nearest(c.latitude, c.longitude, SearchRadius);
            CityName(doc, nearest)
            == if c.latitude == 0 || c.longitude == 0 || cities == [] then UnknownLocation else cities[0]
  {
    EncodedLocationParses(c, rest);
  }
}
