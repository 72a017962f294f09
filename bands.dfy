/** The band query: the artist records the search service returns, the query
    URL built from a city name, and the filter that keeps the bands formed
    within the last ten years. */
module Bands {
  import opened JsValues
  import opened JsNumbers

  datatype Area = Area(name: Option<string>)
  datatype LifeSpan = LifeSpan(begin: Option<string>)

  /** One entry of `response.data.artists`; `lifeSpan` is the `life-span` property. */
  datatype Artist = Artist(id: string, name: string, area: Option<Area>, lifeSpan: Option<LifeSpan>)

  /** The band search is capped at fifty results by the `limit` parameter. */
  const SEARCH_PREFIX: string := "https://musicbrainz.org/ws/2/artist/?query=area:"
  const SEARCH_SUFFIX: string := "%20AND%20type:group&fmt=json&limit=50"

  /** The URL `fetchBands` requests for `cityName`; the name is inserted as it is, without escaping. */
  function SearchUrl(cityName: string): (url: string)
    ensures |url| == |SEARCH_PREFIX| + |cityName| + |SEARCH_SUFFIX|
    ensures url[..|SEARCH_PREFIX|] == SEARCH_PREFIX
  {
    SEARCH_PREFIX + cityName + SEARCH_SUFFIX
  }

  /** The city name a search URL asks for, when the URL has the shape `SearchUrl` builds. */
  function CityOfSearchUrl(url: string): (city: Option<string>)
    ensures city.Some? ==> |city.value| + |SEARCH_PREFIX| + |SEARCH_SUFFIX| == |url|
  {
    if |url| >= |SEARCH_PREFIX| + |SEARCH_SUFFIX|
       && url[..|SEARCH_PREFIX|] == SEARCH_PREFIX
       && url[|url| - |SEARCH_SUFFIX|..] == SEARCH_SUFFIX
    then Some(url[|SEARCH_PREFIX|..|url| - |SEARCH_SUFFIX|])
    else None
  }

  /** The city name can be read back from the URL: it is embedded verbatim. */
  lemma SearchUrlRoundTrip(cityName: string)
    ensures CityOfSearchUrl(SearchUrl(cityName)) == Some(cityName)
  {
    var url := SearchUrl(cityName);
    assert url[|url| - |SEARCH_SUFFIX|..] == SEARCH_SUFFIX;
    assert url[|SEARCH_PREFIX|..|url| - |SEARCH_SUFFIX|] == cityName;
  }

  /** Every URL of the search shape is the search URL of exactly the city it names. */
  lemma SearchUrlOfCity(url: string, cityName: string)
    requires CityOfSearchUrl(url) == Some(cityName)
    ensures SearchUrl(cityName) == url
  {
    SplitThree(url, |SEARCH_PREFIX|, |url| - |SEARCH_SUFFIX|);
  }

  /** A string is the concatenation of its three slices at `i` and `j`. */
  lemma SplitThree(u: string, i: nat, j: nat)
    requires i <= j <= |u|
    ensures u[..i] + u[i..j] + u[j..] == u
  {
  }

  /** `artist['life-span']?.begin?.slice(0, 4)`: at most four leading characters of
      `begin`, or `undefined` when there is no life span or no begin date. */
  function BeginPrefix(a: Artist): (v: JsValue)
    ensures v.Undefined? <==> a.lifeSpan.None? || a.lifeSpan.value.begin.None?
    ensures v.Str? ==> v.s <= a.lifeSpan.value.begin.value && |v.s| <= 4
    ensures !v.Undefined? ==> v == Str(Prefix(a.lifeSpan.value.begin.value, 4))
  {
    match a.lifeSpan
    case None => Undefined
    case Some(span) =>
      match span.begin
      case None => Undefined
      case Some(begin) => Str(Prefix(begin, 4))
  }

  /** The `beginYear` of the filter: `parseInt` of that prefix. */
  function BeginYear(a: Artist): (year: JsNumber)
    ensures a.lifeSpan.None? || a.lifeSpan.value.begin.None? ==> year == NaN
  {
    ParseIntNoDigits("undefined");
    ParseInt(ToString(BeginPrefix(a)))
  }

  /** The filter predicate: a truthy `beginYear` at most ten years before `currentYear`. */
  predicate IsRecent(a: Artist, currentYear: int)
    ensures IsRecent(a, currentYear) ==> a.lifeSpan.Some? && a.lifeSpan.value.begin.Some?
  {
    var year := BeginYear(a);
    NumberTruthy(year) && currentYear - year.value <= 10
  }

  /** `response.data.artists.filter(...)`: the recent artists, in their original order. */
  function RecentBands(artists: seq<Artist>, currentYear: int): (r: seq<Artist>)
    ensures |r| <= |artists|
    ensures forall a :: a in r ==> a in artists && IsRecent(a, currentYear)
  {
    if artists == [] then []
    else
      var rest := RecentBands(artists[1..], currentYear);
      if IsRecent(artists[0], currentYear) then [artists[0]] + rest else rest
  }

  /** `xs` is `ys` with some elements left out and the others in their order. */
  predicate IsSubsequence<T(==)>(xs: seq<T>, ys: seq<T>)
    decreases |ys|
  {
    if xs == [] then true
    else if ys == [] then false
    else if xs[0] == ys[0] then IsSubsequence(xs[1..], ys[1..])
    else IsSubsequence(xs, ys[1..])
  }

  /** No recent artist is dropped. */
  lemma {:induction false} RecentBandsComplete(artists: seq<Artist>, currentYear: int, a: Artist)
    requires a in artists && IsRecent(a, currentYear)
    ensures a in RecentBands(artists, currentYear)
  {
    if artists[0] != a {
      RecentBandsComplete(artists[1..], currentYear, a);
    }
  }

  /** An artist is in the filtered list exactly when it is a recent artist of the response. */
  lemma RecentBandsMembers(artists: seq<Artist>, currentYear: int, a: Artist)
    ensures a in RecentBands(artists, currentYear) <==> a in artists && IsRecent(a, currentYear)
  {
    if a in artists && IsRecent(a, currentYear) {
      RecentBandsComplete(artists, currentYear, a);
    }
  }

  /** The filtered list keeps the order of the response. */
  lemma {:induction false} RecentBandsSubsequence(artists: seq<Artist>, currentYear: int)
    ensures IsSubsequence(RecentBands(artists, currentYear), artists)
  {
    if artists != [] {
      var r := RecentBands(artists, currentYear);
      var rest := RecentBands(artists[1..], currentYear);
      RecentBandsSubsequence(artists[1..], currentYear);
      if IsRecent(artists[0], currentYear) {
        assert r[0] == artists[0] && r[1..] == rest;
      } else if r != [] {
        assert r[0] in rest;
      }
    }
  }

  /** A list whose artists are all recent is left as it is. */
  lemma {:induction false} RecentBandsKeepsRecent(artists: seq<Artist>, currentYear: int)
    requires forall a :: a in artists ==> IsRecent(a, currentYear)
    ensures RecentBands(artists, currentYear) == artists
  {
    if artists != [] {
      assert artists[0] in artists;
      RecentBandsKeepsRecent(artists[1..], currentYear);
      assert [artists[0]] + artists[1..] == artists;
    }
  }

  /** Filtering twice is filtering once. */
  lemma RecentBandsIdempotent(artists: seq<Artist>, currentYear: int)
    ensures RecentBands(RecentBands(artists, currentYear), currentYear) == RecentBands(artists, currentYear)
  {
    RecentBandsKeepsRecent(RecentBands(artists, currentYear), currentYear);
  }

  /** An artist without a life span or without a begin date is never kept:
      `parseInt(undefined)` reads the text "undefined" and gives `NaN`. */
  lemma MissingBeginExcluded(a: Artist, currentYear: int)
    requires a.lifeSpan.None? || a.lifeSpan.value.begin.None?
    ensures !IsRecent(a, currentYear)
  {
    ParseIntNoDigits("undefined");
  }

  /** For a begin date whose first four characters are decimal digits with value `year`,
      the artist is kept exactly when `year` is not zero and at most ten years back;
      a year after `currentYear` is kept, since only the upper bound is checked. */
  lemma YearRetention(a: Artist, currentYear: int, year: nat)
    requires a.lifeSpan.Some? && a.lifeSpan.value.begin.Some?
    requires var begin := a.lifeSpan.value.begin.value;
      |begin| >= 4 && (forall i :: 0 <= i < 4 ==> IsRadixDigit(begin[i], 10))
      && DigitsValue(begin[..4], 10) == year
    ensures IsRecent(a, currentYear) <==> year != 0 && currentYear - year <= 10
  {
    var prefix := a.lifeSpan.value.begin.value[..4];
    assert BeginPrefix(a) == Str(prefix);
    ParseIntDecimal(prefix, []);
    assert prefix + [] == prefix;
  }

  /** The same for a begin date written as a four-digit year followed by anything,
      such as "2016" or "2016-05-01". */
  lemma WrittenYearRetention(a: Artist, currentYear: int, year: nat, rest: string)
    requires year < 10000
    requires a.lifeSpan == Some(LifeSpan(Some(Decimal(year, 4) + rest)))
    ensures IsRecent(a, currentYear) <==> year != 0 && currentYear - year <= 10
  {
    var begin := Decimal(year, 4) + rest;
    assert begin[..4] == Decimal(year, 4);
    assert Pow10(4) == 10000;
    DecimalRoundTrip(year, 4);
    YearRetention(a, currentYear, year);
  }

  /** A band formed in 2016 is kept in 2024 (eight years back) and one formed in 2010 is not (fourteen). */
  lemma DecadeExample(id: string, name: string)
    ensures var formed2016 := Artist(id, name, None, Some(LifeSpan(Some("2016"))));
      var formed2010 := Artist(id, name, None, Some(LifeSpan(Some("2010"))));
      RecentBands([formed2016, formed2010], 2024) == [formed2016]
  {
    var formed2016 := Artist(id, name, None, Some(LifeSpan(Some("2016"))));
    var formed2010 := Artist(id, name, None, Some(LifeSpan(Some("2010"))));
    assert Decimal(2016, 4) + [] == "2016";
    assert Decimal(2010, 4) + [] == "2010";
    WrittenYearRetention(formed2016, 2024, 2016, []);
    WrittenYearRetention(formed2010, 2024, 2010, []);
    assert [formed2016, formed2010][1..] == [formed2010];
  }
}
