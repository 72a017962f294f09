/** The state changes of the component as functions of the state before them and
    of what the network answered: the band search (`fetchBands`), the form
    submission (`handleCitySearch`) and the location lookup on first render
    (`getUserLocation`). The class in module `Finder` is proved to follow them. */
module Transitions {
  import opened JsValues
  import opened Bands
  import opened Geocoding
  import opened Presentation

  const NO_RESULTS: string := "No results found"
  const FETCH_FAILED: string := "Failed to fetch data. Please try again later."

  /** How the band search ended: the request or reading `response.data.artists`
      threw, or the service answered with a list of artists. */
  datatype SearchResponse = SearchFailed | Found(artists: seq<Artist>)

  /** The state while the band search is outstanding: loading, with the error cleared. */
  function Begin(s: State): (r: State)
    ensures Render(r) == LoadingIndicator
    ensures r.city == s.city && r.bands == s.bands && r.error == ""
  {
    s.(loading := true, error := "")
  }

  /** `fetchBands` from start to `finally`. */
  function Fetch(s: State, response: SearchResponse, currentYear: int): (r: State)
    ensures !r.loading && r.city == s.city
    ensures Consistent(r)
    ensures response.SearchFailed? ==> r.error == FETCH_FAILED && r.bands == s.bands
    ensures response.Found? && RecentBands(response.artists, currentYear) != [] ==>
      r.error == "" && r.bands == List(RecentBands(response.artists, currentYear))
    ensures response.Found? && RecentBands(response.artists, currentYear) == [] ==>
      r.error == NO_RESULTS && r.bands == UndefinedList
  {
    var pending := Begin(s);
    var settled :=
      match response
      case SearchFailed => pending.(error := FETCH_FAILED)
      case Found(artists) =>
        var recent := RecentBands(artists, currentYear);
        if |recent| > 0 then pending.(bands := List(recent))
        else pending.(error := NO_RESULTS, bands := UndefinedList);
    settled.(loading := false)
  }

  /** What the user sees once a band search has ended: the bands found, in the
      order the service listed them, or exactly one of the two messages. */
  lemma FetchView(s: State, response: SearchResponse, currentYear: int)
    ensures Render(Fetch(s, response, currentYear)) ==
      match response
      case SearchFailed => ErrorText(FETCH_FAILED)
      case Found(artists) =>
        var recent := RecentBands(artists, currentYear);
        if recent == [] then ErrorText(NO_RESULTS) else BandList(Entries(recent))
  {
    var r := Fetch(s, response, currentYear);
    if response.Found? {
      var recent := RecentBands(response.artists, currentYear);
      if recent != [] {
        assert r.bands == List(recent);
      }
    }
  }

  /** The outcome of a band search depends only on the response, not on the
      loading flag or error message that were shown before it. */
  lemma FetchForgetsStatus(s: State, loading: bool, error: string, response: SearchResponse, currentYear: int)
    ensures Fetch(s.(loading := loading, error := error), response, currentYear) == Fetch(s, response, currentYear)
  {
  }

  /** `handleCitySearch`: a band search for the current city, and nothing at all
      when the city is empty. */
  function Submit(s: State, response: SearchResponse, currentYear: int): (r: State)
    ensures r.city == s.city
    ensures s.city == "" ==> r == s
    ensures s.city != "" ==> r == Fetch(s, response, currentYear) && !r.loading
  {
    if s.city != "" then Fetch(s, response, currentYear) else s
  }

  /** The answer of the IP geolocation service: the request threw, or it named a city. */
  datatype IpLookup = IpFailed | IpCity(city: string)

  /** What the browser's location capability did: it is missing, the user or the
      device refused a position, or a position was found and reverse-geocoded. */
  datatype Geolocation = Unsupported(ip: IpLookup) | Denied(ip: IpLookup) | Located(reverse: ReverseResponse)

  /** The city `getUserLocation` stores and searches for, if it gets that far. */
  function LocatedCity(g: Geolocation): (city: Option<string>)
    ensures (g.Unsupported? || g.Denied?) ==> (city.Some? <==> g.ip.IpCity?)
    ensures (g.Unsupported? || g.Denied?) && g.ip.IpCity? ==> city == Some(g.ip.city)
    ensures g.Located? ==> (city.Some? <==> Truthy(FetchCityFromCoordinates(g.reverse)))
    ensures g.Located? && city.Some? ==>
      city.value != "" && Some(city.value) == FirstNonEmpty(PlaceFields(g.reverse.address.value))
  {
    match g
    case Unsupported(IpCity(c)) => Some(c)
    case Denied(IpCity(c)) => Some(c)
    case Located(reverse) =>
      var name := FetchCityFromCoordinates(reverse);
      if Truthy(name) then Some(name.s) else None
    case _ => None
  }

  /** `getUserLocation`: show loading, then, once a city is known, store it and search for it. */
  function Locate(s: State, g: Geolocation, response: SearchResponse, currentYear: int): (r: State)
    ensures r.loading <==> LocatedCity(g).None?
    ensures LocatedCity(g).Some? ==> r.city == LocatedCity(g).value
    ensures LocatedCity(g).None? ==> r.city == s.city && r.bands == s.bands && r.error == ""
  {
    var pending := s.(loading := true, error := "");
    match LocatedCity(g)
    case None => pending
    case Some(c) => Fetch(pending.(city := c), response, currentYear)
  }

  /** When no city is found (the IP lookup threw, or reverse geocoding gave nothing
      truthy) the pipeline stops and "Loading bands..." stays on screen. */
  lemma LocateStalls(s: State, g: Geolocation, response: SearchResponse, currentYear: int)
    requires g.Located? ==> !Truthy(FetchCityFromCoordinates(g.reverse))
    requires !g.Located? ==> g.ip.IpFailed?
    ensures Render(Locate(s, g, response, currentYear)) == LoadingIndicator
    ensures Locate(s, g, response, currentYear) == s.(loading := true, error := "")
  {
  }

  /** Without a usable position the IP-lookup city is stored and searched for, even
      an empty one: this path has no emptiness check. */
  lemma IpFallback(s: State, g: Geolocation, response: SearchResponse, currentYear: int)
    requires (g.Unsupported? || g.Denied?) && g.ip.IpCity?
    ensures Locate(s, g, response, currentYear) == Fetch(s.(city := g.ip.city), response, currentYear)
  {
    FetchForgetsStatus(s.(city := g.ip.city), true, "", response, currentYear);
  }

  /** With a position, the search is for the first non-empty of city, town and village. */
  lemma GeocodedSearch(s: State, reverse: ReverseResponse, response: SearchResponse, currentYear: int, name: string)
    requires reverse.Responded? && reverse.address.Some?
    requires FirstNonEmpty(PlaceFields(reverse.address.value)) == Some(name)
    ensures Locate(s, Located(reverse), response, currentYear) == Fetch(s.(city := name), response, currentYear)
  {
    FetchForgetsStatus(s.(city := name), true, "", response, currentYear);
  }

  /** Every state the component can reach renders without the `undefined` list error. */
  lemma ReachableRenders(s: State, g: Geolocation, response: SearchResponse, currentYear: int, typed: string)
    requires Consistent(s)
    ensures Consistent(INITIAL)
    ensures Consistent(s.(city := typed))
    ensures Consistent(Submit(s, response, currentYear))
    ensures Consistent(Locate(s, g, response, currentYear))
    ensures !Render(s).RenderError?
  {
  }
}
