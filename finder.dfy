/** The `App` component as an object: its four pieces of state are fields, each
    setter call is an assignment, and the handlers are methods that take what the
    network answered as parameters. Each handler is proved to follow the
    corresponding function of module `Transitions`. */
module Finder {
  import opened JsValues
  import opened Bands
  import opened Presentation
  import Geocoding
  import Transitions

  class BandsFinder {
    var city: string
    var bands: BandsState
    var loading: bool
    var error: string

    function Snapshot(): State
      reads this
    {
      State(city, bands, loading, error)
    }

    /** The view can always be rendered: `bands` is never an `undefined` list on display. */
    ghost predicate Valid()
      reads this
      ensures Valid() ==> !Render(Snapshot()).RenderError?
    {
      Consistent(Snapshot())
    }

    /** The `useState` initial values. */
    constructor ()
      ensures Snapshot() == INITIAL && Valid()
    {
      city, bands, loading, error := "", List([]), false, "";
    }

    /** The input's `onChange`: the city becomes what was typed. */
    method SetCity(value: string)
      requires Valid()
      modifies this
      ensures Snapshot() == old(Snapshot()).(city := value)
      ensures Valid()
    {
      city := value;
    }

    /** `fetchBands(cityName)`. `pending` is the state while the request is outstanding;
        `url` is the request made. `cityName` only shapes the request: the stored city
        is left alone. */
    method FetchBands(cityName: string, response: Transitions.SearchResponse, currentYear: int)
      returns (url: string, ghost pending: State)
      modifies this
      ensures url == SearchUrl(cityName)
      ensures pending == Transitions.Begin(old(Snapshot()))
      ensures Snapshot() == Transitions.Fetch(old(Snapshot()), response, currentYear)
      ensures Valid()
    {
      loading := true;
      error := "";
      pending := Snapshot();
      url := SearchUrl(cityName);
      match response {
        case SearchFailed =>
          error := Transitions.FETCH_FAILED;
        case Found(artists) =>
          var recent := RecentBands(artists, currentYear);
          if |recent| > 0 {
            bands := List(recent);
          } else {
            error := Transitions.NO_RESULTS;
            bands := UndefinedList;
          }
      }
      loading := false;
    }

    /** The form's `onSubmit`: search for the current city unless it is empty.
        `request` is the search URL requested, if any. */
    method HandleCitySearch(response: Transitions.SearchResponse, currentYear: int)
      returns (request: Option<string>)
      modifies this
      ensures request == if old(city) != "" then Some(SearchUrl(old(city))) else None
      ensures Snapshot() == Transitions.Submit(old(Snapshot()), response, currentYear)
      ensures old(Valid()) ==> Valid()
    {
      if city != "" {
        var url;
        ghost var pending;
        url, pending := FetchBands(city, response, currentYear);
        request := Some(url);
      } else {
        request := None;
      }
    }

    /** The IP-lookup branch of `getUserLocation`, shared by the "no geolocation"
        and the "position refused" cases. */
    method UseIpLocation(ip: Transitions.IpLookup, response: Transitions.SearchResponse, currentYear: int)
      returns (request: Option<string>)
      modifies this
      ensures ip.IpFailed? ==> request == None && Snapshot() == old(Snapshot())
      ensures ip.IpCity? ==> request == Some(SearchUrl(ip.city))
      ensures ip.IpCity? ==> Snapshot() == Transitions.Fetch(old(Snapshot()).(city := ip.city), response, currentYear)
    {
      match ip {
        case IpFailed =>
          request := None;
        case IpCity(c) =>
          city := c;
          var url;
          ghost var pending;
          url, pending := FetchBands(c, response, currentYear);
          request := Some(url);
      }
    }

    /** `getUserLocation`, run once on the first render. `request` is the band search
        URL requested, if the lookup got as far as a city. */
    method GetUserLocation(location: Transitions.Geolocation, response: Transitions.SearchResponse, currentYear: int)
      returns (request: Option<string>)
      modifies this
      ensures request == match Transitions.LocatedCity(location)
        case None => None
        case Some(c) => Some(SearchUrl(c))
      ensures Snapshot() == Transitions.Locate(old(Snapshot()), location, response, currentYear)
      ensures Valid()
    {
      loading := true;
      error := "";
      match location {
        case Unsupported(ip) =>
          request := UseIpLocation(ip, response, currentYear);
        case Denied(ip) =>
          request := UseIpLocation(ip, response, currentYear);
        case Located(reverse) =>
          var name := Geocoding.FetchCityFromCoordinates(reverse);
          if Truthy(name) {
            city := name.s;
            var url;
            ghost var pending;
            url, pending := FetchBands(name.s, response, currentYear);
            request := Some(url);
          } else {
            request := None;
          }
      }
    }
  }
}
