# City Bands Finder: a Dafny model

The modelled program is a single React component (`src/App.js`). It finds the user's
city, either from the browser position plus a reverse-geocoding service or from an
IP geolocation service. It then asks an artist directory for groups in that area and
lists the ones formed in the last ten years. Users can also type a city and search
again.

The model keeps the sequential logic under the network plumbing:

- **The recent-band filter** (module `Bands`). `parseInt` follows the parsing steps
  ECMAScript defines for it (module `JsNumbers`): leading white space, one sign, a
  `0x`/`0X` prefix that switches to radix 16, the longest run of digits, and `NaN`
  when there are no digits. The digits are read as an exact integer (see
  "Left out"). It is applied to the first four characters of `life-span.begin`. An absent
  begin date turns into the text `"undefined"`, which parses as `NaN`. An artist is
  kept when the parsed year is truthy and `currentYear - year <= 10`. The current year
  is a parameter.
- **The search URL**. The city name is pasted into the query string unescaped. The
  round-trip lemmas show it is embedded verbatim.
- **The place-name fallback** (module `Geocoding`). This is `city || town || village`
  with JavaScript's `||` and truthiness (module `JsValues`). The result is `null` when
  the request fails or the body has no `address`.
- **The component state** `{city, bands, loading, error}`. The pure transitions are in
  module `Transitions` and the view choice is in module `Presentation`. Class
  `Finder.BandsFinder` holds the four fields, and its handlers assign them as the
  setters do. Each handler is proved to produce exactly the state its `Transitions`
  function describes. `fetchBands` also hands back, as a ghost value, the state shown
  while its request is outstanding.
- **The empty-result quirk.** On an empty result, `bands` is set to the return value
  of `setError`, which is `undefined`. `BandsState.UndefinedList` models this. The view
  has a `RenderError` outcome for `bands.map` on `undefined`. `Presentation.Render`
  proves this outcome happens exactly in states where `Consistent` fails.
  `Transitions.ReachableRenders` and the class invariant `Valid()` show that no
  reachable state is one of them. The stored `undefined` always sits behind the error
  message or the loading indicator.

Network answers are inputs to the handlers:

- `Transitions.SearchResponse`: the artist list, or a failure.
- `Geocoding.ReverseResponse`: the reverse-geocoding answer.
- `Transitions.IpLookup`: the IP-lookup answer.
- `Transitions.Geolocation`: what the browser's location capability did.

## Model

| member | source | states |
|---|---|---|
| JsValues.Or | src/App.js:45 | `a \|\| b` is truthy iff either operand is; it is `a` when `a` is truthy and `b` otherwise |
| JsValues.ToString | src/App.js:60 | `parseInt` converts its argument to text: a string is itself and `undefined` is the text `"undefined"` |
| JsValues.Prefix | src/App.js:60 | `slice(0, 4)` yields the first `min(4, length)` characters, a prefix of the string |
| JsNumbers.TrimStart | src/App.js:60 | the trimmed text is a suffix of the input, preceded only by white space and not starting with white space |
| JsNumbers.DigitRun | src/App.js:60 | the digit run read by `parseInt` is the longest prefix of digits of the radix |
| JsNumbers.ParseDigits | src/App.js:60 | `NaN` exactly when the text does not start with a digit of the radix; otherwise a non-negative number |
| JsNumbers.ParseUnsigned | src/App.js:60 | the text after the sign never reads as a negative number |
| JsNumbers.Negate | src/App.js:60 | the sign step keeps `NaN` as `NaN` and otherwise negates the value |
| JsNumbers.ParseInt | src/App.js:60 | text that is empty or only white space is `NaN`; a negative result needs a `-` as the first character after the white space |
| JsNumbers.TrimStartSkips | src/App.js:60 | prepending white space does not change the trimmed text |
| JsNumbers.ParseIntSkipsWhiteSpace | src/App.js:60 | `parseInt` ignores leading white space |
| JsNumbers.ParseDigitsRun | src/App.js:60 | a complete run of digits reads as the number it denotes in the radix |
| JsNumbers.ParseUnsignedDecimal | src/App.js:60 | unsigned text of decimal digits followed by a non-digit (or nothing) reads as the digits' decimal value; the only exception is a lone `0` followed by `x` or `X` |
| JsNumbers.ParseUnsignedDigits | src/App.js:60 | unsigned text made only of decimal digits reads as their decimal value |
| JsNumbers.ParseIntDecimal | src/App.js:60 | `parseInt` of decimal digits followed by a non-digit (or nothing) reads the digits' decimal value, except a lone `0` followed by `x` or `X` |
| JsNumbers.ParseIntMinus | src/App.js:60 | a leading `-` negates the value of what follows it |
| JsNumbers.ParseIntPlus | src/App.js:60 | a leading `+` is skipped |
| JsNumbers.ParseIntNegative | src/App.js:60 | `parseInt("-" + digits)` is minus their value |
| JsNumbers.ParseIntHex | src/App.js:60 | after `0x` the digits are read in radix 16 |
| JsNumbers.ParseIntNoDigits | src/App.js:60 | text starting with no white space, sign or digit parses to `NaN` |
| JsNumbers.DecimalRoundTrip | src/App.js:60 | a year written as zero-padded decimal digits parses back to the year |
| Bands.SearchUrl | src/App.js:56-58 | the request URL begins with the search prefix and has the city between prefix and suffix |
| Bands.CityOfSearchUrl | src/App.js:57 | a city read back from a search URL fills exactly the space between prefix and suffix |
| Bands.SearchUrlRoundTrip | src/App.js:57 | the city can be read back from its search URL unchanged (no escaping) |
| Bands.SearchUrlOfCity | src/App.js:57 | every URL of the search shape is the search URL of the city it names |
| Bands.BeginPrefix | src/App.js:60 | `undefined` exactly when life span or begin is missing; otherwise exactly the first `min(4, length)` characters of `begin` |
| Bands.BeginYear | src/App.js:60 | a missing life span or begin date gives `NaN` |
| Bands.IsRecent | src/App.js:60-61 | only an artist with a begin date can pass the filter |
| Bands.RecentBands | src/App.js:59-62 | the filtered list is no longer than the response and holds only recent artists of the response |
| Bands.RecentBandsComplete | src/App.js:59-62 | no recent artist of the response is dropped |
| Bands.RecentBandsMembers | src/App.js:59-62 | an artist is in the result iff it is in the response and passes the predicate |
| Bands.RecentBandsSubsequence | src/App.js:59-62 | the result is an order-preserving subsequence of `response.data.artists` |
| Bands.RecentBandsKeepsRecent | src/App.js:59-62 | a list of recent artists is returned unchanged |
| Bands.RecentBandsIdempotent | src/App.js:59-62 | filtering an already filtered list returns it unchanged |
| Bands.MissingBeginExcluded | src/App.js:60-61 | a missing life span or begin date (`NaN`) is always excluded |
| Bands.YearRetention | src/App.js:60-61 | for a begin date starting with four decimal digits of value Y: kept iff Y is not 0 and `currentYear - Y <= 10` (future years are kept) |
| Bands.WrittenYearRetention | src/App.js:60-61 | the same for a begin date written as a four-digit year followed by any text |
| Bands.DecadeExample | src/App.js:59-62 | in 2024 a band begun in "2016" is kept and one begun in "2010" is not |
| Geocoding.PlaceFields | src/App.js:45 | the address gives three candidate names, in the order city, town, village |
| Geocoding.FirstNonEmpty | src/App.js:45 | the reference choice: a present, non-empty name with only absent or empty fields before it, or none when all are absent or empty |
| Geocoding.FetchCityFromCoordinates | src/App.js:40-49 | `null` on a thrown lookup; truthy iff some field is non-empty, and then the first such; otherwise the falsy `village` value |
| Presentation.EntryOf | src/App.js:116-126 | a list item shows the band's id as key, its name, its area name exactly when there is one, and its begin date exactly when there is one |
| Presentation.Consistent | src/App.js:109-115 | a state with a real band list, the loading flag or an error is renderable; a renderable state that shows the list has a real list |
| Presentation.Entries | src/App.js:115-127 | one entry per band, in list order |
| Presentation.Render | src/App.js:109-129 | loading indicator iff loading; else the error text iff error is non-empty; else the band list; `bands.map` fails exactly in inconsistent states |
| Transitions.Begin | src/App.js:54-55 | while the search is outstanding, loading is on, error is cleared, and the view is "Loading bands..." |
| Transitions.Fetch | src/App.js:52-70 | loading ends false on every path; failure: the fetch message with bands unchanged; non-empty result: exactly that list, no error; empty result: "No results found" with bands `undefined` |
| Transitions.FetchView | src/App.js:63-69 | after a search the view is the fetch message, "No results found", or the filtered bands in order |
| Transitions.FetchForgetsStatus | src/App.js:54-55 | a search's outcome does not depend on the loading flag and error that preceded it |
| Transitions.Submit | src/App.js:72-75 | submitting never changes the city; with an empty city it changes nothing; otherwise it is the band search `Fetch` for the current city, which ends with loading false |
| Transitions.LocatedCity | src/App.js:17-37 | the IP-lookup city when there is no usable position; with a position, the first non-empty of city, town, village, or nothing |
| Transitions.Locate | src/App.js:14-38 | loading stays on iff no city is found; a found city is stored; otherwise city, bands and error stay as set at the start |
| Transitions.LocateStalls | src/App.js:15-25 | when the IP lookup throws or no truthy name is found, the view stays "Loading bands..." |
| Transitions.IpFallback | src/App.js:27-37 | without a usable position, the IP-lookup city is stored and searched for, with no emptiness check |
| Transitions.GeocodedSearch | src/App.js:19-25 | with a position, the search is for the first non-empty of city, town and village |
| Transitions.ReachableRenders | src/App.js:5-8 | the initial state, typing, submitting and the location lookup all keep the state renderable |
| Finder.BandsFinder.Valid | src/App.js:109-115 | the class invariant: while it holds, rendering never reaches `bands.map` on `undefined` |
| Finder.BandsFinder.constructor | src/App.js:5-8 | the initial state is empty city, empty list, not loading, no error |
| Finder.BandsFinder.SetCity | src/App.js:85 | typing replaces the city and changes nothing else |
| Finder.BandsFinder.FetchBands | src/App.js:52-70 | requests `SearchUrl(cityName)`; the pending state is `Begin` of the old one; the new state is `Fetch` of the old one |
| Finder.BandsFinder.HandleCitySearch | src/App.js:72-75 | requests the search URL of the current city iff it is non-empty; the new state is `Submit` of the old one |
| Finder.BandsFinder.UseIpLocation | src/App.js:27-37 | a failed IP lookup changes nothing; otherwise the IP city is stored and searched for |
| Finder.BandsFinder.GetUserLocation | src/App.js:14-38 | requests the search URL of the located city if there is one; the new state is `Locate` of the old one |

## Left out

- The HTTP requests themselves, through `axios`: their answers are parameters. The
  reverse-geocoding request's parameters (latitude, longitude) are not modelled. The
  model starts from the answer.
- `navigator.geolocation`: only the outcome is modelled (missing, refused, position
  found), as `Transitions.Geolocation`. The coordinates are floating point numbers
  that are only forwarded, so they are left out.
- `new Date().getFullYear()`: the current year is a parameter.
- Asynchrony and React's state batching. Each handler runs to completion here. So
  the race between overlapping `fetchBands` calls, where a stale answer overwrites a
  newer one, is not modelled. The one intermediate state of `fetchBands` (during its
  request) is exposed as the ghost `pending` result.
- `useEffect` running `getUserLocation` once on mount, `e.preventDefault()`, the
  JSX markup and styles, and `console.error` logging.
- JavaScript strings are UTF-16, and `slice(0, 4)` counts code units. Here `string`
  counts Unicode scalar values. A character outside the basic plane is never white
  space, a sign or a digit, so `parseInt` stops at it either way and the parsed year
  is the same.
- `parseInt` can give `-0`. It is folded into `0`, which is falsy in the same way.
- JsNumbers.ParseInt: reads the digits as an exact, unbounded integer. ECMAScript
  computes a floating point Number, which rounds beyond 2^53 (and may round after
  20 significant digits). The filter only parses at most four characters, whose
  value is at most 9999 (or 255 in hexadecimal), so the year compared is the same.
- The IP lookup's `city` is assumed to be a string. A body without `city` would
  store and search for `undefined`.
- Finder.BandsFinder.HandleCitySearch: states `old(Valid()) ==> Valid()` and not
  `Valid()` outright. With an empty city the state is unchanged, so it is only as
  renderable as it was before.
