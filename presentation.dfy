/** The component state `{city, bands, loading, error}` and the view rendered from it. */
module Presentation {
  import opened JsValues
  import opened Bands

  /** The `bands` state: a list of artists, or `undefined` after a search that
      found nothing (the value `setError` returns is stored there). */
  datatype BandsState = List(items: seq<Artist>) | UndefinedList

  datatype State = State(city: string, bands: BandsState, loading: bool, error: string)

  /** The state before anything has run: empty city, empty list, not loading, no error. */
  const INITIAL: State := State("", List([]), false, "")

  /** One list item: its key, the name heading, and the `Location:` and `Formed:`
      lines, each empty when the property is absent. */
  datatype Entry = Entry(key: string, name: string, location: Option<string>, formed: Option<string>)

  /** What is shown under the form. `RenderError` is the `TypeError` that
      `bands.map` throws when `bands` is `undefined`. */
  datatype View = LoadingIndicator | ErrorText(message: string) | BandList(entries: seq<Entry>) | RenderError

  function EntryOf(a: Artist): (e: Entry)
    ensures e.key == a.id && e.name == a.name
    ensures e.location.Some? <==> a.area.Some? && a.area.value.name.Some?
    ensures e.formed.Some? <==> a.lifeSpan.Some? && a.lifeSpan.value.begin.Some?
    ensures e.location.Some? ==> e.location.value == a.area.value.name.value
    ensures e.formed.Some? ==> e.formed.value == a.lifeSpan.value.begin.value
  {
    Entry(a.id, a.name,
      if a.area.Some? then a.area.value.name else None,
      if a.lifeSpan.Some? then a.lifeSpan.value.begin else None)
  }

  /** `bands.map(...)`: one entry per band, in the order of the list. */
  function Entries(bands: seq<Artist>): (entries: seq<Entry>)
    ensures |entries| == |bands|
    ensures forall i :: 0 <= i < |bands| ==> entries[i] == EntryOf(bands[i])
  {
    seq(|bands|, i requires 0 <= i < |bands| => EntryOf(bands[i]))
  }

  /** The states whose view can be rendered: an `undefined` list is only ever
      hidden behind the loading indicator or an error message. */
  predicate Consistent(s: State)
    ensures s.bands.List? || s.loading || s.error != "" ==> Consistent(s)
    ensures Consistent(s) && !s.loading && s.error == "" ==> s.bands.List?
  {
    s.bands.UndefinedList? ==> s.loading || s.error != ""
  }

  /** The render branch: loading first, then a non-empty error, then the list. */
  function Render(s: State): (v: View)
    ensures v.LoadingIndicator? <==> s.loading
    ensures v.ErrorText? <==> !s.loading && s.error != ""
    ensures v.ErrorText? ==> v.message == s.error
    ensures v.BandList? <==> !s.loading && s.error == "" && s.bands.List?
    ensures v.BandList? ==> v.entries == Entries(s.bands.items)
    ensures v.RenderError? <==> !Consistent(s)
  {
    if s.loading then LoadingIndicator
    else if s.error != "" then ErrorText(s.error)
    else match s.bands
      case List(items) => BandList(Entries(items))
      case UndefinedList => RenderError
  }
}
