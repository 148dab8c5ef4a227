/**
 * What the search providers hand back, as seen by the filters. The provider calls
 * themselves (`DDGS().text`, `googlesearch.search`) are not modelled: every
 * operation receives their outcome as an input.
 */
module Providers {
  import opened Wrappers

  /** One DuckDuckGo hit: a dictionary in which any of the three keys may be absent. */
  datatype DdgHit = DdgHit(title: Option<string>, href: Option<string>, body: Option<string>)

  /** One Google hit (`advanced=True`): an object whose three attributes are always present. */
  datatype GoogleHit = GoogleHit(title: string, url: string, description: string)

  /** A provider call either raises or returns a (possibly empty) list of hits. */
  datatype Outcome<T> = Raised | Returned(hits: seq<T>)

  /** `r.get(key, '')` */
  function OrEmpty(o: Option<string>): (s: string)
    ensures o.None? ==> s == []
    ensures o.Some? ==> s == o.value
  {
    match o
    case None => []
    case Some(v) => v
  }

  /** `r.get('title', '')`: a hit's title, empty when the key is absent. */
  function TitleOf(hit: DdgHit): string {
    OrEmpty(hit.title)
  }
}
