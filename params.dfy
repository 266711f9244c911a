/** The query parameters of one outbound request, as Go's `url.Values`
    holds them: every key maps to the list of values added for it, in the
    order they were added. */
module Params {

  type Values = map<string, seq<string>>

  /** An outbound GET request: the URL up to and including `?`, and the
      parameters whose encoding follows it. */
  datatype Request = Request(prefix: string, params: Values)

  /** `url.Values.Add`: appends `value` to the values of `key`. */
  function Add(p: Values, key: string, value: string): (r: Values)
    ensures key in r && |r[key]| > 0 && r[key][|r[key]| - 1] == value
  {
    if key in p then p[key := p[key] + [value]] else p[key := [value]]
  }

  /** Adding introduces at most the one key, appends the value after those
      already there, and leaves every other key as it was. */
  lemma AddEffect(p: Values, key: string, value: string)
    ensures Add(p, key, value).Keys == p.Keys + {key}
    ensures Add(p, key, value)[key] == (if key in p then p[key] else []) + [value]
    ensures forall k :: k in p && k != key ==> Add(p, key, value)[k] == p[k]
  {
  }

  /** `url.Values.Get`: the first value of `key`, or "" when there is none. */
  function Get(p: Values, key: string): string
  {
    if key in p && |p[key]| > 0 then p[key][0] else ""
  }
}
