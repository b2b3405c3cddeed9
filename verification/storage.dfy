/** The two browser key/value stores the script uses (session and local
    storage) and the JavaScript truthiness of a value read from them. */
module Storage {

  datatype Option<T> = None | Some(value: T)

  /** A storage area: string keys to string values. */
  type Store = map<string, string>

  /** Session-scoped key holding the captured tracking parameters. */
  const TrackingKey: string := "trackingParams"

  /** Durable key holding the chosen language code. */
  const LanguageKey: string := "language"

  /** `getItem(key)`: the stored value, or `None` (JavaScript's null) for a key never set. */
  function GetItem(store: Store, key: string): (r: Option<string>)
    ensures r.Some? <==> key in store
    ensures r.Some? ==> r.value == store[key]
  {
    if key in store then Some(store[key]) else None
  }

  /** A value read from storage is truthy unless it is null or the empty string. */
  predicate Truthy(v: Option<string>)
  {
    v.Some? && v.value != ""
  }
}
