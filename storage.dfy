/** The browser's `localStorage` as seen by one store: a map from key to what `JSON.parse` makes of
    the stored text. `EmptyText` is the empty string (falsy, so never parsed), `Malformed` a text on
    which `JSON.parse` throws, `Json(v)` a text that parses to `v`. A key outside the map is one for
    which `getItem` returns `null`. */
module Storage {

  datatype Stored<T> = EmptyText | Malformed | Json(value: T)

  type Slots<T> = map<string, Stored<T>>

  /** The hydration rule of the category and comment stores: the seed when there is no window, when
      the key is absent or holds the empty string, or when parsing throws; otherwise the parsed value. */
  function Load<T>(hasWindow: bool, slots: Slots<T>, key: string, seed: T): (r: T)
    ensures !hasWindow || key !in slots || slots[key] == EmptyText || slots[key] == Malformed ==> r == seed
    ensures hasWindow && key in slots && slots[key].Json? ==> r == slots[key].value
  {
    if hasWindow && key in slots && slots[key].Json? then slots[key].value else seed
  }

  /** The save helper: with a window, `key` now holds the whole value and every other key is
      untouched; without one, nothing is written. */
  function Save<T>(hasWindow: bool, slots: Slots<T>, key: string, value: T): (r: Slots<T>)
    ensures hasWindow ==> key in r && r[key] == Json(value)
    ensures forall k :: k != key ==> (k in r <==> k in slots) && (k in r ==> r[k] == slots[k])
    ensures !hasWindow ==> r == slots
  {
    if hasWindow then slots[key := Json(value)] else slots
  }

  /** A load right after a save returns what was saved, whatever the seed. */
  lemma LoadAfterSave<T>(slots: Slots<T>, key: string, value: T, seed: T)
    ensures Load(true, Save(true, slots, key, value), key, seed) == value
  {
  }
}
