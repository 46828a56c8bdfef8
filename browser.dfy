/**
 * The browser's `localStorage` as an abstract key/value store. A slot holds
 * either the JSON text of a value, the empty string, or text that `JSON.parse`
 * rejects. `full` stands for a store whose `setItem` throws (quota exceeded).
 * A `getItem` that throws is not part of this model.
 */
module Browser {
  import opened Wrappers

  datatype Slot<T> = Json(value: T) | Blank | Malformed

  datatype LocalStorage<T> = LocalStorage(slots: map<string, Slot<T>>, full: bool)

  /** `localStorage.setItem(key, JSON.stringify(data))`: `None` when the call throws. */
  function SetItem<T>(ls: LocalStorage<T>, key: string, data: T): (r: Option<LocalStorage<T>>)
    ensures r.None? <==> ls.full
    ensures r.Some? ==> r.value.full == ls.full && r.value.slots == ls.slots[key := Json(data)]
  {
    if ls.full then None else Some(ls.(slots := ls.slots[key := Json(data)]))
  }

  /** `localStorage.removeItem(key)`. */
  function RemoveItem<T>(ls: LocalStorage<T>, key: string): (r: LocalStorage<T>)
    ensures key !in r.slots && r.full == ls.full
    ensures forall k :: k != key ==> (k in r.slots <==> k in ls.slots)
    ensures forall k :: k in r.slots ==> r.slots[k] == ls.slots[k]
  {
    ls.(slots := ls.slots - {key})
  }

  /**
   * `loadFromLocalStorage(key, fallback)`: a missing key, the empty string
   * (falsy) and text that does not parse all give the fallback.
   */
  function Load<T>(ls: LocalStorage<T>, key: string, fallback: T): (r: T)
    ensures key in ls.slots && ls.slots[key].Json? ==> r == ls.slots[key].value
    ensures key !in ls.slots || ls.slots[key].Blank? || ls.slots[key].Malformed? ==> r == fallback
  {
    if key in ls.slots && ls.slots[key].Json? then ls.slots[key].value else fallback
  }

  /** `saveToLocalStorage(key, data)`: a failing write is caught and dropped. */
  function Save<T>(ls: LocalStorage<T>, key: string, data: T): (r: LocalStorage<T>)
    ensures r.full == ls.full
    ensures !ls.full ==> key in r.slots && r.slots[key] == Json(data)
    ensures ls.full ==> r == ls
    ensures forall k :: k != key && k in ls.slots ==> k in r.slots && r.slots[k] == ls.slots[k]
    ensures forall k :: k in r.slots ==> k == key || k in ls.slots
  {
    match SetItem(ls, key, data)
    case Some(written) => written
    case None => ls
  }

  /** Round trip: reading a key back after a successful save gives the saved value. */
  lemma SaveLoadRoundTrip<T>(ls: LocalStorage<T>, key: string, data: T, fallback: T)
    requires !ls.full
    ensures Load(Save(ls, key, data), key, fallback) == data
  {
  }

  /** Writing one key does not change what another key reads as. */
  lemma LoadOtherKey<T>(ls: LocalStorage<T>, key: string, other: string, data: T, fallback: T)
    requires key != other
    ensures Load(Save(ls, key, data), other, fallback) == Load(ls, other, fallback)
  {
  }
}
