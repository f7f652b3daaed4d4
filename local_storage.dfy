/**
 * The persistence adapter (hooks/useLocalStorage.ts): an in-memory value kept
 * in step with one slot of the browser's `localStorage`. `JSON.stringify` and
 * `JSON.parse` are foreign, so the encoding is a parameter (`Codec`).
 */
module LocalStorage {
  import opened Wrappers

  /** How values are written to and read from a slot; `parse` is `None` where `JSON.parse` throws. */
  datatype Codec<!T> = Codec(serialize: T -> string, parse: string -> Option<T>)

  /**
   * The codec reads back what it wrote, and never writes the empty string
   * (`JSON.stringify` of a value never does; an empty slot counts as missing).
   */
  ghost predicate RoundTrips<T(!new)>(codec: Codec<T>) {
    forall v :: codec.parse(codec.serialize(v)) == Some(v) && codec.serialize(v) != ""
  }

  /**
   * `window.localStorage`. When `accessible` is false every access throws
   * (storage disabled); a single write may also fail on its own (quota).
   */
  class StorageArea {
    var items: map<string, string>
    const accessible: bool

    constructor (items: map<string, string>, accessible: bool)
      ensures this.items == items && this.accessible == accessible
    {
      this.items, this.accessible := items, accessible;
    }
  }

  /** The stored value can be used: in a browser, readable, present, non-empty, and parseable. */
  predicate Loadable<T>(isClient: bool, accessible: bool, items: map<string, string>, key: string, codec: Codec<T>) {
    isClient && accessible && key in items && items[key] != "" && codec.parse(items[key]).Some?
  }

  /** `readStored`: the parsed slot, or `initialValue` on every kind of failure. */
  function ReadStored<T>(isClient: bool, accessible: bool, items: map<string, string>, key: string,
                         initialValue: T, codec: Codec<T>): (r: T)
    ensures Loadable(isClient, accessible, items, key, codec) ==> r == codec.parse(items[key]).value
    ensures !Loadable(isClient, accessible, items, key, codec) ==> r == initialValue
  {
    if !isClient then initialValue
    else if !accessible then initialValue
    else if key !in items || items[key] == "" then initialValue
    else match codec.parse(items[key])
      case None => initialValue
      case Some(v) => v
  }

  /** The slot map after `writeStored`: the new text on success, the old map otherwise. */
  function AfterWrite(isClient: bool, accessible: bool, items: map<string, string>, key: string,
                      text: string, setItemSucceeds: bool): (r: map<string, string>)
    ensures isClient && accessible && setItemSucceeds ==> r == items[key := text]
    ensures !(isClient && accessible && setItemSucceeds) ==> r == items
  {
    if isClient && accessible && setItemSucceeds then items[key := text] else items
  }

  /** `writeStored`: never fails outward; a failed write leaves the store as it was. */
  method WriteStored<T>(storage: StorageArea, isClient: bool, key: string, value: T, codec: Codec<T>,
                        setItemSucceeds: bool)
    modifies storage
    ensures storage.items == AfterWrite(isClient, storage.accessible, old(storage.items), key,
                                        codec.serialize(value), setItemSucceeds)
  {
    if !isClient {
      return;
    }
    if storage.accessible && setItemSucceeds {
      storage.items := storage.items[key := codec.serialize(value)];
    }
  }

  /** The argument of `setValue`: a new value or an updater applied to the previous one. */
  datatype Update<!T> = Replace(value: T) | Updater(f: T -> T) {
    function Apply(prev: T): (r: T)
      ensures Replace? ==> r == value
      ensures Updater? ==> r == f(prev)
    {
      match this
      case Replace(v) => v
      case Updater(f) => f(prev)
    }
  }

  /** A successful write is what the next load sees. */
  lemma LoadAfterSave<T(!new)>(items: map<string, string>, key: string, v: T, initialValue: T, codec: Codec<T>)
    requires RoundTrips(codec)
    ensures ReadStored(true, true, AfterWrite(true, true, items, key, codec.serialize(v), true), key, initialValue, codec) == v
  {
    assert codec.parse(codec.serialize(v)) == Some(v) && codec.serialize(v) != "";
  }

  /** A write to one key does not change what is loaded from another. */
  lemma SaveLeavesOtherKeys<T>(isClient: bool, accessible: bool, items: map<string, string>, key: string,
                               other: string, text: string, ok: bool, initialValue: T, codec: Codec<T>)
    requires other != key
    ensures ReadStored(isClient, accessible, AfterWrite(isClient, accessible, items, key, text, ok), other, initialValue, codec)
         == ReadStored(isClient, accessible, items, other, initialValue, codec)
  {
  }

  /** A missing, empty or unparseable slot loads as the fallback. */
  lemma CorruptSlotFallsBack<T>(items: map<string, string>, key: string, initialValue: T, codec: Codec<T>)
    requires key !in items || items[key] == "" || codec.parse(items[key]).None?
    ensures ReadStored(true, true, items, key, initialValue, codec) == initialValue
  {
  }

  /**
   * `useLocalStorage(key, initialValue)`: `storedValue` is read from the slot
   * once, on creation; every `setValue` updates it and then writes it back.
   */
  class LocalStorageHook<T> {
    const key: string
    const initialValue: T
    const codec: Codec<T>
    const isClient: bool
    const storage: StorageArea
    var storedValue: T

    constructor (key: string, initialValue: T, codec: Codec<T>, isClient: bool, storage: StorageArea)
      ensures this.key == key && this.initialValue == initialValue && this.codec == codec
      ensures this.isClient == isClient && this.storage == storage
      ensures storedValue == ReadStored(isClient, storage.accessible, storage.items, key, initialValue, codec)
    {
      this.key, this.initialValue, this.codec := key, initialValue, codec;
      this.isClient, this.storage := isClient, storage;
      storedValue := ReadStored(isClient, storage.accessible, storage.items, key, initialValue, codec);
    }

    /** The slot map is `before` after writing the current value, with the given write outcome. */
    ghost predicate SlotHolds(before: map<string, string>, setItemSucceeds: bool)
      reads this, storage
    {
      storage.items == AfterWrite(isClient, storage.accessible, before, key, codec.serialize(storedValue), setItemSucceeds)
    }

    /**
     * `setValue(value)`: the in-memory value becomes `next` whether or not the
     * write succeeds; the slot holds `next` exactly when it does.
     */
    method SetValue(value: Update<T>, setItemSucceeds: bool)
      modifies this, storage
      ensures storedValue == value.Apply(old(storedValue))
      ensures SlotHolds(old(storage.items), setItemSucceeds)
    {
      var next := value.Apply(storedValue);
      WriteStored(storage, isClient, key, next, codec, setItemSucceeds);
      storedValue := next;
    }
  }
}
