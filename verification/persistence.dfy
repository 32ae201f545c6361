/** Model of the browser-local storage that components/Recorder.tsx uses to keep
    the transcript and the translation across reloads: a map from key to string.
 */
module Persistence {

  type Store = map<string, string>

  const TranscriptKey: string := "transcript"
  const TranslationKey: string := "translation"

  /** The mount effect's read of one key: `getItem` and then the truthiness test,
      so a missing or empty saved value loads as the empty initial state. */
  function Load(store: Store, key: string): (v: string)
    ensures v != "" <==> key in store && store[key] != ""
    ensures v != "" ==> v == store[key]
  {
    if key in store && store[key] != "" then store[key] else ""
  }

  /** The save effect `if (value) localStorage.setItem(key, value)`: only a
      non-empty value is written, and no other key is touched. */
  function Save(store: Store, key: string, value: string): (s: Store)
    ensures value == "" ==> s == store
    ensures value != "" ==> key in s && s[key] == value
    ensures forall k :: k != key ==> (k in s <==> k in store)
    ensures forall k :: k != key && k in s ==> s[k] == store[k]
  {
    if value != "" then store[key := value] else store
  }

  /** `localStorage.removeItem(key)`. */
  function Remove(store: Store, key: string): (s: Store)
    ensures key !in s
    ensures forall k :: k != key ==> (k in s <==> k in store)
    ensures forall k :: k != key && k in s ==> s[k] == store[k]
  {
    store - {key}
  }

  /** Reading back what was saved gives it back, unless it was empty, in which
      case the stored value is whatever it was before. */
  lemma LoadAfterSave(store: Store, key: string, value: string)
    ensures Load(Save(store, key, value), key) == if value == "" then Load(store, key) else value
  {
  }
}
