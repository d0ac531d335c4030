/** The error bookkeeping shared by the product forms: a dictionary from a
    field's key to its message, filled by the validators and blanked field by
    field as the user edits. */
module Forms {

  /** `errors` holds an entry under `key` exactly when the check failed, and then
      it is `message`. */
  predicate Reported<K>(errors: map<K, string>, key: K, failed: bool, message: string) {
    (key in errors <==> failed) && (failed ==> errors[key] == message)
  }

  /** `if (errors[name]) setErrors({ ...errors, [name]: '' })`: a non-empty message
      under `key` is blanked; no key is added or removed, and no other message
      changes. */
  function ClearError<K>(errors: map<K, string>, key: K): (r: map<K, string>)
    ensures r.Keys == errors.Keys
    ensures forall k :: k in r ==> r[k] == if k == key then "" else errors[k]
  {
    if key in errors && errors[key] != "" then errors[key := ""] else errors
  }
}
