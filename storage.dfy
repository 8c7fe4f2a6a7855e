/**
 * The helpers of the storage utility module: values are serialised before
 * they are written. The serialiser (JSON.stringify) is a parameter, since
 * its behaviour is not modelled.
 */
module Storage {
  import opened JsValues
  import opened SecureStore

  /** saveASData(key, data): writes the serialised form of `data` under `key`. */
  method SaveASData(store: CredentialStore, key: string, data: JsValue, encode: JsValue -> string)
    returns (ok: bool)
    modifies store
    ensures ok ==> store.items == old(store.items)[key := encode(data)]
    ensures !ok ==> store.items == old(store.items)
  {
    var stringData := encode(data);
    ok := store.SetItem(key, stringData);
  }

  /** deleteASData(key): removes `key`. */
  method DeleteASData(store: CredentialStore, key: string) returns (ok: bool)
    modifies store
    ensures ok ==> store.items == old(store.items) - {key}
    ensures !ok ==> store.items == old(store.items)
  {
    ok := store.DeleteItem(key);
  }
}
