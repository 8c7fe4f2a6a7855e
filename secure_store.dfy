/**
 * The encrypted on-device key-value store (expo-secure-store), seen as a
 * map from keys to strings. Encryption is invisible here; what is kept is
 * that every write or delete may fail, in which case nothing changes.
 */
module SecureStore {

  class CredentialStore {
    var items: map<string, string>

    constructor (initial: map<string, string>)
      ensures items == initial
    {
      items := initial;
    }

    /** setItemAsync(key, value): on success the key holds exactly `value`. */
    method SetItem(key: string, value: string) returns (ok: bool)
      modifies this
      ensures ok ==> items == old(items)[key := value]
      ensures !ok ==> items == old(items)
    {
      ok :| true;
      if ok {
        items := items[key := value];
      }
    }

    /** deleteItemAsync(key): on success the key is gone and no other key changed. */
    method DeleteItem(key: string) returns (ok: bool)
      modifies this
      ensures ok ==> items == old(items) - {key}
      ensures !ok ==> items == old(items)
    {
      ok :| true;
      if ok {
        items := items - {key};
      }
    }
  }
}
