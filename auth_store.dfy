/** The authentication store of the React front end
    (frontend/src/store/auth.js), with the browser's `localStorage`, where the
    store keeps the token under `auth_token`. */
module Auth {
  import opened Json
  import opened Optional

  /** The `localStorage` key of the token. */
  const TokenKey := "auth_token"

  /** The browser's `localStorage`: string keys to string values. */
  class LocalStorage {
    var items: map<string, string>

    constructor (items: map<string, string>)
      ensures this.items == items
    {
      this.items := items;
    }

    /** `getItem(key)`: the stored value, or null. */
    function GetItem(key: string): (r: Option<string>)
      reads this
      ensures r.Some? <==> key in items
      ensures r.Some? ==> r.value == items[key]
    {
      if key in items then Some(items[key]) else None
    }
  }

  /** The signed-in user as the pages record it. */
  datatype User = User(id: Value, email: string)

  /** JavaScript truthiness of a token: present and not the empty string. */
  predicate TokenTruthy(token: Option<string>) {
    token.Some? && token.value != []
  }

  class AuthStore {
    const storage: LocalStorage
    var user: Option<User>
    var token: Option<string>
    var loading: bool
    var error: Option<string>

    /** The initial state (auth.js:4-7): the token is whatever `localStorage`
        holds under `auth_token`, null when it holds nothing. */
    constructor (storage: LocalStorage)
      ensures this.storage == storage
      ensures token == (if TokenKey in storage.items then Some(storage.items[TokenKey]) else None)
      ensures user == None && !loading && error == None
    {
      this.storage := storage;
      user := None;
      token := storage.GetItem(TokenKey);
      loading := false;
      error := None;
    }

    /** `setUser` (auth.js:9). */
    method SetUser(value: Option<User>)
      modifies this
      ensures user == value
      ensures token == old(token) && loading == old(loading) && error == old(error)
    {
      user := value;
    }

    /** `setToken` (auth.js:10-17): a truthy token is written to storage, any
        other removes the key; either way the store's token becomes the
        argument, and no other storage key and no other field changes. */
    method SetToken(value: Option<string>)
      modifies this, storage
      ensures token == value
      ensures TokenTruthy(value) ==> storage.items == old(storage.items)[TokenKey := value.value]
      ensures !TokenTruthy(value) ==> storage.items == old(storage.items) - {TokenKey}
      ensures user == old(user) && loading == old(loading) && error == old(error)
    {
      if TokenTruthy(value) {
        storage.items := storage.items[TokenKey := value.value];
      } else {
        storage.items := storage.items - {TokenKey};
      }
      token := value;
    }

    /** `setLoading` (auth.js:18). */
    method SetLoading(value: bool)
      modifies this
      ensures loading == value
      ensures user == old(user) && token == old(token) && error == old(error)
    {
      loading := value;
    }

    /** `setError` (auth.js:19). */
    method SetError(value: Option<string>)
      modifies this
      ensures error == value
      ensures user == old(user) && token == old(token) && loading == old(loading)
    {
      error := value;
    }

    /** `logout` (auth.js:21-25): user, token and error become null; the
        loading flag stays, and storage is not touched, so the stored token
        outlives the logout and comes back with the next store. */
    method Logout()
      modifies this
      ensures user == None && token == None && error == None
      ensures loading == old(loading) && storage.items == old(storage.items)
    {
      user, token, error := None, None, None;
    }

    /** `clearError` (auth.js:27). */
    method ClearError()
      modifies this
      ensures error == None
      ensures user == old(user) && token == old(token) && loading == old(loading)
    {
      error := None;
    }
  }

  /** After a truthy `setToken` and a `logout`, a store created afresh from
      the same storage (the next page load) is signed in with that token
      again. */
  method TokenSurvivesLogout(storage: LocalStorage, value: string) returns (next: AuthStore)
    requires value != []
    modifies storage
    ensures next.token == Some(value)
  {
    var store := new AuthStore(storage);
    store.SetToken(Some(value));
    store.Logout();
    next := new AuthStore(storage);
  }
}
