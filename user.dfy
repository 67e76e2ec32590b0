/** The user service (`src/lib/services/api/user.ts`): the signed-in user is held in a
    store and saved as JSON under `vide_edit_user`; the Gemini key is kept on its own
    under `gemini_api_key`. The clock is an input; whether a key write fits the quota is
    the `accepted` input. */
module UserService {
  import opened Types
  import opened Text
  import opened JsonCodec
  import opened WebStorage
  import opened GeminiProtocol
  import GeminiClient

  const UserKey: string := "vide_edit_user"
  const ServerContextError: string := "Cannot create user in server context"
  const SaveKeyError: string := "Failed to save API key"
  const DemoEmail: string := "demo@example.com"
  const DemoName: string := "Demo User"

  /** `const [firstName, ...rest] = name.split(' '); lastName = rest.join(' ')`: the
      first name is the text before the first space and the last name all the text after
      it; without a space the whole name is the first name. */
  function SplitName(name: string): (r: (string, string))
    ensures ' ' !in r.0
    ensures ' ' !in name ==> r == (name, "")
    ensures ' ' in name ==> r.0 + " " + r.1 == name && name[|r.0|] == ' ' && r.1 == name[|r.0| + 1..]
  {
    var parts := Split(name, ' ');
    var first := parts[0];
    var last := Join(parts[1..], ' ');
    if ' ' in name then
      var i := IndexOf(name, ' ');
      assert parts[1..] == Split(name[i + 1..], ' ');
      JoinSplit(name[i + 1..], ' ');
      assert name == name[..i] + " " + name[i + 1..];
      (first, last)
    else
      (first, last)
  }

  /** A name whose first space is at `k` splits around it. */
  lemma SplitAtFirstSpace(name: string, k: nat)
    requires k < |name| && name[k] == ' ' && ' ' !in name[..k]
    ensures SplitName(name) == (name[..k], name[k + 1..])
  {
    var r := SplitName(name);
    assert name[|r.0|] == ' ';
    assert r.0 == (r.0 + " " + r.1)[..k];
  }

  /** The demo account's name splits into "Demo" and "User". */
  lemma DemoNameSplit()
    ensures SplitName(DemoName) == ("Demo", "User")
  {
    assert DemoName[..4] == "Demo" && DemoName[5..] == "User";
    SplitAtFirstSpace(DemoName, 4);
  }

  /** The user `createUser(email, name)` makes at time `now`. */
  function NewUser(email: string, name: string, now: Timestamp): (u: User)
    ensures u.id == "user-" + RenderInt(now) && u.email == email && u.name == name
    ensures (u.firstName, u.lastName) == SplitName(name)
    ensures u.createdAt == now && u.updatedAt == now && u.apiKey == None
  {
    var (first, last) := SplitName(name);
    User("user-" + RenderInt(now), email, name, first, last, None, now, now)
  }

  /** What the store starts with when the module loads: the saved user, if the saved
      text is one. */
  function SavedUser(inBrowser: bool, items: map<string, string>): (r: Option<User>)
    ensures r.Some? ==> inBrowser && UserKey in items && ParseUserJson(items[UserKey]) == r
  {
    if inBrowser && UserKey in items then ParseUserJson(items[UserKey]) else None
  }

  /** A saved user is what the store starts with the next time the module loads. */
  lemma SavedUserReloads(items: map<string, string>, u: User)
    ensures SavedUser(true, items[UserKey := StringifyUser(u)]) == Some(u)
  {
    UserJsonRoundTrip(u);
  }

  /** `hasApiKey()`: a key is stored and is not empty. */
  predicate HasApiKey(ls: LocalStorage)
    reads ls
  {
    Truthy(GeminiClient.UserApiKey(ls))
  }

  /** The writable `userStore`. */
  class UserStore {
    var current: Option<User>

    /** The module's start-up: the store is filled from storage. */
    constructor(ls: LocalStorage)
      ensures current == SavedUser(ls.inBrowser, ls.items)
    {
      current := SavedUser(ls.inBrowser, ls.items);
    }

    /** `getCurrentUser`. */
    function CurrentUser(): Option<User>
      reads this
    {
      current
    }

    /** `createUser`: saves the new user and makes it the current one. */
    method CreateUser(ls: LocalStorage, email: string, name: string, now: Timestamp) returns (r: Result<User>)
      modifies this, ls
      ensures !ls.inBrowser ==> r == Failure(ServerContextError) && current == old(current) && ls.items == old(ls.items)
      ensures ls.inBrowser ==> r == Success(NewUser(email, name, now)) && current == Some(r.value)
      ensures ls.inBrowser ==> ls.items == old(ls.items)[UserKey := StringifyUser(r.value)]
      ensures ls.inBrowser ==> SavedUser(true, ls.items) == current
    {
      if !ls.inBrowser {
        return Failure(ServerContextError);
      }
      var user := NewUser(email, name, now);
      ls.SetItem(UserKey, StringifyUser(user), true);
      current := Some(user);
      SavedUserReloads(old(ls.items), user);
      return Success(user);
    }

    /** `updateUserApiKey`: the key is set on the current user, whose other fields stay
        as they were but for the update time. */
    method UpdateUserApiKey(ls: LocalStorage, apiKey: string, now: Timestamp) returns (r: Option<User>)
      modifies this, ls
      ensures !ls.inBrowser || old(current).None? ==> r == None && current == old(current) && ls.items == old(ls.items)
      ensures ls.inBrowser && old(current).Some? ==>
        r == Some(old(current).value.(updatedAt := now, apiKey := Some(apiKey))) && current == r &&
        ls.items == old(ls.items)[UserKey := StringifyUser(r.value)]
      ensures r.Some? ==>
        (r.value.id == old(current).value.id && r.value.email == old(current).value.email &&
         r.value.name == old(current).value.name && r.value.createdAt == old(current).value.createdAt)
    {
      if !ls.inBrowser || current.None? {
        return None;
      }
      var updated := current.value.(updatedAt := now, apiKey := Some(apiKey));
      ls.SetItem(UserKey, StringifyUser(updated), true);
      current := Some(updated);
      return Some(updated);
    }

    /** `createDemoUserIfNeeded`: the current user when there is one, otherwise a new
        demo user. */
    method CreateDemoUserIfNeeded(ls: LocalStorage, now: Timestamp) returns (r: Result<User>)
      modifies this, ls
      ensures old(current).Some? ==> r == Success(old(current).value) && current == old(current) && ls.items == old(ls.items)
      ensures old(current).None? && ls.inBrowser ==>
        r == Success(NewUser(DemoEmail, DemoName, now)) && r.value.firstName == "Demo" && r.value.lastName == "User"
      ensures old(current).None? && ls.inBrowser ==>
        current == Some(r.value) && ls.items == old(ls.items)[UserKey := StringifyUser(r.value)]
      ensures old(current).None? && !ls.inBrowser ==>
        r == Failure(ServerContextError) && current == old(current) && ls.items == old(ls.items)
    {
      if current.Some? {
        return Success(current.value);
      }
      DemoNameSplit();
      r := CreateUser(ls, DemoEmail, DemoName, now);
    }

    /** `logoutUser`. */
    method LogoutUser(ls: LocalStorage)
      modifies this, ls
      ensures !ls.inBrowser ==> current == old(current) && ls.items == old(ls.items)
      ensures ls.inBrowser ==> current == None && ls.items == old(ls.items) - {UserKey}
      ensures ls.inBrowser ==> SavedUser(true, ls.items) == None
    {
      if !ls.inBrowser {
        return;
      }
      ls.RemoveItem(UserKey);
      current := None;
    }
  }

  /** Creating the demo user is idempotent: once a call has produced a user, a second
      call, at any later time, returns that same user and writes nothing. */
  method CreateDemoUserTwice(store: UserStore, ls: LocalStorage, now1: Timestamp, now2: Timestamp)
    returns (first: Result<User>, second: Result<User>)
    modifies store, ls
    ensures ls.inBrowser ==> first.Success?
    ensures first.Success? ==> second == first && store.current == Some(first.value)
    ensures old(store.current).Some? ==> first == Success(old(store.current).value) && ls.items == old(ls.items)
    ensures old(store.current).None? && ls.inBrowser ==> ls.items == old(ls.items)[UserKey := StringifyUser(first.value)]
  {
    first := store.CreateDemoUserIfNeeded(ls, now1);
    second := store.CreateDemoUserIfNeeded(ls, now2);
  }

  // ---------------------------------------------------------------------------
  // The stored Gemini key

  /** `saveUserApiKey`: an empty key removes the stored one. A write the browser refuses
      is reported as "Failed to save API key". */
  method SaveUserApiKey(ls: LocalStorage, apiKey: string, accepted: bool) returns (r: Result<()>)
    modifies ls
    ensures !ls.inBrowser ==> r == Success(()) && ls.items == old(ls.items)
    ensures ls.inBrowser && apiKey == "" ==> r == Success(()) && ls.items == old(ls.items) - {GeminiClient.ApiKeyStorageKey}
    ensures ls.inBrowser && apiKey != "" && accepted ==>
      r == Success(()) && ls.items == old(ls.items)[GeminiClient.ApiKeyStorageKey := apiKey]
    ensures ls.inBrowser && apiKey != "" && !accepted ==> r == Failure(SaveKeyError) && ls.items == old(ls.items)
    ensures r.Success? && ls.inBrowser ==> (HasApiKey(ls) <==> apiKey != "")
  {
    if !ls.inBrowser {
      return Success(());
    }
    if apiKey != "" {
      if !accepted {
        return Failure(SaveKeyError);
      }
      ls.SetItem(GeminiClient.ApiKeyStorageKey, apiKey, true);
    } else {
      ls.RemoveItem(GeminiClient.ApiKeyStorageKey);
    }
    return Success(());
  }

  /** `clearApiKey`. */
  method ClearApiKey(ls: LocalStorage)
    modifies ls
    ensures ls.items == if ls.inBrowser then old(ls.items) - {GeminiClient.ApiKeyStorageKey} else old(ls.items)
    ensures !HasApiKey(ls)
  {
    if !ls.inBrowser {
      return;
    }
    ls.RemoveItem(GeminiClient.ApiKeyStorageKey);
  }
}
