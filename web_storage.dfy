/** The browser's `localStorage`, as the services use it: a map from keys to string
    values. `inBrowser` is SvelteKit's `browser` flag; outside the browser the services
    leave storage alone. Whether a `setItem` fits the quota is decided by the browser, so
    it comes in as the `accepted` argument: a rejected write throws and stores nothing. */
module WebStorage {
  import opened Types

  class LocalStorage {
    const inBrowser: bool
    var items: map<string, string>

    constructor(inBrowser: bool, items: map<string, string>)
      ensures this.inBrowser == inBrowser && this.items == items
    {
      this.inBrowser := inBrowser;
      this.items := items;
    }

    /** `localStorage.getItem(key)`; `None` stands for `null`. */
    function GetItem(key: string): (r: Option<string>)
      reads this
      ensures r.Some? <==> key in items
      ensures r.Some? ==> r.value == items[key]
    {
      if key in items then Some(items[key]) else None
    }

    /** `localStorage.setItem(key, value)`; `accepted` is false when the write would
        exceed the quota, in which case nothing is stored. */
    method SetItem(key: string, value: string, accepted: bool)
      modifies this
      ensures items == if accepted then old(items)[key := value] else old(items)
    {
      if accepted {
        items := items[key := value];
      }
    }

    /** `localStorage.removeItem(key)`: removing an absent key is allowed. */
    method RemoveItem(key: string)
      modifies this
      ensures items == old(items) - {key}
    {
      items := items - {key};
    }
  }
}
