/**
 * The administrator access gate (app/admin/page.tsx): one shared password, an
 * in-page authenticated state, and a flag in the browser's local storage that
 * restores that state on the next visit.
 */
module AdminGate {
  import opened Types

  const AdminPassword := "Saniop44#"
  const FlagKey := "admin-authenticated"
  const InvalidPassword := "Invalid password"

  /** The browser's `localStorage`; it outlives any one page. */
  class LocalStorage {
    var items: map<string, string>

    constructor (items: map<string, string>)
      ensures this.items == items
    {
      this.items := items;
    }
  }

  /** The stored flag reads exactly "true". */
  predicate FlagSet(items: map<string, string>)
  {
    FlagKey in items && items[FlagKey] == "true"
  }

  class AdminPage {
    var isAuthenticated: bool
    var password: string
    var error: string
    const storage: LocalStorage

    /** The page is authenticated only while the durable flag says so. */
    ghost predicate Valid()
      reads this, storage
    {
      isAuthenticated ==> FlagSet(storage.items)
    }

    constructor (storage: LocalStorage)
      ensures Valid() && this.storage == storage
      ensures !isAuthenticated && password == "" && error == ""
    {
      this.storage := storage;
      isAuthenticated := false;
      password := "";
      error := "";
    }

    /** The mount effect: authenticated when the stored flag is exactly "true". */
    method Restore()
      requires Valid()
      modifies this`isAuthenticated
      ensures Valid()
      ensures isAuthenticated == (old(isAuthenticated) || FlagSet(storage.items))
    {
      var flag := if FlagKey in storage.items then Some(storage.items[FlagKey]) else None;
      if flag == Some("true") {
        isAuthenticated := true;
      }
    }

    method SetPassword(input: string)
      modifies this`password
      ensures password == input
    {
      password := input;
    }

    /**
     * `handleLogin`: the exact password authenticates, stores the flag and clears the
     * error; any other password sets the error and changes nothing else.
     */
    method HandleLogin()
      requires Valid()
      modifies this`isAuthenticated, this`error, storage
      ensures Valid()
      ensures password == AdminPassword ==>
                isAuthenticated && error == "" && storage.items == old(storage.items)[FlagKey := "true"]
      ensures password != AdminPassword ==>
                && error == InvalidPassword
                && isAuthenticated == old(isAuthenticated) && storage.items == old(storage.items)
    {
      if password == AdminPassword {
        isAuthenticated := true;
        storage.items := storage.items[FlagKey := "true"];
        error := "";
      } else {
        error := InvalidPassword;
      }
    }

    /** `handleLogout`: leaves the panel, removes the flag and clears the password field. */
    method HandleLogout()
      requires Valid()
      modifies this`isAuthenticated, this`password, storage
      ensures Valid()
      ensures !isAuthenticated && password == "" && storage.items == old(storage.items) - {FlagKey}
      ensures !FlagSet(storage.items)
    {
      isAuthenticated := false;
      storage.items := storage.items - {FlagKey};
      password := "";
    }

    /** The admin panel is rendered instead of the password form. */
    function ShowsPanel(): (shown: bool)
      reads this, storage
      requires Valid()
      ensures shown ==> FlagSet(storage.items)
    {
      isAuthenticated
    }
  }
}
