/**
 * The two browser-storage keys the application keeps: `vms_registered_hosts`, the JSON list
 * of self-registered hosts, and `vms_user`, the signed-in session. JSON encoding is not
 * modelled; each key holds the decoded value.
 */
module BrowserStorage {
  import opened Wrappers
  import opened DataModel

  class Storage {
    /** `vms_registered_hosts` (an absent key reads as the empty list). */
    var registeredHosts: seq<StoredHost>
    /** `vms_user`. */
    var sessionUser: Option<User>

    constructor(hosts: seq<StoredHost>, session: Option<User>)
      ensures registeredHosts == hosts && sessionUser == session
    {
      registeredHosts := hosts;
      sessionUser := session;
    }
  }
}
