/** The DynamoDB side of authentication: folding the scanned user items into the
    authenticator's credentials map, and writing one new user into the users table. Whether
    `scan` or `put_item` raised is an input. */
module Auth {
  import opened Prelude

  /** One scanned item. `extra` holds any further attributes the item carries; they are
      not copied into the credentials. */
  datatype UserItem = UserItem(username: string, email: string, name: string, password: string,
                               extra: map<string, string>)

  /** The entry kept per username: exactly the item's email, name and password (hash). */
  datatype UserRecord = UserRecord(email: string, name: string, password: string)

  /** `{"usernames": {...}}`: the only top-level key is `usernames`. */
  datatype Credentials = Credentials(usernames: map<string, UserRecord>)

  /** A `table.scan()` response (`Items`, `None` when the key is missing), or a raised `ClientError`. */
  datatype ScanResponse = Scanned(items: Option<seq<UserItem>>) | ScanClientError(message: string)

  function RecordOf(item: UserItem): UserRecord {
    UserRecord(item.email, item.name, item.password)
  }

  /** Reference definition of the fold: items are written in scan order, so a later item
      overwrites an earlier one with the same username. */
  function Fold(items: seq<UserItem>): map<string, UserRecord> {
    if items == [] then map[]
    else
      var last := items[|items| - 1];
      Fold(items[..|items| - 1])[last.username := RecordOf(last)]
  }

  function UsernamesOf(items: seq<UserItem>): set<string> {
    set i | 0 <= i < |items| :: items[i].username
  }

  /** Item `i` is the last one carrying its username. */
  predicate IsLastFor(items: seq<UserItem>, i: int) {
    && 0 <= i < |items|
    && forall j :: i < j < |items| ==> items[j].username != items[i].username
  }

  /** The fold has one key per distinct username among the items, and no other key. */
  lemma {:induction false} FoldKeys(items: seq<UserItem>)
    ensures Fold(items).Keys == UsernamesOf(items)
    decreases |items|
  {
    if items != [] {
      var init := items[..|items| - 1];
      var last := items[|items| - 1];
      FoldKeys(init);
      assert UsernamesOf(items) == UsernamesOf(init) + {last.username} by {
        forall u | u in UsernamesOf(items)
          ensures u in UsernamesOf(init) + {last.username}
        {
          var i :| 0 <= i < |items| && items[i].username == u;
          if i < |items| - 1 {
            assert init[i] == items[i];
          }
        }
        forall u | u in UsernamesOf(init)
          ensures u in UsernamesOf(items)
        {
          var i :| 0 <= i < |init| && init[i].username == u;
          assert items[i] == init[i];
        }
      }
    }
  }

  /** Last writer wins: a username maps to the record of the last item that carries it. */
  lemma {:induction false} FoldLastWriterWins(items: seq<UserItem>, i: int)
    requires IsLastFor(items, i)
    ensures items[i].username in Fold(items)
    ensures Fold(items)[items[i].username] == RecordOf(items[i])
    decreases |items|
  {
    var init := items[..|items| - 1];
    if i < |items| - 1 {
      assert init[i] == items[i];
      assert IsLastFor(init, i) by {
        forall j | i < j < |init|
          ensures init[j].username != init[i].username
        {
          assert init[j] == items[j];
        }
      }
      FoldLastWriterWins(init, i);
    }
  }

  /** `load_credentials_from_db`: folds the scanned items into `{"usernames": {...}}`, each
      entry copying exactly email, name and password, later items overwriting earlier ones;
      a `ClientError` yields `{"usernames": {}}`. */
  method LoadCredentials(scan: ScanResponse) returns (creds: Credentials)
    ensures scan.ScanClientError? ==> creds.usernames == map[]
    ensures scan.Scanned? ==> creds.usernames.Keys == UsernamesOf(scan.items.GetOr([]))
    ensures scan.Scanned? ==>
              forall i :: IsLastFor(scan.items.GetOr([]), i) ==>
                creds.usernames[scan.items.GetOr([])[i].username] == RecordOf(scan.items.GetOr([])[i])
  {
    if scan.ScanClientError? {
      return Credentials(map[]);
    }
    var users := scan.items.GetOr([]);
    var usernames: map<string, UserRecord> := map[];
    var k := 0;
    while k < |users|
      invariant 0 <= k <= |users|
      invariant usernames == Fold(users[..k])
    {
      var user := users[k];
      usernames := usernames[user.username := UserRecord(user.email, user.name, user.password)];
      assert users[..k + 1][..k] == users[..k];
      k := k + 1;
    }
    assert users[..k] == users;
    FoldKeys(users);
    forall i | IsLastFor(users, i)
      ensures usernames[users[i].username] == RecordOf(users[i])
    {
      FoldLastWriterWins(users, i);
    }
    creds := Credentials(usernames);
  }

  /** The `chatmydocs_users` table: each item under its `username`. */
  type UserTable = map<string, UserItem>

  /** `save_new_user_to_db` against the table: True unless `put_item` raised `ClientError`.
      When it did not, the username now holds an item with exactly the four attributes
      (username, name, email, password hash) and every other item is as it was; when it did,
      the table is unchanged. */
  function SaveNewUser(table: UserTable, username: string, name: string, email: string, hashedPassword: string,
                       putRaises: UserItem -> bool): (r: (bool, UserTable))
    ensures r.0 <==> !putRaises(UserItem(username, email, name, hashedPassword, map[]))
    ensures r.0 ==> && r.1.Keys == table.Keys + {username}
                    && r.1[username] == UserItem(username, email, name, hashedPassword, map[])
                    && forall u :: u in table && u != username ==> r.1[u] == table[u]
    ensures !r.0 ==> r.1 == table
  {
    var item := UserItem(username, email, name, hashedPassword, map[]);
    if putRaises(item) then (false, table) else (true, table[username := item])
  }

  /** A scan that returns the table's items: every item is the one stored under its username,
      and every stored username occurs. The order is the scan's own. */
  predicate ScanOf(items: seq<UserItem>, table: UserTable) {
    && (forall i :: 0 <= i < |items| ==> items[i].username in table && table[items[i].username] == items[i])
    && (forall u :: u in table ==> exists i :: 0 <= i < |items| && items[i].username == u)
  }

  /** When every item agrees with the table, the fold keeps each username's stored record. */
  lemma {:induction false} FoldAgreesWithTable(items: seq<UserItem>, table: UserTable)
    requires forall i :: 0 <= i < |items| ==> items[i].username in table && table[items[i].username] == items[i]
    ensures forall u :: u in Fold(items) ==> u in table && Fold(items)[u] == RecordOf(table[u])
    decreases |items|
  {
    if items != [] {
      var init := items[..|items| - 1];
      assert forall i :: 0 <= i < |init| ==> init[i] == items[i];
      FoldAgreesWithTable(init, table);
    }
  }

  /** A scan of the table, folded, is the table's record per username. */
  lemma ScanFoldsTable(items: seq<UserItem>, table: UserTable)
    requires ScanOf(items, table)
    ensures Fold(items).Keys == table.Keys
    ensures forall u :: u in table ==> Fold(items)[u] == RecordOf(table[u])
  {
    FoldKeys(items);
    FoldAgreesWithTable(items, table);
  }

  /** A user that `save_new_user_to_db` reports saved is loaded back by
      `load_credentials_from_db` from any scan of the table afterwards, with the saved email,
      name and hash; every other user keeps the entry the table held. */
  lemma SavedUserIsLoaded(table: UserTable, username: string, name: string, email: string, hashedPassword: string,
                          putRaises: UserItem -> bool, after: UserTable, items: seq<UserItem>)
    requires SaveNewUser(table, username, name, email, hashedPassword, putRaises) == (true, after)
    requires ScanOf(items, after)
    ensures username in Fold(items) && Fold(items)[username] == UserRecord(email, name, hashedPassword)
    ensures forall u :: u in table && u != username ==> u in Fold(items) && Fold(items)[u] == RecordOf(table[u])
  {
    ScanFoldsTable(items, after);
  }
}
