/** The `users` table of roomies.db as an ordered sequence of rows, and the
    four SQL statements the handlers issue against it. Rows are kept in rowid
    order, and a query returns its rows in the order of a plain table scan;
    which row is `rows[0]` depends on that order only when two rows share the
    queried value. */
module Store {
  import opened Nullable

  /** One row: `id`, `username`, `hash`, `household` (NULL until the user
      creates or joins a household). */
  datatype User = User(id: int, username: string, hash: string, household: Option<string>)

  type Table = seq<User>

  predicate UsernameTaken(t: Table, name: string) {
    exists i :: 0 <= i < |t| && t[i].username == name
  }

  /** A household exists exactly when some row refers to it. */
  predicate HouseholdExists(t: Table, name: string) {
    exists i :: 0 <= i < |t| && t[i].household == Some(name)
  }

  predicate HasUser(t: Table, id: int) {
    exists i :: 0 <= i < |t| && t[i].id == id
  }

  predicate UniqueIds(t: Table) {
    forall i, j :: 0 <= i < j < |t| ==> t[i].id != t[j].id
  }

  predicate UniqueUsernames(t: Table) {
    forall i, j :: 0 <= i < j < |t| ==> t[i].username != t[j].username
  }

  /** The invariant every handler keeps: ids and usernames identify rows. */
  predicate WellFormed(t: Table) {
    UniqueIds(t) && UniqueUsernames(t)
  }

  /** `SELECT * FROM users WHERE <keep>` followed by `fetchall()`: the
      matching rows, the first of them being the first match in table order. */
  function Where(t: Table, keep: User -> bool): (rows: Table)
    ensures forall u :: u in rows <==> u in t && keep(u)
    ensures |rows| == 0 <==> forall i :: 0 <= i < |t| ==> !keep(t[i])
    ensures |rows| > 0 ==>
              exists i :: 0 <= i < |t| && t[i] == rows[0] && forall j :: 0 <= j < i ==> !keep(t[j])
  {
    if |t| == 0 then []
    else
      var rest := Where(t[1..], keep);
      if keep(t[0]) then
        [t[0]] + rest
      else
        assert |rest| > 0 ==> exists i :: 1 <= i < |t| && t[i] == rest[0] && forall j :: 0 <= j < i ==> !keep(t[j]) by {
          if |rest| > 0 {
            var k :| 0 <= k < |t[1..]| && t[1..][k] == rest[0] && forall j :: 0 <= j < k ==> !keep(t[1..][j]);
            assert t[k + 1] == rest[0];
            assert forall j :: 0 <= j < k + 1 ==> !keep(t[j]) by {
              forall j | 0 <= j < k + 1 ensures !keep(t[j]) {
                if j > 0 { assert t[j] == t[1..][j - 1]; }
              }
            }
          }
        }
        assert forall i :: 1 <= i < |t| ==> t[i] == t[1..][i - 1];
        rest
  }

  /** `WHERE username = ?` */
  function WithUsername(t: Table, name: string): Table {
    Where(t, (u: User) => u.username == name)
  }

  /** `WHERE household = ?`; a NULL household never equals the parameter. */
  function WithHousehold(t: Table, name: string): Table {
    Where(t, (u: User) => u.household == Some(name))
  }

  /** `WHERE id = ?`; with a missing session user the parameter is NULL and
      `id = NULL` holds of no row. */
  function WithId(t: Table, id: Option<int>): Table {
    Where(t, (u: User) => Some(u.id) == id)
  }

  /** With unique usernames the username query returns, first, the one row
      that carries the name. */
  lemma UniqueUsernameSelect(t: Table, i: int)
    requires UniqueUsernames(t) && 0 <= i < |t|
    ensures |WithUsername(t, t[i].username)| > 0
    ensures WithUsername(t, t[i].username)[0] == t[i]
  {
  }

  /** With unique usernames the username query never returns more than one
      row, so `rows[0]` is the whole answer. */
  lemma {:induction false} AtMostOneNamed(t: Table, name: string)
    requires UniqueUsernames(t)
    ensures |WithUsername(t, name)| <= 1
  {
    if |t| > 0 {
      assert UniqueUsernames(t[1..]) by {
        forall i, j | 0 <= i < j < |t[1..]| ensures t[1..][i].username != t[1..][j].username {
          assert t[1..][i] == t[i + 1] && t[1..][j] == t[j + 1];
        }
      }
      AtMostOneNamed(t[1..], name);
      if t[0].username == name {
        forall i | 0 <= i < |t[1..]| ensures t[1..][i].username != name {
          assert t[1..][i] == t[i + 1];
        }
      }
    }
  }

  /** The largest rowid of a non-empty table. */
  function LargestId(t: Table): (m: int)
    requires |t| > 0
    ensures forall i :: 0 <= i < |t| ==> t[i].id <= m
    ensures exists i :: 0 <= i < |t| && t[i].id == m
  {
    if |t| == 1 then t[0].id
    else
      var m' := LargestId(t[1..]);
      assert forall i :: 1 <= i < |t| ==> t[i] == t[1..][i - 1];
      if t[0].id >= m' then t[0].id else m'
  }

  /** The rowid SQLite gives a row inserted without one: 1 in an empty table,
      otherwise one more than the largest rowid present. */
  function NextRowId(t: Table): (id: int)
    ensures !HasUser(t, id)
    ensures forall i :: 0 <= i < |t| ==> t[i].id < id
  {
    if |t| == 0 then 1 else LargestId(t) + 1
  }

  /** `INSERT INTO users (username, hash) VALUES (?, ?)`: one new row at the
      end, with a fresh id and no household. */
  function Insert(t: Table, username: string, hash: string): (t': Table)
    ensures |t'| == |t| + 1 && t'[..|t|] == t
    ensures t'[|t|].username == username && t'[|t|].hash == hash && t'[|t|].household == None
    ensures !HasUser(t, t'[|t|].id)
    ensures UniqueIds(t) ==> UniqueIds(t')
    ensures UniqueUsernames(t) && !UsernameTaken(t, username) ==> UniqueUsernames(t')
  {
    t + [User(NextRowId(t), username, hash, None)]
  }

  /** `UPDATE users SET household = ? WHERE id = ?`: every row whose id is the
      parameter gets the new household; nothing else in the table changes. */
  function SetHousehold(t: Table, id: Option<int>, name: string): (t': Table)
    ensures |t'| == |t|
    ensures forall i :: 0 <= i < |t| ==>
              t'[i] == (if Some(t[i].id) == id then t[i].(household := Some(name)) else t[i])
    ensures WellFormed(t) ==> WellFormed(t')
  {
    if |t| == 0 then []
    else
      var row := if Some(t[0].id) == id then t[0].(household := Some(name)) else t[0];
      var rest := SetHousehold(t[1..], id, name);
      assert forall i :: 1 <= i < |t| ==> t[i] == t[1..][i - 1];
      [row] + rest
  }

  /** An UPDATE whose id matches no row (in particular `id = NULL`) leaves the
      table as it was. */
  lemma SetHouseholdNoMatch(t: Table, id: Option<int>, name: string)
    requires id.None? || !HasUser(t, id.value)
    ensures SetHousehold(t, id, name) == t
  {
  }
}
