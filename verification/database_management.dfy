/**
  The database page of `src/pages/DatabaseManagement.tsx`: one named account may open it,
  and it shows the row count of each of seven tables, their total and the number of
  tables.
 */
module DatabaseManagement {

  import opened Wrappers

  /** The one account allowed on the page. */
  const Owner := "ghitaoarga"

  /** What `checkAccess` does: send a visitor without a session to the start page, refuse
      anyone whose profile is missing or has another username, admit the owner. */
  datatype Access = ToStart | Refused | Granted(username: string)

  /** `user` is the session's user id; `profileUsername` answers the profile lookup. */
  function CheckAccess(user: Option<string>, profileUsername: string -> Option<string>): (r: Access)
    ensures r.ToStart? <==> user.None?
    ensures r.Granted? <==> user.Some? && profileUsername(user.value) == Some(Owner)
    ensures r.Granted? ==> r.username == Owner
  {
    match user
    case None => ToStart
    case Some(id) =>
      match profileUsername(id)
      case None => Refused
      case Some(name) => if name != Owner then Refused else Granted(name)
  }

  /** The tables, in the order the page lists them. */
  const TableNames: seq<string> :=
    ["fonduri", "compartimente", "inventare", "dosare", "profiles", "user_roles", "audit_logs"]

  /** One card of the page. */
  datatype TableInfo = TableInfo(name: string, count: nat)

  /** `count || 0`: a missing (null) count shows as 0. */
  function CountOrZero(count: Option<nat>): (r: nat)
    ensures count.Some? ==> r == count.value
    ensures count.None? ==> r == 0
  {
    count.GetOr(0)
  }

  /** `loadTableCounts`: ask each table's exact row count in turn (`countOf` answers the
      count query, `None` for a null count) and push one entry per table. */
  method LoadTableCounts(countOf: string -> Option<nat>) returns (tables: seq<TableInfo>)
    ensures |tables| == |TableNames|
    ensures forall i :: 0 <= i < |tables| ==>
      tables[i].name == TableNames[i] && tables[i].count == CountOrZero(countOf(TableNames[i]))
  {
    tables := [];
    for k := 0 to |TableNames|
      invariant |tables| == k
      invariant forall i :: 0 <= i < k ==>
        tables[i].name == TableNames[i] && tables[i].count == CountOrZero(countOf(TableNames[i]))
    {
      var count := countOf(TableNames[k]);
      tables := tables + [TableInfo(TableNames[k], CountOrZero(count))];
    }
  }

  /** `tables.reduce((acc, table) => acc + table.count, 0)`. */
  function Total(tables: seq<TableInfo>): nat {
    if tables == [] then 0 else Total(tables[..|tables| - 1]) + tables[|tables| - 1].count
  }

  lemma {:induction false} TotalAppend(tables: seq<TableInfo>, t: TableInfo)
    ensures Total(tables + [t]) == Total(tables) + t.count
  {
    assert (tables + [t])[..|tables|] == tables;
  }

  /** The total is at least every single count, and it is zero exactly when every table
      is empty. */
  lemma {:induction false} TotalBounds(tables: seq<TableInfo>)
    ensures forall i :: 0 <= i < |tables| ==> tables[i].count <= Total(tables)
    ensures Total(tables) == 0 <==> forall i :: 0 <= i < |tables| ==> tables[i].count == 0
  {
    if tables != [] {
      var init := tables[..|tables| - 1];
      TotalBounds(init);
      assert forall i :: 0 <= i < |init| ==> init[i] == tables[i];
    }
  }

  /** The sum of the counts the datastore gives for the named tables, nulls as 0. */
  function CountSum(names: seq<string>, countOf: string -> Option<nat>): nat {
    if names == [] then 0 else CountSum(names[..|names| - 1], countOf) + CountOrZero(countOf(names[|names| - 1]))
  }

  /** The displayed total of cards that show, one per name and in order, the datastore's
      counts is the sum of those counts. */
  lemma {:induction false} TotalIsCountSum(tables: seq<TableInfo>, names: seq<string>, countOf: string -> Option<nat>)
    requires |tables| == |names|
    requires forall i :: 0 <= i < |tables| ==>
      tables[i].name == names[i] && tables[i].count == CountOrZero(countOf(names[i]))
    ensures Total(tables) == CountSum(names, countOf)
  {
    if tables != [] {
      var n := |tables| - 1;
      assert forall i :: 0 <= i < n ==> tables[..n][i] == tables[i] && names[..n][i] == names[i];
      TotalIsCountSum(tables[..n], names[..n], countOf);
    }
  }

  /** After loading, "active tables" shows seven and the total is the sum of the seven
      tables' counts. */
  lemma LoadedSummary(countOf: string -> Option<nat>, tables: seq<TableInfo>)
    requires |tables| == |TableNames|
    requires forall i :: 0 <= i < |tables| ==>
      tables[i].name == TableNames[i] && tables[i].count == CountOrZero(countOf(TableNames[i]))
    ensures |tables| == 7
    ensures Total(tables) == CountSum(TableNames, countOf)
  {
    TotalIsCountSum(tables, TableNames, countOf);
  }

  /** The caption under a count: singular for exactly one row. */
  function RecordLabel(count: int): (r: string)
    ensures r == "înregistrare" <==> count == 1
    ensures r != "înregistrare" ==> r == "înregistrări"
  {
    if count == 1 then "înregistrare" else "înregistrări"
  }
}
