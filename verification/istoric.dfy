/**
  The labels of the activity log, `getActionLabel` in `src/pages/Istoric.tsx`: an audit
  row's action and table name become the Romanian text shown in the log.
 */
module Istoric {

  import opened Wrappers

  /** The actions whose label ignores the table. */
  predicate IsSessionOrExcelAction(action: string) {
    action in {"LOGIN", "LOGOUT", "IMPORT_EXCEL", "EXPORT_EXCEL"}
  }

  /** The label of a table name: the four known tables have a Romanian name, any other
      name is shown as it is. */
  function TableLabel(tableName: string): (r: string)
    ensures tableName == "fonduri" ==> r == "Fond"
    ensures tableName == "compartimente" ==> r == "Compartiment"
    ensures tableName == "inventare" ==> r == "Inventar"
    ensures tableName == "dosare" ==> r == "Dosar"
    ensures tableName !in {"fonduri", "compartimente", "inventare", "dosare"} ==> r == tableName
  {
    if tableName == "fonduri" then "Fond"
    else if tableName == "compartimente" then "Compartiment"
    else if tableName == "inventare" then "Inventar"
    else if tableName == "dosare" then "Dosar"
    else tableName
  }

  /** The label of a data action: the three write actions have a Romanian name, any
      other action string is shown as it is. */
  function DataActionLabel(action: string): (r: string)
    ensures action == "INSERT" ==> r == "Adăugare"
    ensures action == "UPDATE" ==> r == "Modificare"
    ensures action == "DELETE" ==> r == "Ștergere"
    ensures action !in {"INSERT", "UPDATE", "DELETE"} ==> r == action
  {
    if action == "INSERT" then "Adăugare"
    else if action == "UPDATE" then "Modificare"
    else if action == "DELETE" then "Ștergere"
    else action
  }

  /** `getActionLabel(action, tableName)`; `None` is a null table name. */
  function ActionLabel(action: string, tableName: Option<string>): (r: string)
    ensures action == "LOGIN" ==> r == "Autentificare"
    ensures action == "LOGOUT" ==> r == "Deconectare"
    ensures action == "IMPORT_EXCEL" ==> r == "Import Excel"
    ensures action == "EXPORT_EXCEL" ==> r == "Export Excel"
    ensures !IsSessionOrExcelAction(action) && tableName.GetOr("") == "" ==> r == DataActionLabel(action)
    ensures !IsSessionOrExcelAction(action) && tableName.GetOr("") != "" ==>
      r == DataActionLabel(action) + " " + TableLabel(tableName.value)
  {
    if action == "LOGIN" then "Autentificare"
    else if action == "LOGOUT" then "Deconectare"
    else if action == "IMPORT_EXCEL" then "Import Excel"
    else if action == "EXPORT_EXCEL" then "Export Excel"
    else
      var table := if tableName.Some? && tableName.value != "" then TableLabel(tableName.value) else "";
      var actionLabel := DataActionLabel(action);
      if table != "" then actionLabel + " " + table else actionLabel
  }

  /** A session or spreadsheet action has the same label whatever table it names. */
  lemma SessionLabelIgnoresTable(action: string, t1: Option<string>, t2: Option<string>)
    requires IsSessionOrExcelAction(action)
    ensures ActionLabel(action, t1) == ActionLabel(action, t2)
  {
  }

  /** A label is empty only for an empty action with no table; otherwise the log always
      shows some text. */
  lemma LabelEmptyOnlyWithoutAction(action: string, tableName: Option<string>)
    ensures ActionLabel(action, tableName) == "" <==> action == "" && tableName.GetOr("") == ""
  {
    if action == "" && tableName.GetOr("") != "" {
      assert |ActionLabel(action, tableName)| == 1 + |TableLabel(tableName.value)|;
    }
  }

  /** With a table, a data action's label is read back as the action's label, a space,
      and the table's label: the first word is the action's label whenever that label
      has no space of its own. */
  lemma {:induction false} LabelSplitsAtSpace(action: string, tableName: string)
    requires !IsSessionOrExcelAction(action) && tableName != ""
    requires ' ' !in DataActionLabel(action)
    ensures var r := ActionLabel(action, Some(tableName));
      var n := |DataActionLabel(action)|;
      && n < |r| && r[n] == ' '
      && (forall i :: 0 <= i < n ==> r[i] != ' ')
      && r[..n] == DataActionLabel(action) && r[n + 1..] == TableLabel(tableName)
  {
    var r := ActionLabel(action, Some(tableName));
    var a := DataActionLabel(action);
    assert r == a + " " + TableLabel(tableName);
    forall i | 0 <= i < |a| ensures r[i] != ' ' {
      assert r[i] == a[i];
    }
    assert r[..|a|] == a;
    assert r[|a| + 1..] == TableLabel(tableName);
  }

  /** The label of a record insert, and of an action and table the lookups do not know. */
  lemma KnownWriteLabels()
    ensures ActionLabel("INSERT", Some("dosare")) == "Adăugare Dosar"
    ensures ActionLabel("CREATE_ADMIN", Some("user_roles")) == "CREATE_ADMIN user_roles"
  {
    assert DataActionLabel("INSERT") == "Adăugare";
    assert TableLabel("dosare") == "Dosar";
    assert DataActionLabel("CREATE_ADMIN") == "CREATE_ADMIN";
    assert TableLabel("user_roles") == "user_roles";
  }
}
