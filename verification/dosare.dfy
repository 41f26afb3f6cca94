/**
  The case-record page of one inventory, `src/pages/Dosare.tsx`: the spreadsheet export
  of the records, the spreadsheet import (one bulk insert of every sheet row, mapped
  field by field with JavaScript `||`), the manual add form, and the release of the
  inventory's edit lock when the page is left.

  A spreadsheet row is the object the spreadsheet library gives for one sheet row:
  header text to cell value. Import does no header discovery and no checking of the
  values: whatever the keys hold is sent to the datastore as it is.
 */
module Dosare {

  import opened Wrappers
  import opened Js
  import Seqs
  import Inventare

  /** A stored case record, with the nullability of the `dosare` table. */
  datatype Dosar = Dosar(
    id: string,
    nr_crt: int,
    indicativ_nomenclator: string,
    continut: string,
    date_extreme: string,
    numar_file: Option<int>,
    observatii: Option<string>,
    nr_cutie: Option<int>)

  /** A record as it is sent to the datastore's insert: each field is whatever value the
      code computed, typed or not. */
  datatype DosarInsert = DosarInsert(
    nr_crt: Value,
    indicativ_nomenclator: Value,
    continut: Value,
    date_extreme: Value,
    numar_file: Value,
    observatii: Value,
    nr_cutie: Value,
    inventar_id: string)

  /** One spreadsheet row: column header to cell value. */
  type Row = map<string, Value>

  /** `row[key]`: an absent key reads as `undefined`. */
  function Get(row: Row, key: string): Value {
    if key in row then row[key] else Undefined
  }

  // The display headers of the exported sheet, and the column keys import also accepts.
  const NrCrtHeader := "Nr. crt"
  const IndicativHeader := "Indicativ nomenclator"
  const ContinutHeader := "Conținut"
  const DateExtremeHeader := "Date extreme"
  const NumarFileHeader := "Număr file"
  const ObservatiiHeader := "Observații"
  const NrCutieHeader := "Nr. cutie"

  // ---------------------------------------------------------------------------
  // Export

  function NumOrNull(x: Option<int>): Value {
    match x
    case Some(n) => Num(n as real)
    case None => Null
  }

  function StrOrNull(x: Option<string>): Value {
    match x
    case Some(s) => Str(s)
    case None => Null
  }

  /** The object written for one record; `observatii` and `nr_cutie` go through `|| ""`. */
  function ExportRow(d: Dosar): (row: Row)
    ensures row.Keys == {NrCrtHeader, IndicativHeader, ContinutHeader, DateExtremeHeader,
                         NumarFileHeader, ObservatiiHeader, NrCutieHeader}
    ensures row[ObservatiiHeader] == if d.observatii.Some? && d.observatii.value != "" then Str(d.observatii.value) else Str("")
    ensures row[NrCutieHeader] == if d.nr_cutie.Some? && d.nr_cutie.value != 0 then Num(d.nr_cutie.value as real) else Str("")
  {
    map[NrCrtHeader := Num(d.nr_crt as real),
        IndicativHeader := Str(d.indicativ_nomenclator),
        ContinutHeader := Str(d.continut),
        DateExtremeHeader := Str(d.date_extreme),
        NumarFileHeader := NumOrNull(d.numar_file),
        ObservatiiHeader := Or(StrOrNull(d.observatii), Str("")),
        NrCutieHeader := Or(NumOrNull(d.nr_cutie), Str(""))]
  }

  /** `handleExport`: one row per record, in the order of the loaded records. */
  function Export(dosare: seq<Dosar>): (rows: seq<Row>)
    ensures |rows| == |dosare|
    ensures forall i :: 0 <= i < |dosare| ==> rows[i] == ExportRow(dosare[i])
  {
    Seqs.Map(dosare, ExportRow)
  }

  // ---------------------------------------------------------------------------
  // Import

  /** The mapping of one sheet row: each field takes the display-header value when it is
      truthy and the snake_case key's value otherwise; the two optional fields fall back
      to `null` as well. */
  function ImportRow(row: Row, inventarId: string): DosarInsert {
    DosarInsert(
      Or(Get(row, NrCrtHeader), Get(row, "nr_crt")),
      Or(Get(row, IndicativHeader), Get(row, "indicativ_nomenclator")),
      Or(Get(row, ContinutHeader), Get(row, "continut")),
      Or(Get(row, DateExtremeHeader), Get(row, "date_extreme")),
      Or(Get(row, NumarFileHeader), Get(row, "numar_file")),
      Or(Or(Get(row, ObservatiiHeader), Get(row, "observatii")), Null),
      Or(Or(Get(row, NrCutieHeader), Get(row, "nr_cutie")), Null),
      inventarId)
  }

  /** The batch `handleImport` inserts: one record per sheet row, in sheet order. */
  function Import(rows: seq<Row>, inventarId: string): (batch: seq<DosarInsert>)
    ensures |batch| == |rows|
    ensures forall i :: 0 <= i < |rows| ==> batch[i] == ImportRow(rows[i], inventarId)
  {
    Seqs.Map(rows, row => ImportRow(row, inventarId))
  }

  /** The field rule of the import: display header first, then the snake_case key, and for
      the optional fields `null` when both are missing or falsy. */
  lemma ImportFieldRule(row: Row, inventarId: string)
    ensures var d := ImportRow(row, inventarId);
      && d.inventar_id == inventarId
      && d.nr_crt == (if Truthy(Get(row, NrCrtHeader)) then Get(row, NrCrtHeader) else Get(row, "nr_crt"))
      && d.indicativ_nomenclator == (if Truthy(Get(row, IndicativHeader)) then Get(row, IndicativHeader)
                                     else Get(row, "indicativ_nomenclator"))
      && d.continut == (if Truthy(Get(row, ContinutHeader)) then Get(row, ContinutHeader) else Get(row, "continut"))
      && d.date_extreme == (if Truthy(Get(row, DateExtremeHeader)) then Get(row, DateExtremeHeader)
                            else Get(row, "date_extreme"))
      && d.numar_file == (if Truthy(Get(row, NumarFileHeader)) then Get(row, NumarFileHeader) else Get(row, "numar_file"))
      && d.observatii == (if Truthy(Get(row, ObservatiiHeader)) then Get(row, ObservatiiHeader)
                          else if Truthy(Get(row, "observatii")) then Get(row, "observatii")
                          else Null)
      && d.nr_cutie == (if Truthy(Get(row, NrCutieHeader)) then Get(row, NrCutieHeader)
                        else if Truthy(Get(row, "nr_cutie")) then Get(row, "nr_cutie")
                        else Null)
      && (d.observatii == Null || Truthy(d.observatii))
      && (d.nr_cutie == Null || Truthy(d.nr_cutie))
  {
    OrTruthy(Get(row, ObservatiiHeader), Get(row, "observatii"));
    OrTruthy(Get(row, NrCutieHeader), Get(row, "nr_cutie"));
  }

  // ---------------------------------------------------------------------------
  // Export followed by import

  /** What the spreadsheet library may do to a written row before it is read back: keep
      a cell as written, or drop a cell whose value is falsy (an empty or null cell); it
      never alters a value, never drops a truthy one and never invents a column. */
  ghost predicate ReadBack(written: Row, read: Row) {
    && read.Keys <= written.Keys
    && (forall k :: k in read ==> read[k] == written[k])
    && (forall k :: k in written && Truthy(written[k]) ==> k in read)
  }

  /** Reading a written cell back through a display header whose snake_case twin was
      never written gives the cell when it is truthy and `undefined` otherwise. */
  lemma {:induction false} ReadBackCell(written: Row, read: Row, header: string, snake: string)
    requires ReadBack(written, read)
    requires header in written && snake !in written
    ensures Truthy(written[header]) ==> Or(Get(read, header), Get(read, snake)) == written[header]
    ensures !Truthy(written[header]) ==> Or(Get(read, header), Get(read, snake)) == Undefined
  {
    assert snake !in read;
    if header in read {
      assert read[header] == written[header];
    } else {
      assert !Truthy(written[header]);
    }
  }

  /** What re-importing an exported record gives: the required fields come back when they
      are truthy (and as `undefined` otherwise), an empty or absent `observatii` or
      `nr_cutie` comes back as `null`, and the record is attached to the importing
      inventory. */
  predicate RoundTripped(d: Dosar, r: DosarInsert, inventarId: string) {
    && r.inventar_id == inventarId
    && r.nr_crt == (if d.nr_crt != 0 then Num(d.nr_crt as real) else Undefined)
    && r.indicativ_nomenclator == (if d.indicativ_nomenclator != "" then Str(d.indicativ_nomenclator) else Undefined)
    && r.continut == (if d.continut != "" then Str(d.continut) else Undefined)
    && r.date_extreme == (if d.date_extreme != "" then Str(d.date_extreme) else Undefined)
    && r.numar_file == (if d.numar_file.Some? && d.numar_file.value != 0 then Num(d.numar_file.value as real) else Undefined)
    && r.observatii == (if d.observatii.Some? && d.observatii.value != "" then Str(d.observatii.value) else Null)
    && r.nr_cutie == (if d.nr_cutie.Some? && d.nr_cutie.value != 0 then Num(d.nr_cutie.value as real) else Null)
  }

  /** Round trip of one record. */
  lemma RoundTripRecord(d: Dosar, read: Row, inventarId: string)
    requires ReadBack(ExportRow(d), read)
    ensures RoundTripped(d, ImportRow(read, inventarId), inventarId)
  {
    RoundTripNumbers(d, read);
    RoundTripTexts(d, read);
    RoundTripOptional(d, read);
  }

  lemma {:induction false} RoundTripNumbers(d: Dosar, read: Row)
    requires ReadBack(ExportRow(d), read)
    ensures Or(Get(read, NrCrtHeader), Get(read, "nr_crt")) == (if d.nr_crt != 0 then Num(d.nr_crt as real) else Undefined)
    ensures Or(Get(read, NumarFileHeader), Get(read, "numar_file"))
         == (if d.numar_file.Some? && d.numar_file.value != 0 then Num(d.numar_file.value as real) else Undefined)
  {
    var w := ExportRow(d);
    ReadBackCell(w, read, NrCrtHeader, "nr_crt");
    ReadBackCell(w, read, NumarFileHeader, "numar_file");
  }

  lemma {:induction false} RoundTripTexts(d: Dosar, read: Row)
    requires ReadBack(ExportRow(d), read)
    ensures Or(Get(read, IndicativHeader), Get(read, "indicativ_nomenclator"))
         == (if d.indicativ_nomenclator != "" then Str(d.indicativ_nomenclator) else Undefined)
    ensures Or(Get(read, ContinutHeader), Get(read, "continut")) == (if d.continut != "" then Str(d.continut) else Undefined)
    ensures Or(Get(read, DateExtremeHeader), Get(read, "date_extreme"))
         == (if d.date_extreme != "" then Str(d.date_extreme) else Undefined)
  {
    var w := ExportRow(d);
    ReadBackCell(w, read, IndicativHeader, "indicativ_nomenclator");
    ReadBackCell(w, read, ContinutHeader, "continut");
    ReadBackCell(w, read, DateExtremeHeader, "date_extreme");
  }

  lemma {:induction false} RoundTripOptional(d: Dosar, read: Row)
    requires ReadBack(ExportRow(d), read)
    ensures Or(Or(Get(read, ObservatiiHeader), Get(read, "observatii")), Null)
         == (if d.observatii.Some? && d.observatii.value != "" then Str(d.observatii.value) else Null)
    ensures Or(Or(Get(read, NrCutieHeader), Get(read, "nr_cutie")), Null)
         == (if d.nr_cutie.Some? && d.nr_cutie.value != 0 then Num(d.nr_cutie.value as real) else Null)
  {
    var w := ExportRow(d);
    ReadBackCell(w, read, ObservatiiHeader, "observatii");
    ReadBackCell(w, read, NrCutieHeader, "nr_cutie");
  }

  /** Round trip of a whole export: one imported record per exported record, in order,
      each as `RoundTripRecord` describes. */
  lemma RoundTrip(dosare: seq<Dosar>, sheet: seq<Row>, inventarId: string)
    requires |sheet| == |dosare|
    requires forall i :: 0 <= i < |dosare| ==> ReadBack(Export(dosare)[i], sheet[i])
    ensures |Import(sheet, inventarId)| == |dosare|
    ensures forall i :: 0 <= i < |dosare| ==> RoundTripped(dosare[i], Import(sheet, inventarId)[i], inventarId)
  {
    forall i | 0 <= i < |dosare|
      ensures RoundTripped(dosare[i], Import(sheet, inventarId)[i], inventarId)
    {
      RoundTripRecord(dosare[i], sheet[i], inventarId);
    }
  }

  // ---------------------------------------------------------------------------
  // The add form

  /** The add dialog's inputs, all text as the browser gives them. */
  datatype DosarForm = DosarForm(
    nr_crt: string,
    indicativ_nomenclator: string,
    continut: string,
    date_extreme: string,
    numar_file: string,
    observatii: string,
    nr_cutie: string)

  const EmptyForm := DosarForm("", "", "", "", "", "", "")

  /** The record `handleAdd` inserts: numbers through `parseInt`, `observatii || null`,
      and `nr_cutie ? parseInt(nr_cutie) : null`. */
  function FormToInsert(form: DosarForm, inventarId: string): (d: DosarInsert)
    ensures d.inventar_id == inventarId
    ensures d.observatii == if form.observatii == "" then Null else Str(form.observatii)
    ensures form.nr_cutie == "" <==> d.nr_cutie == Null
    ensures form.nr_cutie != "" ==> d.nr_cutie == ParseInt(form.nr_cutie)
    ensures d.nr_crt == ParseInt(form.nr_crt) && d.numar_file == ParseInt(form.numar_file)
  {
    DosarInsert(
      ParseInt(form.nr_crt),
      Str(form.indicativ_nomenclator),
      Str(form.continut),
      Str(form.date_extreme),
      ParseInt(form.numar_file),
      Or(Str(form.observatii), Null),
      if Truthy(Str(form.nr_cutie)) then ParseInt(form.nr_cutie) else Null,
      inventarId)
  }

  /** Numbers typed as their decimal text reach the datastore as those numbers. */
  lemma FormNumbersRoundTrip(form: DosarForm, inventarId: string, nrCrt: int, numarFile: int, nrCutie: int)
    requires form.nr_crt == IntToString(nrCrt) && form.numar_file == IntToString(numarFile)
    requires form.nr_cutie == IntToString(nrCutie)
    ensures FormToInsert(form, inventarId).nr_crt == Num(nrCrt as real)
    ensures FormToInsert(form, inventarId).numar_file == Num(numarFile as real)
    ensures FormToInsert(form, inventarId).nr_cutie == Num(nrCutie as real)
  {
    ParseIntOfIntToString(nrCrt);
    ParseIntOfIntToString(numarFile);
    ParseIntOfIntToString(nrCutie);
  }

  // ---------------------------------------------------------------------------
  // The page

  /** A toast shown to the user. */
  datatype Toast = Toast(title: string, description: string)

  /** The description of the successful import toast. */
  function ImportedMessage(count: nat): string {
    NatToString(count) + " dosare au fost importate"
  }

  /** The page's state: who is signed in and whether they are an administrator (both
      filled in by `checkAdmin` after the first render), the add form, whether its dialog
      is open, and the batches this page has sent to the datastore's insert, in order. */
  class DosarePage {
    const inventarId: string
    /** The state of the render in which the mount effect ran; its cleanup sees these. */
    const effectIsAdmin: bool
    const effectUserId: string
    var isAdmin: bool
    var userId: string
    var form: DosarForm
    var dialogOpen: bool
    var inserts: seq<seq<DosarInsert>>

    /** The first render. */
    constructor (inventarId: string)
      ensures this.inventarId == inventarId
      ensures !isAdmin && userId == "" && form == EmptyForm && !dialogOpen && inserts == []
      ensures effectIsAdmin == isAdmin && effectUserId == userId
    {
      this.inventarId := inventarId;
      effectIsAdmin, effectUserId := false, "";
      isAdmin, userId := false, "";
      form, dialogOpen := EmptyForm, false;
      inserts := [];
    }

    /** `checkAdmin`: with a signed-in user, record its id and whether a role row says
        it is an administrator; with none, change nothing. */
    method CheckAdmin(user: Option<string>, hasAdminRole: bool)
      modifies this
      ensures user.Some? ==> userId == user.value && isAdmin == hasAdminRole
      ensures user.None? ==> userId == old(userId) && isAdmin == old(isAdmin)
      ensures form == old(form) && dialogOpen == old(dialogOpen) && inserts == old(inserts)
    {
      if user.Some? {
        userId := user.value;
        isAdmin := hasAdminRole;
      }
    }

    /** `handleAdd`: insert the form's record; on success clear the form and close the
        dialog, on failure keep both and say whether the number was a duplicate.
        `insertError` is the datastore's error message, if any. */
    method HandleAdd(insertError: Option<string>) returns (toast: Toast)
      modifies this
      ensures inserts == old(inserts) + [[FormToInsert(old(form), inventarId)]]
      ensures insertError.None? ==>
        (form == EmptyForm && !dialogOpen && toast == Toast("Succes", "Dosar adăugat cu succes"))
      ensures insertError.Some? ==>
        (&& form == old(form) && dialogOpen == old(dialogOpen)
         && toast.title == "Eroare"
         && (toast.description == "Numărul curent există deja" <==> Contains(insertError.value, "duplicate")))
      ensures isAdmin == old(isAdmin) && userId == old(userId)
    {
      inserts := inserts + [[FormToInsert(form, inventarId)]];
      match insertError
      case Some(message) =>
        var description := if Contains(message, "duplicate") then "Numărul curent există deja"
                           else "Nu s-a putut adăuga dosarul";
        toast := Toast("Eroare", description);
      case None =>
        toast := Toast("Succes", "Dosar adăugat cu succes");
        form := EmptyForm;
        dialogOpen := false;
    }

    /** `handleImport`: with no file chosen nothing happens; otherwise every sheet row is
        mapped and the whole batch goes to the datastore in one insert, and the success
        toast counts the rows. */
    method HandleImport(sheet: Option<seq<Row>>, insertFailed: bool) returns (toast: Option<Toast>)
      modifies this
      ensures sheet.None? ==> inserts == old(inserts) && toast.None?
      ensures sheet.Some? ==> inserts == old(inserts) + [Import(sheet.value, inventarId)]
      ensures sheet.Some? && !insertFailed ==>
        toast == Some(Toast("Import reușit", ImportedMessage(|sheet.value|)))
      ensures sheet.Some? && insertFailed ==>
        toast == Some(Toast("Eroare la import", "Verificați formatul fișierului"))
      ensures form == old(form) && dialogOpen == old(dialogOpen)
      ensures isAdmin == old(isAdmin) && userId == old(userId)
    {
      if sheet.None? {
        return None;
      }
      var batch := Import(sheet.value, inventarId);
      inserts := inserts + [batch];
      if insertFailed {
        toast := Some(Toast("Eroare la import", "Verificați formatul fișierului"));
      } else {
        toast := Some(Toast("Import reușit", ImportedMessage(|batch|)));
      }
    }

    /** `unlockInventar` with the page's current state, as the back button runs it: an
        administrator with a known id releases the lock if it holds it. `row` is the lock
        columns of the inventory whose id is the page's `inventarId` (the update's
        `.eq("id", inventarId)` filter). */
    method UnlockInventar(row: Inventare.InventarLockRow)
      modifies row
      ensures Inventare.ReleaseApplies(isAdmin, userId, old(row.lockedBy)) ==>
        row.lockedBy == None && row.lockedAt == None
      ensures !Inventare.ReleaseApplies(isAdmin, userId, old(row.lockedBy)) ==>
        row.lockedBy == old(row.lockedBy) && row.lockedAt == old(row.lockedAt)
    {
      if isAdmin && userId != "" {
        row.ReleaseIfHeldBy(userId);
      }
    }

    /** The effect cleanup as written: it closes over `unlockInventar` from the render
        in which the effect ran, so it releases only under that render's state. */
    method UnmountAsWritten(row: Inventare.InventarLockRow)
      modifies row
      ensures Inventare.ReleaseApplies(effectIsAdmin, effectUserId, old(row.lockedBy)) ==>
        row.lockedBy == None && row.lockedAt == None
      ensures !Inventare.ReleaseApplies(effectIsAdmin, effectUserId, old(row.lockedBy)) ==>
        row.lockedBy == old(row.lockedBy) && row.lockedAt == old(row.lockedAt)
    {
      if effectIsAdmin && effectUserId != "" {
        row.ReleaseIfHeldBy(effectUserId);
      }
    }

    /** The cleanup as intended: it reads the current state (for instance through a ref),
        so an administrator who holds the lock releases it however the page is left. */
    method Unmount(row: Inventare.InventarLockRow)
      modifies row
      ensures isAdmin && userId != "" && old(row.lockedBy) == Some(userId) ==>
        row.lockedBy == None && row.lockedAt == None
      ensures !Inventare.ReleaseApplies(isAdmin, userId, old(row.lockedBy)) ==>
        row.lockedBy == old(row.lockedBy) && row.lockedAt == old(row.lockedAt)
    {
      UnlockInventar(row);
    }
  }

  /** An administrator opens an inventory (taking its lock), then leaves the records page
      by the navigation bar instead of the back button: with the cleanup as written the
      inventory stays locked by that administrator. */
  method LeaveByNavigationAsWritten(inventarId: string, admin: string, now: string)
    returns (lockedAfter: Option<string>)
    requires admin != ""
    ensures lockedAfter == Some(admin)
  {
    var row := new Inventare.InventarLockRow(None, None);
    var click := row.HandleInventarClick(true, row.lockedBy, admin, now, true);
    var page := new DosarePage(inventarId);
    page.CheckAdmin(Some(admin), true);
    page.UnmountAsWritten(row);
    lockedAfter := row.lockedBy;
  }

  /** The same visit with the corrected cleanup frees the inventory. */
  method LeaveByNavigation(inventarId: string, admin: string, now: string)
    returns (lockedAfter: Option<string>)
    requires admin != ""
    ensures lockedAfter == None
  {
    var row := new Inventare.InventarLockRow(None, None);
    var click := row.HandleInventarClick(true, row.lockedBy, admin, now, true);
    var page := new DosarePage(inventarId);
    page.CheckAdmin(Some(admin), true);
    page.Unmount(row);
    lockedAfter := row.lockedBy;
  }
}
