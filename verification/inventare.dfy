/**
  The inventory list page, `src/pages/Inventare.tsx`: the search filter over the yearly
  inventories and the edit lock an administrator takes on an inventory by opening it.
  The lock is the pair `locked_by`/`locked_at` of the inventory's row; the records page
  (`src/pages/Dosare.tsx`) releases it.
 */
module Inventare {

  import opened Wrappers
  import opened Js
  import Seqs

  /** One row of the inventory list, with the fields the page reads. */
  datatype Inventar = Inventar(
    id: string,
    an: int,
    numar_dosare: int,
    termen_pastrare: int,
    locked_by: Option<string>)

  // ---------------------------------------------------------------------------
  // Search filter

  /** An inventory matches when the decimal text of its year, its retention term or its
      record count contains the search term (no case folding: the texts are digits). */
  predicate MatchesSearch(inv: Inventar, searchTerm: string) {
    || Contains(IntToString(inv.an), searchTerm)
    || Contains(IntToString(inv.termen_pastrare), searchTerm)
    || Contains(IntToString(inv.numar_dosare), searchTerm)
  }

  function FilteredInventare(inventare: seq<Inventar>, searchTerm: string): (r: seq<Inventar>)
    ensures forall i :: 0 <= i < |r| ==> r[i] in inventare && MatchesSearch(r[i], searchTerm)
    ensures forall i :: 0 <= i < |inventare| && MatchesSearch(inventare[i], searchTerm) ==> inventare[i] in r
  {
    Seqs.Filter(inventare, inv => MatchesSearch(inv, searchTerm))
  }

  lemma FilteredInventareInOrder(inventare: seq<Inventar>, searchTerm: string)
    ensures Seqs.Subsequence(FilteredInventare(inventare, searchTerm), inventare)
  {
    Seqs.FilterIsSubsequence(inventare, inv => MatchesSearch(inv, searchTerm));
  }

  /** An empty search box shows every inventory, in the loaded order. */
  lemma EmptySearchKeepsAllInventare(inventare: seq<Inventar>)
    ensures FilteredInventare(inventare, "") == inventare
  {
    forall i | 0 <= i < |inventare| ensures MatchesSearch(inventare[i], "") {
      ContainsEmpty(IntToString(inventare[i].an));
    }
    Seqs.FilterKeepsAll(inventare, inv => MatchesSearch(inv, ""));
  }

  // ---------------------------------------------------------------------------
  // Edit lock

  /** `locked_by && locked_by !== userId`: the lock is held by someone else. An empty
      `locked_by` is falsy and counts as free, as in JavaScript. */
  predicate HeldByOther(lockedBy: Option<string>, userId: string) {
    lockedBy.Some? && lockedBy.value != "" && lockedBy.value != userId
  }

  /** What a click on an inventory card leads to. */
  datatype ClickDecision = OpenRecords | RefuseLocked | LockThenOpen

  /** The decision of `handleInventarClick`, taken on the `locked_by` the page loaded. */
  function DecideClick(isAdmin: bool, snapshotLockedBy: Option<string>, userId: string): (d: ClickDecision)
    ensures d == OpenRecords <==> !isAdmin
    ensures d == RefuseLocked <==> isAdmin && HeldByOther(snapshotLockedBy, userId)
  {
    if !isAdmin then OpenRecords
    else if HeldByOther(snapshotLockedBy, userId) then RefuseLocked
    else LockThenOpen
  }

  /** The release rule of `unlockInventar` in `src/pages/Dosare.tsx`: only an administrator
      with a known user id releases, and the update matches only a row it holds. */
  predicate ReleaseApplies(isAdmin: bool, userId: string, lockedBy: Option<string>) {
    isAdmin && userId != "" && lockedBy == Some(userId)
  }

  /** What the user sees after a click. */
  datatype ClickResult = Navigated | Toast(title: string, description: string)

  const LockedTitle := "Inventar blocat"
  const LockedDescription := "Un alt administrator lucrează deja pe acest inventar"
  const LockFailedDescription := "Nu s-a putut bloca inventarul"

  /** The lock columns of one inventory row. */
  class InventarLockRow {
    var lockedBy: Option<string>
    var lockedAt: Option<string>

    constructor (lockedBy: Option<string>, lockedAt: Option<string>)
      ensures this.lockedBy == lockedBy && this.lockedAt == lockedAt
    {
      this.lockedBy := lockedBy;
      this.lockedAt := lockedAt;
    }

    /** `handleInventarClick`: a non-administrator simply opens the records; an
        administrator is refused while the loaded row shows another holder, and otherwise
        writes `locked_by := userId, locked_at := now` and opens the records only if that
        write succeeded. `writeOk` is the datastore's answer to the update. */
    method HandleInventarClick(isAdmin: bool, snapshotLockedBy: Option<string>, userId: string,
                               now: string, writeOk: bool) returns (result: ClickResult)
      modifies this
      ensures !isAdmin ==> result == Navigated && lockedBy == old(lockedBy) && lockedAt == old(lockedAt)
      ensures isAdmin && HeldByOther(snapshotLockedBy, userId) ==>
        result == Toast(LockedTitle, LockedDescription)
        && lockedBy == old(lockedBy) && lockedAt == old(lockedAt)
      ensures isAdmin && !HeldByOther(snapshotLockedBy, userId) ==>
        if writeOk then result == Navigated && lockedBy == Some(userId) && lockedAt == Some(now)
        else result == Toast("Eroare", LockFailedDescription)
             && lockedBy == old(lockedBy) && lockedAt == old(lockedAt)
      ensures snapshotLockedBy == old(lockedBy) ==>
        lockedBy == NextLockedBy(old(lockedBy), Click(userId, isAdmin, writeOk))
    {
      match DecideClick(isAdmin, snapshotLockedBy, userId)
      case OpenRecords =>
        result := Navigated;
      case RefuseLocked =>
        result := Toast(LockedTitle, LockedDescription);
      case LockThenOpen =>
        if writeOk {
          lockedBy, lockedAt := Some(userId), Some(now);
          result := Navigated;
        } else {
          result := Toast("Eroare", LockFailedDescription);
        }
    }

    /** The update `locked_by := null, locked_at := null where locked_by = userId`. */
    method ReleaseIfHeldBy(userId: string)
      modifies this
      ensures old(lockedBy) == Some(userId) ==> lockedBy == None && lockedAt == None
      ensures old(lockedBy) != Some(userId) ==> lockedBy == old(lockedBy) && lockedAt == old(lockedAt)
    {
      if lockedBy == Some(userId) {
        lockedBy, lockedAt := None, None;
      }
    }
  }

  // ---------------------------------------------------------------------------
  // The lock as a state machine over `locked_by`, one session at a time

  /** A click on the inventory card or the release when its records page is left. */
  datatype LockEvent =
    | Click(user: string, isAdmin: bool, writeOk: bool)
    | Leave(user: string, isAdmin: bool)

  function LockEventUser(e: LockEvent): string {
    match e
    case Click(u, _, _) => u
    case Leave(u, _) => u
  }

  /** `locked_by` after one event, when the page's snapshot is the current row. */
  function NextLockedBy(lockedBy: Option<string>, e: LockEvent): Option<string> {
    match e
    case Click(u, isAdmin, writeOk) =>
      if DecideClick(isAdmin, lockedBy, u) == LockThenOpen && writeOk then Some(u) else lockedBy
    case Leave(u, isAdmin) =>
      if ReleaseApplies(isAdmin, u, lockedBy) then None else lockedBy
  }

  function RunLock(lockedBy: Option<string>, events: seq<LockEvent>): Option<string>
    decreases |events|
  {
    if events == [] then lockedBy else RunLock(NextLockedBy(lockedBy, events[0]), events[1..])
  }

  /** While an administrator holds the lock, nothing that other users do takes it away or
      changes its holder: their clicks are refused or write nothing, and their releases
      match no row. */
  lemma {:induction false} OnlyHolderChangesLock(holder: string, events: seq<LockEvent>)
    requires holder != ""
    requires forall i :: 0 <= i < |events| ==> LockEventUser(events[i]) != holder
    ensures RunLock(Some(holder), events) == Some(holder)
  {
    if events != [] {
      assert NextLockedBy(Some(holder), events[0]) == Some(holder);
      OnlyHolderChangesLock(holder, events[1..]);
    }
  }

  /** The holder can reopen its inventory (the click rewrites its own lock), and its own
      release frees the inventory for everybody. */
  lemma HolderReentersAndReleases(holder: string)
    requires holder != ""
    ensures NextLockedBy(Some(holder), Click(holder, true, true)) == Some(holder)
    ensures NextLockedBy(Some(holder), Leave(holder, true)) == None
  {
  }

  /** A free inventory goes to the first administrator whose lock write succeeds. */
  lemma FreeLockIsTaken(user: string)
    ensures NextLockedBy(None, Click(user, true, true)) == Some(user)
    ensures forall ok :: NextLockedBy(None, Click(user, false, ok)) == None
  {
  }
}
