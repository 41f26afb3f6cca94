/** The department list of `src/pages/Compartimente.tsx` and its search. */
module Compartimente {

  import NameSearch
  import Seqs
  import Js

  datatype Compartiment = Compartiment(id: string, nume: string, created_at: string)

  /** `filteredCompartimente`: the departments whose name contains the term, case aside. */
  function FilteredCompartimente(compartimente: seq<Compartiment>, searchTerm: string): (r: seq<Compartiment>)
    ensures forall i :: 0 <= i < |r| ==> r[i] in compartimente && NameSearch.NameMatches(r[i].nume, searchTerm)
    ensures forall i :: 0 <= i < |compartimente| && NameSearch.NameMatches(compartimente[i].nume, searchTerm) ==> compartimente[i] in r
  {
    NameSearch.FilterByName(compartimente, (c: Compartiment) => c.nume, searchTerm)
  }

  /** The search keeps order, is idempotent, ignores the term's case and shows every department
      for an empty term; "no match" and "none exist" follow the filtered list. */
  lemma CompartimenteSearch(compartimente: seq<Compartiment>, searchTerm: string)
    ensures Seqs.Subsequence(FilteredCompartimente(compartimente, searchTerm), compartimente)
    ensures FilteredCompartimente(FilteredCompartimente(compartimente, searchTerm), searchTerm) == FilteredCompartimente(compartimente, searchTerm)
    ensures FilteredCompartimente(compartimente, "") == compartimente
    ensures FilteredCompartimente(compartimente, Js.Lower(searchTerm)) == FilteredCompartimente(compartimente, searchTerm)
    ensures NameSearch.NoMatchShown(compartimente, FilteredCompartimente(compartimente, searchTerm)) <==>
      |compartimente| > 0 && forall i :: 0 <= i < |compartimente| ==> !NameSearch.NameMatches(compartimente[i].nume, searchTerm)
    ensures !(NameSearch.NoMatchShown(compartimente, FilteredCompartimente(compartimente, searchTerm)) && NameSearch.NoneExistShown(compartimente))
  {
    var nameOf := (c: Compartiment) => c.nume;
    NameSearch.FilterByNameOrderAndIdempotence(compartimente, nameOf, searchTerm);
    NameSearch.EmptyTermKeepsAll(compartimente, nameOf);
    NameSearch.TermCaseIgnored(compartimente, nameOf, searchTerm);
    NameSearch.DisplayConditions(compartimente, nameOf, searchTerm);
  }
}
