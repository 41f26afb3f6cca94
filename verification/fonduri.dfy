/** The fond list of `src/pages/Fonduri.tsx` and its search. */
module Fonduri {

  import NameSearch
  import Seqs
  import Js

  datatype Fond = Fond(id: string, nume: string, created_at: string)

  /** `filteredFonduri`: the fonds whose name contains the term, case aside. */
  function FilteredFonduri(fonduri: seq<Fond>, searchTerm: string): (r: seq<Fond>)
    ensures forall i :: 0 <= i < |r| ==> r[i] in fonduri && NameSearch.NameMatches(r[i].nume, searchTerm)
    ensures forall i :: 0 <= i < |fonduri| && NameSearch.NameMatches(fonduri[i].nume, searchTerm) ==> fonduri[i] in r
  {
    NameSearch.FilterByName(fonduri, (f: Fond) => f.nume, searchTerm)
  }

  /** The search keeps order, is idempotent, ignores the term's case and shows every fond
      for an empty term; "no match" and "none exist" follow the filtered list. */
  lemma FonduriSearch(fonduri: seq<Fond>, searchTerm: string)
    ensures Seqs.Subsequence(FilteredFonduri(fonduri, searchTerm), fonduri)
    ensures FilteredFonduri(FilteredFonduri(fonduri, searchTerm), searchTerm) == FilteredFonduri(fonduri, searchTerm)
    ensures FilteredFonduri(fonduri, "") == fonduri
    ensures FilteredFonduri(fonduri, Js.Lower(searchTerm)) == FilteredFonduri(fonduri, searchTerm)
    ensures NameSearch.NoMatchShown(fonduri, FilteredFonduri(fonduri, searchTerm)) <==>
      |fonduri| > 0 && forall i :: 0 <= i < |fonduri| ==> !NameSearch.NameMatches(fonduri[i].nume, searchTerm)
    ensures !(NameSearch.NoMatchShown(fonduri, FilteredFonduri(fonduri, searchTerm)) && NameSearch.NoneExistShown(fonduri))
  {
    var nameOf := (f: Fond) => f.nume;
    NameSearch.FilterByNameOrderAndIdempotence(fonduri, nameOf, searchTerm);
    NameSearch.EmptyTermKeepsAll(fonduri, nameOf);
    NameSearch.TermCaseIgnored(fonduri, nameOf, searchTerm);
    NameSearch.DisplayConditions(fonduri, nameOf, searchTerm);
  }
}
