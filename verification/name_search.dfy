/**
  The search box of the fond and department lists (`src/pages/Fonduri.tsx`,
  `src/pages/Compartimente.tsx`): an item is shown when its lower-cased name contains the
  lower-cased search term, and two messages cover an empty result.
 */
module NameSearch {

  import opened Js
  import Seqs

  /** `name.toLowerCase().includes(searchTerm.toLowerCase())`. */
  predicate NameMatches(name: string, searchTerm: string) {
    Contains(Lower(name), Lower(searchTerm))
  }

  /** `items.filter(item => nameOf(item).toLowerCase().includes(searchTerm.toLowerCase()))`. */
  function FilterByName<T(==)>(items: seq<T>, nameOf: T -> string, searchTerm: string): (r: seq<T>)
    ensures |r| <= |items|
    ensures forall i :: 0 <= i < |r| ==> r[i] in items && NameMatches(nameOf(r[i]), searchTerm)
    ensures forall i :: 0 <= i < |items| && NameMatches(nameOf(items[i]), searchTerm) ==> items[i] in r
  {
    Seqs.Filter(items, x => NameMatches(nameOf(x), searchTerm))
  }

  /** The result keeps the list's order, and searching it again with the same term
      changes nothing. */
  lemma FilterByNameOrderAndIdempotence<T>(items: seq<T>, nameOf: T -> string, searchTerm: string)
    ensures Seqs.Subsequence(FilterByName(items, nameOf, searchTerm), items)
    ensures FilterByName(FilterByName(items, nameOf, searchTerm), nameOf, searchTerm)
            == FilterByName(items, nameOf, searchTerm)
  {
    Seqs.FilterIsSubsequence(items, x => NameMatches(nameOf(x), searchTerm));
    Seqs.FilterIdempotent(items, x => NameMatches(nameOf(x), searchTerm));
  }

  /** An empty search box shows the whole list. */
  lemma EmptyTermKeepsAll<T>(items: seq<T>, nameOf: T -> string)
    ensures FilterByName(items, nameOf, "") == items
  {
    forall i | 0 <= i < |items| ensures NameMatches(nameOf(items[i]), "") {
      ContainsEmpty(Lower(nameOf(items[i])));
    }
    Seqs.FilterKeepsAll(items, x => NameMatches(nameOf(x), ""));
  }

  /** The case of the term does not matter: searching for its lower-cased form shows the
      same items. */
  lemma TermCaseIgnored<T>(items: seq<T>, nameOf: T -> string, searchTerm: string)
    ensures FilterByName(items, nameOf, Lower(searchTerm)) == FilterByName(items, nameOf, searchTerm)
  {
    LowerIdempotent(searchTerm);
    Seqs.FilterAgreeing(items, x => NameMatches(nameOf(x), Lower(searchTerm)),
                               x => NameMatches(nameOf(x), searchTerm));
  }

  /** "No match" is shown under a non-empty list whose search left nothing. */
  predicate NoMatchShown<T>(items: seq<T>, filtered: seq<T>) {
    |filtered| == 0 && |items| > 0
  }

  /** "None exist" is shown for an empty list. */
  predicate NoneExistShown<T>(items: seq<T>) {
    |items| == 0
  }

  /** "No match" shows exactly when the list has items and none of their names contains
      the term; the two messages never show together, and an empty term never shows
      "no match". */
  lemma DisplayConditions<T>(items: seq<T>, nameOf: T -> string, searchTerm: string)
    ensures NoMatchShown(items, FilterByName(items, nameOf, searchTerm)) <==>
      |items| > 0 && forall i :: 0 <= i < |items| ==> !NameMatches(nameOf(items[i]), searchTerm)
    ensures !(NoMatchShown(items, FilterByName(items, nameOf, searchTerm)) && NoneExistShown(items))
    ensures !NoMatchShown(items, FilterByName(items, nameOf, ""))
  {
    Seqs.FilterEmpty(items, x => NameMatches(nameOf(x), searchTerm));
    EmptyTermKeepsAll(items, nameOf);
  }
}
