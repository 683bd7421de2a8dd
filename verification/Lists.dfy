/** What the intrusive lists of the library have in common: no element is on a list twice. */
module Lists {
  predicate Distinct<T(==)>(items: seq<T>) {
    forall i, j :: 0 <= i < j < |items| ==> items[i] != items[j]
  }
}
