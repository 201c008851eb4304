/**
 * The client-side filter of the flavor list (Flavors.jsx): a text search on
 * flavor and brand names, a brand slug and a flavor-profile tag.
 */
module Flavors {
  import opened Wrappers
  import opened Text
  import opened Catalog

  /** The three filters: the search box and the `brand` and `tag` URL parameters ('' when absent). */
  datatype Filters = Filters(search: string, brand: string, tag: string)

  /** The search matches the lowercased flavor name or the lowercased brand name. */
  predicate MatchesSearch(f: Flavor, search: string) {
    || search == ""
    || Includes(Lower(f.name), Lower(search))
    || (f.brand.Some? && Includes(Lower(f.brand.value.name), Lower(search)))
  }

  /** A flavor without a joined brand never matches a brand filter. */
  predicate MatchesBrand(f: Flavor, brand: string) {
    brand == "" || (f.brand.Some? && f.brand.value.slug == brand)
  }

  /** A flavor without a profile never matches a tag filter. */
  predicate MatchesTag(f: Flavor, tag: string) {
    tag == "" || (f.flavorProfile.Some? && tag in f.flavorProfile.value)
  }

  /** A flavor is shown when it passes every filter; with no filter set, every flavor is shown. */
  predicate Keep(f: Flavor, q: Filters): (b: bool)
    ensures !HasFilters(q) ==> b
    ensures b && q.brand != "" ==> f.brand.Some? && f.brand.value.slug == q.brand
  {
    MatchesSearch(f, q.search) && MatchesBrand(f, q.brand) && MatchesTag(f, q.tag)
  }

  /** `flavors.filter(...)`: the kept flavors in their order. */
  function FilterList(xs: seq<Flavor>, q: Filters): (r: seq<Flavor>)
    ensures |r| <= |xs|
    ensures forall i :: 0 <= i < |r| ==> Keep(r[i], q)
  {
    if xs == [] then []
    else if Keep(xs[0], q) then [xs[0]] + FilterList(xs[1..], q)
    else FilterList(xs[1..], q)
  }

  /** `filteredFlavors`: empty while there is no data. */
  function Filtered(flavors: Option<seq<Flavor>>, q: Filters): (r: seq<Flavor>)
    ensures flavors.None? ==> r == []
    ensures flavors.Some? ==> |r| <= |flavors.value|
    ensures forall i :: 0 <= i < |r| ==> Keep(r[i], q)
  {
    match flavors
    case None => []
    case Some(xs) => FilterList(xs, q)
  }

  /**
   * Every shown flavor passes each active filter: its lowercased name or
   * brand name contains the lowercased search, and its profile holds the tag.
   */
  lemma ActiveFiltersSound(flavors: Option<seq<Flavor>>, q: Filters, i: nat)
    requires i < |Filtered(flavors, q)|
    ensures var f := Filtered(flavors, q)[i];
      && (q.search != "" ==>
            Includes(Lower(f.name), Lower(q.search))
            || (f.brand.Some? && Includes(Lower(f.brand.value.name), Lower(q.search))))
      && (q.tag != "" ==> f.flavorProfile.Some? && q.tag in f.flavorProfile.value)
  {
  }

  /** `a` is `b` with some elements left out, the rest in their order. */
  predicate IsSubsequence<T(==)>(a: seq<T>, b: seq<T>)
    decreases |b|
  {
    if a == [] then true
    else if b == [] then false
    else (a[0] == b[0] && IsSubsequence(a[1..], b[1..])) || IsSubsequence(a, b[1..])
  }

  /** The filter only drops flavors; it never reorders them. */
  lemma {:induction false} FilterIsSubsequence(xs: seq<Flavor>, q: Filters)
    ensures IsSubsequence(FilterList(xs, q), xs)
    decreases |xs|
  {
    if xs != [] {
      FilterIsSubsequence(xs[1..], q);
      var r := FilterList(xs, q);
      if Keep(xs[0], q) {
        assert r[1..] == FilterList(xs[1..], q);
      }
    }
  }

  /** No flavor that passes every filter is dropped. */
  lemma {:induction false} FilterIsComplete(xs: seq<Flavor>, q: Filters, i: nat)
    requires i < |xs| && Keep(xs[i], q)
    ensures xs[i] in FilterList(xs, q)
    decreases |xs|
  {
    if i > 0 {
      FilterIsComplete(xs[1..], q, i - 1);
    }
  }

  /** When every flavor passes, the filter gives back the whole list. */
  lemma {:induction false} FilterKeepsAll(xs: seq<Flavor>, q: Filters)
    requires forall i :: 0 <= i < |xs| ==> Keep(xs[i], q)
    ensures FilterList(xs, q) == xs
    decreases |xs|
  {
    if xs != [] {
      FilterKeepsAll(xs[1..], q);
    }
  }

  /** `hasFilters`: some filter is set. */
  predicate HasFilters(q: Filters): (b: bool)
    ensures b <==> q != Filters("", "", "")
  {
    q.search != "" || q.brand != "" || q.tag != ""
  }

  /** Without any filter every flavor is shown, in its order. */
  lemma NoFiltersShowsAll(xs: seq<Flavor>, q: Filters)
    requires !HasFilters(q)
    ensures Filtered(Some(xs), q) == xs
  {
    forall i | 0 <= i < |xs| ensures Keep(xs[i], q) {}
    FilterKeepsAll(xs, q);
  }

  /** `clearFilters`: the search box emptied and the URL parameters dropped. */
  function Cleared(q: Filters): (r: Filters)
    ensures !HasFilters(r)
  {
    Filters("", "", "")
  }

  /** After clearing, the list shows everything again. */
  lemma ClearShowsAll(xs: seq<Flavor>, q: Filters)
    ensures Filtered(Some(xs), Cleared(q)) == xs
  {
    NoFiltersShowsAll(xs, Cleared(q));
  }

  /** With a brand filter only that brand's flavors remain. */
  lemma BrandFilterSound(xs: seq<Flavor>, q: Filters, i: nat)
    requires q.brand != "" && i < |Filtered(Some(xs), q)|
    ensures Filtered(Some(xs), q)[i].brand.Some?
    ensures Filtered(Some(xs), q)[i].brand.value.slug == q.brand
  {
  }
}
