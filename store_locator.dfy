/** The store-locator map page: the search filter over the store list and the
    choice of the embedded map's URL. */
module StoreLocator {
  import opened Wrappers
  import opened Strings
  import opened StoreModel
  import Seqs

  /** `tags.some(tag => tag.toLowerCase().includes(q))` with `q` lower-cased. */
  predicate AnyTagMatches(tags: seq<string>, query: string) {
    exists i :: 0 <= i < |tags| && Contains(Lower(tags[i]), Lower(query))
  }

  /** The search predicate: the lower-cased query occurs in the lower-cased
      name, city or address, or in some lower-cased tag. */
  predicate Matches(s: Store, query: string) {
    || Contains(Lower(s.name), Lower(query))
    || Contains(Lower(s.city), Lower(query))
    || Contains(Lower(s.address), Lower(query))
    || AnyTagMatches(s.tags, query)
  }

  /** `filteredStores`. */
  function FilterStores(stores: seq<Store>, query: string): (r: seq<Store>)
    ensures Seqs.Subsequence(r, stores)
    ensures forall s: Store :: s in r <==> s in stores && Matches(s, query)
    ensures forall s: Store :: Matches(s, query) ==> multiset(r)[s] == multiset(stores)[s]
  {
    Seqs.Filter(stores, (s: Store) => Matches(s, query))
  }

  /** The empty query keeps every store, in order. */
  lemma EmptyQueryKeepsAll(stores: seq<Store>)
    ensures FilterStores(stores, "") == stores
  {
    forall i | 0 <= i < |stores| ensures Matches(stores[i], "") {
      assert Lower("") <= Lower(stores[i].name);
    }
    Seqs.FilterAll(stores, (s: Store) => Matches(s, ""));
  }

  /** Queries that differ only in ASCII letter case select the same stores. */
  lemma CaseInsensitive(stores: seq<Store>, q1: string, q2: string)
    requires Lower(q1) == Lower(q2)
    ensures FilterStores(stores, q1) == FilterStores(stores, q2)
  {
    Seqs.FilterAgree(stores, (s: Store) => Matches(s, q1), (s: Store) => Matches(s, q2));
  }

  /** Upper-casing or lower-casing the query changes nothing. */
  lemma LowerQuery(stores: seq<Store>, q: string)
    ensures FilterStores(stores, Lower(q)) == FilterStores(stores, q)
  {
    LowerIdempotent(q);
    CaseInsensitive(stores, Lower(q), q);
  }

  /** A store matching a query matches every query that occurs in it. */
  lemma MatchesWeaker(s: Store, short: string, long: string)
    requires Contains(long, short) && Matches(s, long)
    ensures Matches(s, short)
  {
    LowerContains(long, short);
    if Contains(Lower(s.name), Lower(long)) {
      ContainsTransitive(Lower(s.name), Lower(long), Lower(short));
    } else if Contains(Lower(s.city), Lower(long)) {
      ContainsTransitive(Lower(s.city), Lower(long), Lower(short));
    } else if Contains(Lower(s.address), Lower(long)) {
      ContainsTransitive(Lower(s.address), Lower(long), Lower(short));
    } else {
      var i :| 0 <= i < |s.tags| && Contains(Lower(s.tags[i]), Lower(long));
      ContainsTransitive(Lower(s.tags[i]), Lower(long), Lower(short));
    }
  }

  /** Typing more never adds stores: the results for a longer query are the
      results for the shorter one, filtered again by the longer one. */
  lemma ExtendingQueryNarrows(stores: seq<Store>, short: string, long: string)
    requires Contains(long, short)
    ensures FilterStores(FilterStores(stores, short), long) == FilterStores(stores, long)
    ensures Seqs.Subsequence(FilterStores(stores, long), FilterStores(stores, short))
  {
    forall i | 0 <= i < |stores| && Matches(stores[i], long) ensures Matches(stores[i], short) {
      MatchesWeaker(stores[i], short, long);
    }
    Seqs.FilterNarrow(stores, (s: Store) => Matches(s, short), (s: Store) => Matches(s, long));
  }

  const PlaceUrlPrefix: string := "https://www.google.com/maps/embed/v1/place?key="
  const ViewUrlPrefix: string := "https://www.google.com/maps/embed/v1/view?key="
  const PlaceUrlSuffix: string := "&zoom=15"
  const ViewUrlSuffix: string := "&center=12.9716,77.5946&zoom=10"

  /** `getMapUrl`. The key is the environment variable when set and non-empty;
      `encode` stands for `encodeURIComponent`. */
  function MapUrl(apiKey: Option<string>, selected: Option<Store>, encode: string -> string): (url: string)
    ensures selected.None? ==> url == ViewUrlPrefix + OrElse(apiKey, "") + ViewUrlSuffix
    ensures selected.Some? ==>
      url == PlaceUrlPrefix + OrElse(apiKey, "") + "&q=" + encode(selected.value.address) + PlaceUrlSuffix
  {
    var key := OrElse(apiKey, "");
    if selected.Some? then
      PlaceUrlPrefix + key + "&q=" + encode(selected.value.address) + PlaceUrlSuffix
    else
      ViewUrlPrefix + key + ViewUrlSuffix
  }

  /** The selected store shows the place map at zoom 15; no selection shows
      the view of Karnataka at zoom 10, whatever the key. */
  lemma MapUrlModes(apiKey: Option<string>, selected: Option<Store>, encode: string -> string)
    ensures var url := MapUrl(apiKey, selected, encode);
      && (selected.Some? <==> PlaceUrlPrefix <= url)
      && (selected.None? <==> ViewUrlPrefix <= url)
  {
    var url := MapUrl(apiKey, selected, encode);
    assert PlaceUrlPrefix[37] == 'p' && ViewUrlPrefix[37] == 'v';
    if selected.Some? {
      assert url[..|PlaceUrlPrefix|] == PlaceUrlPrefix;
      assert url[37] == 'p';
    } else {
      assert url[..|ViewUrlPrefix|] == ViewUrlPrefix;
      assert url[37] == 'v';
    }
  }

  /** With the same key and encoder, two place URLs are equal only when the
      encoded addresses are: the URL carries the encoded address verbatim. */
  lemma PlaceUrlCarriesAddress(apiKey: Option<string>, s1: Store, s2: Store, encode: string -> string)
    requires MapUrl(apiKey, Some(s1), encode) == MapUrl(apiKey, Some(s2), encode)
    ensures encode(s1.address) == encode(s2.address)
  {
    var head := PlaceUrlPrefix + OrElse(apiKey, "") + "&q=";
    var u1 := MapUrl(apiKey, Some(s1), encode);
    var e1, e2 := encode(s1.address), encode(s2.address);
    assert u1 == head + e1 + PlaceUrlSuffix;
    assert u1 == head + e2 + PlaceUrlSuffix;
    assert |e1| == |e2|;
    assert e1 == u1[|head|..|head| + |e1|];
    assert e2 == u1[|head|..|head| + |e2|];
  }
}
