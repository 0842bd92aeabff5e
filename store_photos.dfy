/** The photo fetcher for one store: the Places details of the store's place
    are asked for its photos, and the report lists up to ten photo URLs built
    from the photo references, beside the references themselves. The details
    lookup is given as the parsed response, `None` where the request or the
    response parsing fails. */
module StorePhotos {
  import opened Wrappers

  /** The store the script is written for. */
  const StoreId: int := 1
  const StoreName: string := "ZECODE Hesaraghatta"
  const StoreSlug: string := "hesaraghatta-road-bengaluru"
  const StorePlaceId: string := "ChIJMZMHeHcjrjsR1vSRgUCbrbc"

  /** At most this many photos are kept. */
  const MaxPhotos: nat := 10

  /** Values copied from the response without being looked at (sizes,
      attributions) are kept as their JSON text. */
  type Value = string

  datatype Photo = Photo(reference: Option<string>, width: Value, height: Value, attributions: Value)
  datatype PlaceResult = PlaceResult(photos: Option<seq<Photo>>)
  datatype DetailsResponse = DetailsResponse(status: string, result: Option<PlaceResult>)

  /** One entry of `photoReferences`. */
  datatype PhotoReference = PhotoReference(reference: string, width: Value, height: Value, attributions: Value)

  /** The saved report. */
  datatype Report = Report(storeId: int, storeName: string, slug: string, placeId: string,
                           photoCount: nat, photos: seq<string>, photoReferences: seq<PhotoReference>,
                           fetchedAt: string)

  const PhotoUrlPrefix: string := "https://maps.googleapis.com/maps/api/place/photo?maxwidth=1200&photo_reference="
  const PhotoUrlKey: string := "&key="

  /** The Places photo URL of a reference, 1200 pixels wide. */
  function PhotoUrl(apiKey: string, reference: string): string {
    PhotoUrlPrefix + reference + PhotoUrlKey + apiKey
  }

  /** Under one key, different references give different URLs. */
  lemma PhotoUrlInjective(apiKey: string, r1: string, r2: string)
    requires PhotoUrl(apiKey, r1) == PhotoUrl(apiKey, r2)
    ensures r1 == r2
  {
    var u := PhotoUrl(apiKey, r1);
    var tail := PhotoUrlKey + apiKey;
    assert u == PhotoUrlPrefix + r1 + tail;
    assert u == PhotoUrlPrefix + r2 + tail;
    assert |r1| == |r2|;
    assert r1 == u[|PhotoUrlPrefix|..|PhotoUrlPrefix| + |r1|];
    assert r2 == u[|PhotoUrlPrefix|..|PhotoUrlPrefix| + |r2|];
  }

  /** The photos kept: `photos.slice(0, 10)`. */
  function Kept(photos: seq<Photo>): (kept: seq<Photo>)
    ensures |kept| == if |photos| < MaxPhotos then |photos| else MaxPhotos
    ensures kept == photos[..|kept|]
  {
    if |photos| <= MaxPhotos then photos else photos[..MaxPhotos]
  }

  /** Every kept photo has a reference; reading a missing one throws, and the
      script then gives no report. */
  predicate AllReferenced(kept: seq<Photo>) {
    forall i :: 0 <= i < |kept| ==> kept[i].reference.Some?
  }

  /** The URL list, in photo order. */
  function PhotoUrls(apiKey: string, kept: seq<Photo>): (urls: seq<string>)
    requires AllReferenced(kept)
    ensures |urls| == |kept|
    ensures forall i :: 0 <= i < |kept| ==> urls[i] == PhotoUrl(apiKey, kept[i].reference.value)
  {
    seq(|kept|, i requires 0 <= i < |kept| => PhotoUrl(apiKey, kept[i].reference.value))
  }

  /** The `photoReferences` list, in photo order. */
  function References(kept: seq<Photo>): (refs: seq<PhotoReference>)
    requires AllReferenced(kept)
    ensures |refs| == |kept|
    ensures forall i :: 0 <= i < |kept| ==>
      refs[i] == PhotoReference(kept[i].reference.value, kept[i].width, kept[i].height, kept[i].attributions)
  {
    seq(|kept|, i requires 0 <= i < |kept| =>
      PhotoReference(kept[i].reference.value, kept[i].width, kept[i].height, kept[i].attributions))
  }

  /** The photos of a successful response: `data.result.photos || []`; nothing
      when the request failed, the status is not `OK` or there is no result. */
  function ResponsePhotos(resp: Option<DetailsResponse>): Option<seq<Photo>> {
    if resp.Some? && resp.value.status == "OK" && resp.value.result.Some? then
      Some(resp.value.result.value.photos.GetOr([]))
    else None
  }

  /** `fetchStorePhotos`: the report when the lookup succeeds with at least one
      photo, and nothing otherwise. `fetchedAt` is the clock reading. */
  function FetchStorePhotos(apiKey: string, resp: Option<DetailsResponse>, fetchedAt: string): (r: Option<Report>)
    ensures r.Some? <==>
      && ResponsePhotos(resp).Some? && |ResponsePhotos(resp).value| > 0
      && AllReferenced(Kept(ResponsePhotos(resp).value))
    ensures r.Some? ==>
      && r.value.storeId == StoreId && r.value.storeName == StoreName
      && r.value.slug == StoreSlug && r.value.placeId == StorePlaceId
      && r.value.fetchedAt == fetchedAt
    ensures r.Some? ==>
      var all := ResponsePhotos(resp).value;
      && 1 <= r.value.photoCount == |r.value.photos| == |r.value.photoReferences| <= MaxPhotos
      && r.value.photoCount == (if |all| < MaxPhotos then |all| else MaxPhotos)
      && forall i :: 0 <= i < |r.value.photos| ==>
           && all[i].reference.Some?
           && r.value.photos[i] == PhotoUrl(apiKey, all[i].reference.value)
           && r.value.photoReferences[i].reference == all[i].reference.value
  {
    match ResponsePhotos(resp)
    case None => None
    case Some(photos) =>
      if |photos| == 0 then None
      else
        var kept := Kept(photos);
        if !AllReferenced(kept) then None
        else
          var urls := PhotoUrls(apiKey, kept);
          Some(Report(StoreId, StoreName, StoreSlug, StorePlaceId, |urls|, urls, References(kept), fetchedAt))
  }

  /** The i-th URL of a report and its i-th reference name the same photo, and
      the reference can be read back from the URL. */
  lemma ReportLinesUp(apiKey: string, resp: Option<DetailsResponse>, fetchedAt: string, i: nat, reference: string)
    requires FetchStorePhotos(apiKey, resp, fetchedAt).Some?
    requires i < |FetchStorePhotos(apiKey, resp, fetchedAt).value.photos|
    requires FetchStorePhotos(apiKey, resp, fetchedAt).value.photos[i] == PhotoUrl(apiKey, reference)
    ensures FetchStorePhotos(apiKey, resp, fetchedAt).value.photoReferences[i].reference == reference
  {
    var all := ResponsePhotos(resp).value;
    PhotoUrlInjective(apiKey, all[i].reference.value, reference);
  }
}
