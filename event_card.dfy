/** The event card (frontend/src/components/EventCard.jsx): where the poster
    comes from, and which badge and links the card shows. */
module EventCard {
  import opened Values
  import opened Docs
  import KodikonDetail

  const ImagesPrefix := "/images/"

  predicate IsAbsoluteUrl(p: string) {
    StartsWith(p, "http://") || StartsWith(p, "https://")
  }

  /** `posterUrl` as the card computes it: an absolute URL is kept, any other
      non-empty poster is taken as a file name under `/images/`. */
  function PosterUrlAsWritten(image: string): (r: Option<string>)
    ensures r.None? <==> image == ""
    ensures IsAbsoluteUrl(image) ==> r == Some(image)
    ensures image != "" && !IsAbsoluteUrl(image) ==> r == Some(ImagesPrefix + image)
  {
    if image != "" && IsAbsoluteUrl(image) then Some(image)
    else if image != "" then Some(ImagesPrefix + image)
    else None
  }

  /** A rooted path is not an absolute URL, so the card as written prefixes it. */
  lemma RootedPathPrefixed(image: string)
    requires image != [] && image[0] == '/'
    ensures PosterUrlAsWritten(image) == Some(ImagesPrefix + image)
  {
    assert !StartsWith(image, "http://") by {
      if |image| >= 7 { assert image[..7][0] == '/'; }
    }
    assert !StartsWith(image, "https://") by {
      if |image| >= 8 { assert image[..8][0] == '/'; }
    }
  }

  /** The KODIKON record the page saves locally carries the rooted path
      `/images/kodikon.jpeg`; the card as written turns it into
      `/images//images/kodikon.jpeg`. */
  lemma KodikonPosterDoubled(stamp: string)
    ensures var ev := KodikonDetail.DefaultKodikon(stamp);
      var snap := KodikonDetail.Snapshot(ev, KodikonDetail.RealId(ev, stamp));
      PosterUrlAsWritten(snap.image) == Some("/images//images/kodikon.jpeg")
  {
    var image := KodikonDetail.KodikonImage;
    RootedPathPrefixed(image);
    assert ImagesPrefix + image == "/images//images/kodikon.jpeg";
  }

  /** Resolving a resolved file name again prefixes it a second time: for every
      poster that is not an http(s) URL, the card as written is not idempotent. */
  lemma AsWrittenNotIdempotent(image: string)
    requires image != "" && !IsAbsoluteUrl(image)
    ensures PosterUrlAsWritten(PosterUrlAsWritten(image).value) == Some(ImagesPrefix + (ImagesPrefix + image))
    ensures PosterUrlAsWritten(PosterUrlAsWritten(image).value) != PosterUrlAsWritten(image)
  {
    var once := ImagesPrefix + image;
    assert once[0] == '/';
    RootedPathPrefixed(once);
    assert |ImagesPrefix + once| > |once|;
  }

  /** `posterUrl` with a rooted path (one starting with `/`) used as it is. */
  function PosterUrl(image: string): (r: Option<string>)
    ensures r.None? <==> image == ""
    ensures IsAbsoluteUrl(image) || StartsWith(image, "/") ==> r == Some(image)
    ensures image != "" && !IsAbsoluteUrl(image) && !StartsWith(image, "/") ==> r == Some(ImagesPrefix + image)
  {
    if image != "" && (IsAbsoluteUrl(image) || StartsWith(image, "/")) then Some(image)
    else if image != "" then Some(ImagesPrefix + image)
    else None
  }

  /** A resolved poster resolves to itself. */
  lemma PosterUrlIdempotent(image: string)
    ensures PosterUrl(image).Some? ==> PosterUrl(PosterUrl(image).value) == PosterUrl(image)
  {
    if image != "" && !IsAbsoluteUrl(image) && !StartsWith(image, "/") {
      assert (ImagesPrefix + image)[..1] == "/";
    }
  }

  /** Every resolved poster is an absolute URL or a rooted path. */
  lemma PosterUrlResolved(image: string)
    ensures PosterUrl(image).Some? ==> IsAbsoluteUrl(PosterUrl(image).value) || StartsWith(PosterUrl(image).value, "/")
  {
    if image != "" && !IsAbsoluteUrl(image) && !StartsWith(image, "/") {
      assert (ImagesPrefix + image)[..1] == "/";
    }
  }

  /** For the file names and absolute URLs the admin pages store, the corrected
      poster is the one the card computes as written. */
  lemma PosterUrlAgreesOnFileNames(image: string)
    requires !StartsWith(image, "/")
    ensures PosterUrl(image) == PosterUrlAsWritten(image)
  {
  }

  /** The saved KODIKON record shows its poster. */
  lemma KodikonPosterKept(stamp: string)
    ensures var ev := KodikonDetail.DefaultKodikon(stamp);
      var snap := KodikonDetail.Snapshot(ev, KodikonDetail.RealId(ev, stamp));
      PosterUrl(snap.image) == Some("/images/kodikon.jpeg")
  {
    var image := KodikonDetail.KodikonImage;
    assert image[..1] == "/";
  }

  /** The card of the saved KODIKON record shows the doubled poster path. */
  lemma KodikonCardPosterDoubled(stamp: string, isRegistered: bool)
    ensures var ev := KodikonDetail.DefaultKodikon(stamp);
      var snap := KodikonDetail.Snapshot(ev, KodikonDetail.RealId(ev, stamp));
      RenderCard(snap, isRegistered).poster == Some("/images//images/kodikon.jpeg")
  {
    KodikonPosterDoubled(stamp);
  }

  /** What a card shows. `poster` None is the "No image available" placeholder. */
  datatype Card = Card(badge: bool, poster: Option<string>, detailsLink: string, registerLink: Option<string>)

  function DetailsLink(ev: Doc): string {
    "/events/" + DocId(ev)
  }

  /** The card as the component renders it, poster resolution included. */
  function RenderCard(ev: Doc, isRegistered: bool): (c: Card)
    ensures c.badge <==> isRegistered
    ensures c.poster == PosterUrlAsWritten(ev.image)
    ensures c.poster.None? <==> ev.image == ""
    ensures c.detailsLink == DetailsLink(ev)
    ensures c.registerLink.Some? <==> ev.registrationLink != ""
    ensures c.registerLink.Some? ==> c.registerLink.value == ev.registrationLink
  {
    Card(isRegistered, PosterUrlAsWritten(ev.image), DetailsLink(ev),
      if ev.registrationLink != "" then Some(ev.registrationLink) else None)
  }
}
