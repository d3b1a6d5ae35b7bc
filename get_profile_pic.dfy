/** The `GET /api/get-profile-pic?handle=...` route: look up the X profile page of a
    handle and answer with the high-resolution URL of its profile picture.

    The page fetch is an oracle `fetchX` from URL to what the awaited `fetch`
    gives. Parsing the HTML is not modelled: a fetched page is the list of the
    `src` values of its `<img>` elements, in document order, and reading the
    body (`response.text()`, `cheerio.load`) may throw. */
module ProfilePic {
  import opened Wrappers
  import Text

  const NoHandleProvided := "No handle provided"
  const FailedToFetch := "Failed to fetch X profile"
  const NotFound := "Profile pic not found"

  /** The CSS selector `img[src*='profile_images']` matches on this substring. */
  const ProfileImagesMarker := "profile_images"
  /** The X image host's low-resolution suffix and its 400x400 variant. */
  const LowResolution := "_normal"
  const HighResolution := "_400x400"

  const ProfileBase := "https://x.com/"

  /** What the awaited `fetch` of the profile page resolved to: `response.ok` and
      the `src` values of the page's images (or what reading the body threw). */
  datatype Page = Page(ok: bool, imageSources: Attempt<seq<string>>)

  /** The JSON body: `{url}` on success, `{error}` otherwise. */
  datatype Body = Url(url: string) | Error(message: string)

  datatype Response = Response(status: nat, body: Body)

  /** The response together with the URLs the handler fetched. */
  datatype Resolution = Resolution(response: Response, fetched: seq<string>)

  /** The handler refuses before any fetch: no handle, or nothing left after the '@'. */
  predicate NoHandle(handle: Option<string>)
  {
    !Present(Text.NormaliseHandle(handle))
  }

  /** The page the handler asks for. */
  function ProfileUrl(handle: Option<string>): string
    requires !NoHandle(handle)
  {
    ProfileBase + Text.StripLeadingAt(handle.value)
  }

  predicate IsProfileImage(src: string)
  {
    Text.Contains(src, ProfileImagesMarker)
  }

  /** `i` is the first image of the page that the selector matches. */
  predicate FirstProfileImageAt(srcs: seq<string>, i: nat)
  {
    i < |srcs| && IsProfileImage(srcs[i]) && forall j :: 0 <= j < i ==> !IsProfileImage(srcs[j])
  }

  /** Scan for a matching image from position `k` on. */
  function FindProfileImageFrom(srcs: seq<string>, k: nat): (r: Option<nat>)
    decreases |srcs| - k
    ensures r.Some? ==> k <= r.value < |srcs| && IsProfileImage(srcs[r.value])
    ensures r.Some? ==> forall j :: k <= j < r.value ==> !IsProfileImage(srcs[j])
    ensures r.None? ==> forall j :: k <= j < |srcs| ==> !IsProfileImage(srcs[j])
  {
    if |srcs| <= k then None
    else if IsProfileImage(srcs[k]) then Some(k)
    else FindProfileImageFrom(srcs, k + 1)
  }

  /** `$("img[src*='profile_images']").first().attr("src")`: the first matching
      `src`, or `undefined` (here `None`) when no image matches. */
  function FirstProfileImage(srcs: seq<string>): (r: Option<string>)
    ensures r.None? <==> forall j :: 0 <= j < |srcs| ==> !IsProfileImage(srcs[j])
    ensures r.Some? ==> exists i: nat :: FirstProfileImageAt(srcs, i) && r.value == srcs[i]
  {
    match FindProfileImageFrom(srcs, 0)
    case None => None
    case Some(i) => Some(srcs[i])
  }

  /** `src.replace("_normal", "_400x400")`. */
  function Upgrade(src: string): (r: string)
    ensures !Text.Contains(src, LowResolution) ==> r == src
    ensures forall i: nat :: Text.FirstOccurrence(src, LowResolution, i) ==>
      r == src[..i] + HighResolution + src[i + |LowResolution|..]
  {
    Text.ReplaceFirst(src, LowResolution, HighResolution)
  }

  /** Everything inside the `try`: map the fetched page to a response. */
  function Respond(fetched: Attempt<Page>): (r: Response)
    ensures r.status in {200, 404, 500}
    ensures r.body.Url? <==> r.status == 200
  {
    match fetched
    case Threw(m) => Response(500, Error(m))
    case Returned(page) =>
      if !page.ok then Response(404, Error(FailedToFetch))
      else
        match page.imageSources
        case Threw(m) => Response(500, Error(m))
        case Returned(srcs) =>
          match FirstProfileImage(srcs)
          case Some(src) => Response(200, Url(Upgrade(src)))
          case None => Response(404, Error(NotFound))
  }

  /** The route handler (app/api/get-profile-pic/route.ts, `GET`). */
  function Get(handle: Option<string>, fetchX: string -> Attempt<Page>): (out: Resolution)
    ensures out.fetched == [] <==> NoHandle(handle)
    ensures NoHandle(handle) ==> out.response == Response(400, Error(NoHandleProvided))
    ensures !NoHandle(handle) ==> out.fetched == [ProfileUrl(handle)]
    ensures out.response.status == 200 ==>
      !NoHandle(handle) && FoundProfileImage(fetchX(ProfileUrl(handle)))
    ensures out.response.status in {200, 400, 404, 500}
  {
    var h := Text.NormaliseHandle(handle);
    if !Present(h) then
      Resolution(Response(400, Error(NoHandleProvided)), [])
    else
      var url := ProfileBase + h.value;
      Resolution(Respond(fetchX(url)), [url])
  }

  /** The fetch succeeded with an ok page that holds a matching image. */
  predicate FoundProfileImage(fetched: Attempt<Page>)
  {
    fetched.Returned? && fetched.value.ok && fetched.value.imageSources.Returned? &&
    exists j :: 0 <= j < |fetched.value.imageSources.value| &&
      IsProfileImage(fetched.value.imageSources.value[j])
  }

  // ----- Properties of the route -----

  /** "@@x" is looked up as "@x": only one '@' is stripped. */
  lemma DoubleAtLooksUpSingleAt(x: string, fetchX: string -> Attempt<Page>)
    ensures Get(Some("@@" + x), fetchX).fetched == [ProfileBase + "@" + x]
  {
    Text.StripOnlyOne(x);
    assert Text.NormaliseHandle(Some("@@" + x)) == Some("@" + x);
    assert ProfileBase + ("@" + x) == ProfileBase + "@" + x;
  }

  /** A missing handle, "" and "@" are all refused with 400 before any fetch. */
  lemma EmptyHandleRefused(handle: Option<string>, fetchX: string -> Attempt<Page>)
    requires handle.None? || handle.value == "" || handle.value == "@"
    ensures Get(handle, fetchX) == Resolution(Response(400, Error(NoHandleProvided)), [])
  {
    if handle.Some? {
      Text.NormalisedEmpty(handle.value);
    }
  }

  /** A page fetch that is not ok gives 404 "Failed to fetch X profile". */
  lemma UpstreamNotOk(handle: Option<string>, fetchX: string -> Attempt<Page>)
    requires !NoHandle(handle)
    requires fetchX(ProfileUrl(handle)).Returned? && !fetchX(ProfileUrl(handle)).value.ok
    ensures Get(handle, fetchX).response == Response(404, Error(FailedToFetch))
  {
  }

  /** An ok page with no matching image gives 404 "Profile pic not found". */
  lemma NoMatchingImage(handle: Option<string>, fetchX: string -> Attempt<Page>, srcs: seq<string>)
    requires !NoHandle(handle)
    requires fetchX(ProfileUrl(handle)) == Returned(Page(true, Returned(srcs)))
    requires forall j :: 0 <= j < |srcs| ==> !IsProfileImage(srcs[j])
    ensures Get(handle, fetchX).response == Response(404, Error(NotFound))
  {
  }

  /** On success the body is the first matching `src` with its first "_normal"
      replaced; images after it are ignored. */
  lemma FirstMatchUpgraded(handle: Option<string>, fetchX: string -> Attempt<Page>, srcs: seq<string>, i: nat)
    requires !NoHandle(handle)
    requires fetchX(ProfileUrl(handle)) == Returned(Page(true, Returned(srcs)))
    requires FirstProfileImageAt(srcs, i)
    ensures Get(handle, fetchX).response == Response(200, Url(Upgrade(srcs[i])))
  {
    var r := FindProfileImageFrom(srcs, 0);
    assert r == Some(i);
  }

  /** A thrown fetch or body read gives 500 with the thrown message. */
  lemma ThrownIsServerError(handle: Option<string>, fetchX: string -> Attempt<Page>, m: string)
    requires !NoHandle(handle)
    requires fetchX(ProfileUrl(handle)) == Threw(m) ||
             (fetchX(ProfileUrl(handle)).Returned? && fetchX(ProfileUrl(handle)).value == Page(true, Threw(m)))
    ensures Get(handle, fetchX).response == Response(500, Error(m))
  {
  }

  /** The example of the X image host: "alice_normal.jpg" becomes "alice_400x400.jpg". */
  lemma UpgradeExample()
    ensures Upgrade("alice_normal.jpg") == "alice_400x400.jpg"
  {
    var s := "alice_normal.jpg";
    assert forall k :: 0 <= k < 7 ==> s[5..12][k] == s[5 + k];
    Text.FirstOccurrenceByLeadingPair(s, LowResolution, 5);
    assert s[..5] + HighResolution + s[12..] == "alice_400x400.jpg";
  }

  /** Only the first "_normal" is rewritten; a later one stays. */
  lemma UpgradeOnlyFirst()
    ensures Upgrade("a_normal_normal.jpg") == "a_400x400_normal.jpg"
  {
    var s := "a_normal_normal.jpg";
    assert forall k :: 0 <= k < 7 ==> s[1..8][k] == s[1 + k];
    Text.FirstOccurrenceByLeadingPair(s, LowResolution, 1);
    assert s[..1] + HighResolution + s[8..] == "a_400x400_normal.jpg";
  }

  /** A `src` without "_normal" is returned as it is. */
  lemma UpgradeWithoutSuffix()
    ensures Upgrade("alice.jpg") == "alice.jpg"
  {
    Text.NotContainedByFirstChar("alice.jpg", LowResolution);
  }
}
