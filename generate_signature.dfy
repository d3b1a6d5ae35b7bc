/** The `GET /api/generate-signature?wallet=...&handle=...` route: the gate that
    decides whether a wallet gets a signed mint voucher for the soulbound NFT.

    Every awaited external call (the RPC transaction count, the ERC-721 balance,
    the internal profile-picture request, the two storage uploads, thirdweb's
    `createMintPayload` and `sign`) is an oracle of `Env`, which may resolve or
    throw. The handler's result is the response together with the trace of the
    external calls it made, in order, so that "nothing is uploaded or signed
    after a rejection" can be stated. `P` is thirdweb's payload object, which
    the handler only passes on. */
module GenerateSignature {
  import opened Wrappers
  import Text

  /** `count < 5000` is refused. */
  const ActivityThreshold := 5000

  const MissingParameters := "Missing wallet or handle"
  const NotEligible := "Not eligible"
  const AlreadyClaimed := "Already claimed 1 NFT"
  const InvalidHandle := "Invalid handle"

  const NamePrefix := "Monad Soulbound NFT for @"
  const Description := "Soulbound NFT with your X profile embedded in the official Monad diamond locket."

  /** The artwork markup before and after the embedded image URL. */
  const SvgBeforeImage := "\n    <svg width=\"400\" height=\"400\" viewBox=\"0 0 400 400\" xmlns=\"http://www.w3.org/2000/svg\" xmlns:xlink=\"http://www.w3.org/1999/xlink\">\n      <path id=\"diamond\" d=\"M200 20 L380 200 L200 380 L20 200 Z\" fill=\"none\" stroke=\"#836EF9\" stroke-width=\"10\"/>\n      <clipPath id=\"clip\">\n        <use xlink:href=\"#diamond\"/>\n      </clipPath>\n      <image xlink:href=\""
  const SvgAfterImage := "\" width=\"400\" height=\"400\" preserveAspectRatio=\"xMidYMid slice\" clip-path=\"url(#clip)\" />\n    </svg>\n  "

  /** The NFT metadata document. */
  datatype Metadata = Metadata(name: string, description: string, image: string)

  /** What goes to storage: the SVG text, then the metadata document. */
  datatype UploadData = SvgFile(svg: string) | MetadataFile(metadata: Metadata)

  /** The argument of `createMintPayload`. */
  datatype MintRequest = MintRequest(metadata: string, to: string, quantity: nat)

  /** What the awaited internal request to the profile-picture route gives:
      `picRes.ok`, and the `url` field of `picRes.json()` (parsing may throw). */
  datatype PicReply = PicReply(ok: bool, url: Attempt<string>)

  /** The external calls, with the arguments they are made with. */
  datatype Effect<P> =
    | ReadTransactionCount(wallet: string)
    | ReadBalance(wallet: string)
    | FetchProfilePic(handleQuery: string)
    | Upload(data: UploadData)
    | CreateMintPayload(request: MintRequest)
    | Sign(payload: P)

  /** The oracles the handler consults. */
  datatype Env<!P> = Env(
    transactionCount: string -> Attempt<int>,
    balanceOf: string -> Attempt<int>,
    fetchProfilePic: string -> Attempt<PicReply>,
    upload: UploadData -> Attempt<string>,
    createMintPayload: MintRequest -> Attempt<P>,
    sign: P -> Attempt<string>)

  /** The JSON body: `{payload, signature}` on success, `{error}` otherwise. */
  datatype Body<P> = Voucher(payload: P, signature: string) | Error(message: string)

  datatype Response<P> = Response(status: nat, body: Body<P>)

  datatype Outcome<P> = Outcome(response: Response<P>, trace: seq<Effect<P>>)

  /** `generateSvg`: the diamond locket with `profilePic` as the clipped image. */
  function GenerateSvg(profilePic: string): (svg: string)
    ensures |svg| == |SvgBeforeImage| + |profilePic| + |SvgAfterImage|
    ensures svg[..|SvgBeforeImage|] == SvgBeforeImage
    ensures svg[|SvgBeforeImage|..|SvgBeforeImage| + |profilePic|] == profilePic
    ensures svg[|SvgBeforeImage| + |profilePic|..] == SvgAfterImage
  {
    SvgBeforeImage + profilePic + SvgAfterImage
  }

  /** Reads the image URL back out of a markup string of the locket's shape. */
  function EmbeddedImage(svg: string): (url: Option<string>)
    ensures url.Some? ==> GenerateSvg(url.value) == svg
  {
    var n, m := |SvgBeforeImage|, |SvgAfterImage|;
    if n + m <= |svg| && svg[..n] == SvgBeforeImage && svg[|svg| - m..] == SvgAfterImage then
      var u := svg[n..|svg| - m];
      assert svg == svg[..n] + u + svg[|svg| - m..];
      Some(u)
    else
      None
  }

  /** The locket embeds the URL verbatim: it can be read back out. */
  lemma SvgEmbedsImage(profilePic: string)
    ensures EmbeddedImage(GenerateSvg(profilePic)) == Some(profilePic)
  {
    var svg := GenerateSvg(profilePic);
    assert svg[|svg| - |SvgAfterImage|..] == SvgAfterImage;
  }

  /** Different image URLs give different artwork. */
  lemma SvgInjective(a: string, b: string)
    requires GenerateSvg(a) == GenerateSvg(b)
    ensures a == b
  {
    SvgEmbedsImage(a);
    SvgEmbedsImage(b);
  }

  /** The metadata document for a handle and the URI of its uploaded SVG. */
  function MetadataFor(handle: string, imageUri: string): Metadata
  {
    Metadata(NamePrefix + handle, Description, imageUri)
  }

  /** `!wallet || !handle` after normalising the handle. */
  predicate MissingParams(wallet: Option<string>, handle: Option<string>)
  {
    !Present(wallet) || !Present(Text.NormaliseHandle(handle))
  }

  /** The error response. */
  function Reject<P>(status: nat, message: string): Response<P>
  {
    Response(status, Error(message))
  }

  /** The route handler (app/api/generate-signature/route.ts, `GET`). */
  function Get<P>(wallet: Option<string>, handle: Option<string>, env: Env<P>): (out: Outcome<P>)
    ensures out.trace == [] <==> MissingParams(wallet, handle)
    ensures MissingParams(wallet, handle) ==> out.response == Reject(400, MissingParameters)
    ensures out.response.status in {200, 400, 403, 500}
    ensures out.response.body.Voucher? <==> out.response.status == 200
  {
    var h := Text.NormaliseHandle(handle);
    if !Present(wallet) || !Present(h) then
      Outcome(Reject(400, MissingParameters), [])
    else
      Gate(wallet.value, h.value, env)
  }

  /** The body of the `try`: eligibility, claim check, profile lookup, publishing
      and signing, with an early return at the first refusal or thrown error. */
  function Gate<P>(wallet: string, handle: string, env: Env<P>): (out: Outcome<P>)
    ensures |out.trace| > 0 && out.trace[0] == ReadTransactionCount(wallet)
    ensures out.response.status in {200, 400, 403, 500}
    ensures out.response.body.Voucher? <==> out.response.status == 200
  {
    var t0 := [ReadTransactionCount(wallet)];
    match env.transactionCount(wallet)
    case Threw(e) => Outcome(Reject(500, e), t0)
    case Returned(count) =>
      if count < ActivityThreshold then Outcome(Reject(403, NotEligible), t0)
      else
        var t1 := t0 + [ReadBalance(wallet)];
        match env.balanceOf(wallet)
        case Threw(e) => Outcome(Reject(500, e), t1)
        case Returned(balance) =>
          if balance > 0 then Outcome(Reject(403, AlreadyClaimed), t1)
          else
            var t2 := t1 + [FetchProfilePic("@" + handle)];
            match env.fetchProfilePic("@" + handle)
            case Threw(e) => Outcome(Reject(500, e), t2)
            case Returned(pic) =>
              if !pic.ok then Outcome(Reject(400, InvalidHandle), t2)
              else
                match pic.url
                case Threw(e) => Outcome(Reject(500, e), t2)
                case Returned(profilePic) => Publish(wallet, handle, profilePic, env, t2)
  }

  /** Upload the SVG, then the metadata, then build and sign the payload. */
  function Publish<P>(wallet: string, handle: string, profilePic: string, env: Env<P>, t: seq<Effect<P>>): (out: Outcome<P>)
    ensures |out.trace| > |t| && out.trace[..|t|] == t
    ensures out.trace[|t|] == Upload(SvgFile(GenerateSvg(profilePic)))
    ensures out.response.status in {200, 500}
    ensures out.response.body.Voucher? <==> out.response.status == 200
  {
    var svg := SvgFile(GenerateSvg(profilePic));
    var t3 := t + [Upload(svg)];
    match env.upload(svg)
    case Threw(e) => Outcome(Reject(500, e), t3)
    case Returned(imageUri) =>
      var metadata := MetadataFile(MetadataFor(handle, imageUri));
      var t4 := t3 + [Upload(metadata)];
      match env.upload(metadata)
      case Threw(e) => Outcome(Reject(500, e), t4)
      case Returned(metadataUri) =>
        var request := MintRequest(metadataUri, wallet, 1);
        var t5 := t4 + [CreateMintPayload(request)];
        match env.createMintPayload(request)
        case Threw(e) => Outcome(Reject(500, e), t5)
        case Returned(payload) =>
          var t6 := t5 + [Sign(payload)];
          match env.sign(payload)
          case Threw(e) => Outcome(Reject(500, e), t6)
          case Returned(signature) => Outcome(Response(200, Voucher(payload, signature)), t6)
  }

  // ----- What the handler promises -----

  /** The message the external call `e` threw, when it threw. For the profile
      request this includes the `json()` read that follows an ok reply. */
  function Thrown<P>(env: Env<P>, e: Effect<P>): Option<string>
  {
    match e
    case ReadTransactionCount(w) =>
      if env.transactionCount(w).Threw? then Some(env.transactionCount(w).message) else None
    case ReadBalance(w) =>
      if env.balanceOf(w).Threw? then Some(env.balanceOf(w).message) else None
    case FetchProfilePic(q) =>
      (match env.fetchProfilePic(q)
       case Threw(m) => Some(m)
       case Returned(pic) => if pic.ok && pic.url.Threw? then Some(pic.url.message) else None)
    case Upload(d) =>
      if env.upload(d).Threw? then Some(env.upload(d).message) else None
    case CreateMintPayload(r) =>
      if env.createMintPayload(r).Threw? then Some(env.createMintPayload(r).message) else None
    case Sign(p) =>
      if env.sign(p).Threw? then Some(env.sign(p).message) else None
  }

  /** Parameters present, at least 5000 transactions, no token held, and an ok
      reply from the profile-picture route for the normalised handle. */
  predicate Eligible<P>(wallet: Option<string>, handle: Option<string>, env: Env<P>)
  {
    !MissingParams(wallet, handle) &&
    var w, h := wallet.value, Text.StripLeadingAt(handle.value);
    env.transactionCount(w).Returned? && env.transactionCount(w).value >= ActivityThreshold &&
    env.balanceOf(w).Returned? && env.balanceOf(w).value <= 0 &&
    env.fetchProfilePic("@" + h).Returned? && env.fetchProfilePic("@" + h).value.ok
  }

  /** A missing wallet, a missing handle, "" or a bare "@" is refused with 400
      before any external call. */
  lemma MissingParametersRefused<P>(wallet: Option<string>, handle: Option<string>, env: Env<P>)
    requires !Present(wallet) || handle.None? || handle.value == "" || handle.value == "@"
    ensures Get(wallet, handle, env) == Outcome(Reject(400, MissingParameters), [])
  {
    if handle.Some? {
      Text.NormalisedEmpty(handle.value);
    }
  }

  /** Fewer than 5000 transactions: 403 "Not eligible" after the count is read
      and nothing more. The balance is never consulted, so a wallet below the
      threshold is refused this way even when it already holds the token. */
  lemma BelowThresholdNotEligible<P>(wallet: Option<string>, handle: Option<string>, env: Env<P>)
    requires !MissingParams(wallet, handle)
    requires env.transactionCount(wallet.value).Returned?
    requires env.transactionCount(wallet.value).value < ActivityThreshold
    ensures Get(wallet, handle, env) ==
      Outcome(Reject(403, NotEligible), [ReadTransactionCount(wallet.value)])
  {
  }

  /** Enough transactions but a positive balance: 403 "Already claimed 1 NFT",
      with no profile lookup, upload or signing. */
  lemma HolderAlreadyClaimed<P>(wallet: Option<string>, handle: Option<string>, env: Env<P>)
    requires !MissingParams(wallet, handle)
    requires env.transactionCount(wallet.value).Returned?
    requires env.transactionCount(wallet.value).value >= ActivityThreshold
    requires env.balanceOf(wallet.value).Returned? && env.balanceOf(wallet.value).value > 0
    ensures Get(wallet, handle, env) ==
      Outcome(Reject(403, AlreadyClaimed), [ReadTransactionCount(wallet.value), ReadBalance(wallet.value)])
  {
  }

  /** An eligible wallet whose profile request is not ok: 400 "Invalid handle",
      and neither upload happens. The request goes out for "@" and the
      normalised handle. */
  lemma ProfileLookupFailed<P>(wallet: Option<string>, handle: Option<string>, env: Env<P>)
    requires !MissingParams(wallet, handle)
    requires env.transactionCount(wallet.value).Returned?
    requires env.transactionCount(wallet.value).value >= ActivityThreshold
    requires env.balanceOf(wallet.value).Returned? && env.balanceOf(wallet.value).value <= 0
    requires var q := "@" + Text.StripLeadingAt(handle.value);
      env.fetchProfilePic(q).Returned? && !env.fetchProfilePic(q).value.ok
    ensures Get(wallet, handle, env) ==
      Outcome(Reject(400, InvalidHandle),
              [ReadTransactionCount(wallet.value), ReadBalance(wallet.value),
               FetchProfilePic("@" + Text.StripLeadingAt(handle.value))])
  {
  }

  /** An eligible wallet whose profile request gives `url`: the next call is the
      upload of the SVG built from `url`, before anything else is published. */
  lemma ArtworkUploadedFirst<P>(wallet: Option<string>, handle: Option<string>, env: Env<P>, url: string)
    requires Eligible(wallet, handle, env)
    requires env.fetchProfilePic("@" + Text.StripLeadingAt(handle.value)).value.url == Returned(url)
    ensures var out := Get(wallet, handle, env);
      |out.trace| >= 4 && out.trace[3] == Upload(SvgFile(GenerateSvg(url)))
  {
  }

  /** A voucher is only ever returned to an eligible wallet. */
  lemma VoucherOnlyWhenEligible<P>(wallet: Option<string>, handle: Option<string>, env: Env<P>)
    requires Get(wallet, handle, env).response.status == 200
    ensures Eligible(wallet, handle, env)
  {
  }

  /** When every step succeeds: the SVG embedding the profile URL is uploaded
      first, then the metadata naming the handle and pointing at the SVG's URI,
      then the payload for exactly one token to the wallet with the metadata URI
      is built, and that payload is what is signed and returned. */
  lemma VoucherIssued<P>(wallet: Option<string>, handle: Option<string>, env: Env<P>,
                               profilePic: string, imageUri: string, metadataUri: string,
                               payload: P, signature: string)
    requires Eligible(wallet, handle, env)
    requires env.fetchProfilePic("@" + Text.StripLeadingAt(handle.value)).value.url == Returned(profilePic)
    requires env.upload(SvgFile(GenerateSvg(profilePic))) == Returned(imageUri)
    requires env.upload(MetadataFile(Metadata(NamePrefix + Text.StripLeadingAt(handle.value), Description, imageUri)))
             == Returned(metadataUri)
    requires env.createMintPayload(MintRequest(metadataUri, wallet.value, 1)) == Returned(payload)
    requires env.sign(payload) == Returned(signature)
    ensures Get(wallet, handle, env) == Outcome(
      Response(200, Voucher(payload, signature)),
      [ReadTransactionCount(wallet.value), ReadBalance(wallet.value),
       FetchProfilePic("@" + Text.StripLeadingAt(handle.value)),
       Upload(SvgFile(GenerateSvg(profilePic))),
       Upload(MetadataFile(Metadata(NamePrefix + Text.StripLeadingAt(handle.value), Description, imageUri))),
       CreateMintPayload(MintRequest(metadataUri, wallet.value, 1)),
       Sign(payload)])
  {
  }

  /** Conversely, every 200 has that shape: seven calls in that order, and the
      returned payload and signature are the results of the last two. */
  lemma VoucherShape<P>(wallet: Option<string>, handle: Option<string>, env: Env<P>)
    requires Get(wallet, handle, env).response.status == 200
    ensures var out := Get(wallet, handle, env);
      var w, h := wallet.value, Text.StripLeadingAt(handle.value);
      |out.trace| == 7 &&
      out.trace[2] == FetchProfilePic("@" + h) &&
      out.trace[3] == Upload(SvgFile(GenerateSvg(env.fetchProfilePic("@" + h).value.url.value))) &&
      out.trace[4] == Upload(MetadataFile(Metadata(NamePrefix + h, Description, env.upload(out.trace[3].data).value))) &&
      out.trace[5] == CreateMintPayload(MintRequest(env.upload(out.trace[4].data).value, w, 1)) &&
      out.trace[6] == Sign(out.response.body.payload) &&
      env.createMintPayload(out.trace[5].request) == Returned(out.response.body.payload) &&
      env.sign(out.response.body.payload) == Returned(out.response.body.signature)
  {
  }

  /** A response is 500 exactly when the last external call threw, and then it
      carries that call's message; no call before the last one threw. */
  lemma ThrownIsServerError<P>(wallet: Option<string>, handle: Option<string>, env: Env<P>)
    ensures var out := Get(wallet, handle, env);
      out.response.status == 500 <==> |out.trace| > 0 && Thrown(env, out.trace[|out.trace| - 1]).Some?
    ensures var out := Get(wallet, handle, env);
      out.response.status == 500 ==> out.response.body == Error(Thrown(env, out.trace[|out.trace| - 1]).value)
    ensures var out := Get(wallet, handle, env);
      forall k :: 0 <= k < |out.trace| - 1 ==> Thrown(env, out.trace[k]).None?
  {
    if !MissingParams(wallet, handle) {
      GateEndsAtThrow(wallet.value, Text.StripLeadingAt(handle.value), env);
    }
  }

  /** The three clauses of `ThrownIsServerError` for one outcome. */
  predicate EndsAtThrow<P>(env: Env<P>, out: Outcome<P>)
  {
    (out.response.status == 500 <==> |out.trace| > 0 && Thrown(env, out.trace[|out.trace| - 1]).Some?) &&
    (out.response.status == 500 ==> out.response.body == Error(Thrown(env, out.trace[|out.trace| - 1]).value)) &&
    (forall k :: 0 <= k < |out.trace| - 1 ==> Thrown(env, out.trace[k]).None?)
  }

  /** The gate stops at the first call that threw, and answers 500 with its message. */
  lemma GateEndsAtThrow<P>(wallet: string, handle: string, env: Env<P>)
    ensures EndsAtThrow(env, Gate(wallet, handle, env))
  {
    var t2 := [ReadTransactionCount(wallet), ReadBalance(wallet), FetchProfilePic("@" + handle)];
    if env.transactionCount(wallet).Returned? && env.transactionCount(wallet).value >= ActivityThreshold &&
       env.balanceOf(wallet).Returned? && env.balanceOf(wallet).value <= 0 &&
       env.fetchProfilePic("@" + handle).Returned? && env.fetchProfilePic("@" + handle).value.ok &&
       env.fetchProfilePic("@" + handle).value.url.Returned? {
      assert forall k :: 0 <= k < |t2| ==> Thrown(env, t2[k]).None?;
      PublishEndsAtThrow(wallet, handle, env.fetchProfilePic("@" + handle).value.url.value, env, t2);
    }
  }

  /** Publishing after calls that did not throw stops at the first one that did. */
  lemma PublishEndsAtThrow<P>(wallet: string, handle: string, profilePic: string, env: Env<P>, t: seq<Effect<P>>)
    requires forall k :: 0 <= k < |t| ==> Thrown(env, t[k]).None?
    ensures EndsAtThrow(env, Publish(wallet, handle, profilePic, env, t))
  {
  }
}
