# Monadicons locket: the mint-voucher gate

This project models the server side of the Monadicons locket mint. Two
Next.js route handlers are modelled:

- `GET /api/generate-signature?wallet=…&handle=…` decides whether a wallet gets
  a signed thirdweb mint payload for the soulbound "diamond locket" NFT. It
  normalises the handle and checks the parameters. It then requires at least
  5000 transactions and a zero token balance, and looks up the handle's X
  profile picture. Last, it builds the SVG artwork around that picture,
  uploads the SVG and then the metadata, builds a payload for one token to the
  wallet and signs it. Every refusal returns early. Every thrown error becomes
  a 500 that carries the error's message.
- `GET /api/get-profile-pic?handle=…` strips one leading `@`, fetches the
  X profile page and picks the first `<img>` whose `src` contains
  `profile_images`. It rewrites the first `_normal` in that `src` to
  `_400x400` and returns it.

Both handlers are straight-line code with early returns, so both are Dafny
functions. Each awaited external call is an oracle that either returns a
value or throws a message (`Wrappers.Attempt`). The oracles are the RPC
transaction count, the ERC-721 `balanceOf`, the internal profile request, the
storage `upload`, thirdweb's `createMintPayload` and `sign`, and the X page
fetch. The voucher handler returns its response together with the ordered
trace of the external calls it made. "Nothing is uploaded or signed after a
refusal" is stated about that trace. Thirdweb's payload object is the type
parameter `P`: the handler only passes it on.

Modules, one per source file plus two shared ones:

- `Wrappers` (wrappers.dfy): `Option`, `Attempt`, and JavaScript truthiness of
  a query parameter.
- `Text` (text.dfy): handle normalisation, substring search and first-occurrence
  replacement, each with its specification (`OccursAt`, `FirstOccurrence`).
- `ProfilePic` (get_profile_pic.dfy): the profile-picture route.
- `GenerateSignature` (generate_signature.dfy): the voucher route and the
  artwork template.
- `EndToEnd` (end_to_end.dfy): the voucher route with its profile request
  answered by the profile-picture route, and the worked "@alice" example.

Some behaviour of the code worth stating outright:

- The claim refusal is 403 "Already claimed 1 NFT"
  (app/api/generate-signature/route.ts:55).
- The wallet address is not validated before the RPC call. A malformed
  address reaches the oracle, and whatever it throws becomes a 500.
- Thrown errors are not classified. Each one becomes a 500 that carries the
  thrown message verbatim (app/api/generate-signature/route.ts:87-89,
  app/api/get-profile-pic/route.ts:28-30).
- A profile page whose fetch is not ok gives 404 "Failed to fetch X profile"
  (app/api/get-profile-pic/route.ts:16-18). The voucher route turns any
  profile reply that is not ok into 400 "Invalid handle"
  (app/api/generate-signature/route.ts:59-61).

## Model

| member | source | states |
|---|---|---|
| `Text.StripLeadingAt` | app/api/get-profile-pic/route.ts:5 | the result is the input, or the input with one leading '@' removed; it differs from the input exactly when the input starts with '@' |
| `Text.NormaliseHandle` | app/api/generate-signature/route.ts:34 | a missing parameter stays missing; a present one loses its leading '@' when it has one and is otherwise unchanged |
| `Text.StripOnlyOne` | app/api/get-profile-pic/route.ts:5 | "@@x" normalises to "@x": only one '@' goes |
| `Text.NormalisedEmpty` | app/api/generate-signature/route.ts:34-35 | the normalised handle is empty exactly for "" and "@" |
| `Text.StripAfterPrepend` | app/api/get-profile-pic/route.ts:5 | normalising "@" + h gives h back, for every h |
| `Text.IndexOf` | app/api/get-profile-pic/route.ts:23 | the search finds the leftmost occurrence of the pattern, and finds none exactly when the pattern does not occur |
| `Text.FindFrom` | app/api/get-profile-pic/route.ts:23 | a search from position k returns an occurrence at or after k with none between k and it, or none when none occurs from k on |
| `Text.ReplaceFirst` | app/api/get-profile-pic/route.ts:23 | with a string pattern, the leftmost occurrence is replaced and the text before and after it is kept; a string without the pattern is unchanged |
| `Text.ReplaceFirstKeepsSuffix` | app/api/get-profile-pic/route.ts:23 | after the replacement the prefix and everything after the replaced occurrence are unchanged, so later occurrences survive; the length changes by the length difference |
| `ProfilePic.FindProfileImageFrom` | app/api/get-profile-pic/route.ts:21 | a scan from position k returns a matching image at or after k with no match between k and it, or none when no image from k on matches |
| `ProfilePic.FirstProfileImage` | app/api/get-profile-pic/route.ts:21 | no result exactly when no `src` contains "profile_images"; otherwise the result is the first `src` that does, and later matches are ignored |
| `ProfilePic.Upgrade` | app/api/get-profile-pic/route.ts:23 | the first "_normal" becomes "_400x400" and the rest of the URL is kept; a URL without "_normal" is returned as it is |
| `ProfilePic.Respond` | app/api/get-profile-pic/route.ts:10-30 | after the fetch the status is 200, 404 or 500, and the body holds a URL exactly when the status is 200 |
| `ProfilePic.Get` | app/api/get-profile-pic/route.ts:4-31 | no fetch is made exactly when the handle is missing or empty after normalisation, and then the answer is 400 "No handle provided"; otherwise exactly one fetch of https://x.com/ plus the normalised handle; a 200 only when that page was ok and held a matching image |
| `ProfilePic.DoubleAtLooksUpSingleAt` | app/api/get-profile-pic/route.ts:5-11 | the handle "@@x" fetches https://x.com/@x |
| `ProfilePic.EmptyHandleRefused` | app/api/get-profile-pic/route.ts:5-8 | a missing handle, "" and "@" give 400 "No handle provided" and no fetch |
| `ProfilePic.UpstreamNotOk` | app/api/get-profile-pic/route.ts:16-18 | a page fetch that is not ok gives 404 "Failed to fetch X profile" |
| `ProfilePic.NoMatchingImage` | app/api/get-profile-pic/route.ts:25-27 | an ok page with no matching image gives 404 "Profile pic not found" |
| `ProfilePic.FirstMatchUpgraded` | app/api/get-profile-pic/route.ts:21-24 | an ok page whose first matching image is at i gives 200 with the upgraded `src` of image i |
| `ProfilePic.ThrownIsServerError` | app/api/get-profile-pic/route.ts:28-30 | a thrown fetch or body read gives 500 with the thrown message |
| `ProfilePic.UpgradeExample` | app/api/get-profile-pic/route.ts:23 | "alice_normal.jpg" becomes "alice_400x400.jpg" |
| `ProfilePic.UpgradeOnlyFirst` | app/api/get-profile-pic/route.ts:23 | "a_normal_normal.jpg" becomes "a_400x400_normal.jpg" |
| `ProfilePic.UpgradeWithoutSuffix` | app/api/get-profile-pic/route.ts:23 | "alice.jpg" is returned unchanged |
| `GenerateSignature.GenerateSvg` | app/api/generate-signature/route.ts:20-30 | the markup is a fixed text, then the picture URL verbatim, then a fixed text |
| `GenerateSignature.EmbeddedImage` | app/api/generate-signature/route.ts:27 | reading a URL back out of a markup string gives one whose artwork is that markup |
| `GenerateSignature.SvgEmbedsImage` | app/api/generate-signature/route.ts:20-30 | the URL read back out of the artwork is the one it was built from |
| `GenerateSignature.SvgInjective` | app/api/generate-signature/route.ts:20-30 | different picture URLs give different artwork |
| `GenerateSignature.Get` | app/api/generate-signature/route.ts:32-90 | no external call is made exactly when the wallet or the normalised handle is missing or empty, and then the answer is 400 "Missing wallet or handle"; the status is 200, 400, 403 or 500, and the body is a voucher exactly on 200 |
| `GenerateSignature.Gate` | app/api/generate-signature/route.ts:39-89 | the first external call is the transaction-count read for the wallet; statuses as for `Get` |
| `GenerateSignature.Publish` | app/api/generate-signature/route.ts:64-86 | the calls so far are kept, and the next one is the upload of the SVG built from the picture URL; the status is 200 or 500 |
| `GenerateSignature.MissingParametersRefused` | app/api/generate-signature/route.ts:33-37 | no wallet, no handle, "" or "@" gives 400 "Missing wallet or handle" with an empty trace |
| `GenerateSignature.BelowThresholdNotEligible` | app/api/generate-signature/route.ts:41-44 | a count below 5000 gives 403 "Not eligible" after one call, the count read, whatever the balance is |
| `GenerateSignature.HolderAlreadyClaimed` | app/api/generate-signature/route.ts:53-56 | a count of at least 5000 and a positive balance give 403 "Already claimed 1 NFT" after the count and balance reads only |
| `GenerateSignature.ProfileLookupFailed` | app/api/generate-signature/route.ts:58-61 | an eligible wallet whose profile reply for "@" plus the normalised handle is not ok gets 400 "Invalid handle" and no upload |
| `GenerateSignature.ArtworkUploadedFirst` | app/api/generate-signature/route.ts:62-66 | after an ok profile reply with URL u, the fourth call uploads the SVG built from u |
| `GenerateSignature.VoucherOnlyWhenEligible` | app/api/generate-signature/route.ts:42-86 | a 200 implies parameters present, count at least 5000, balance not positive and an ok profile reply |
| `GenerateSignature.VoucherIssued` | app/api/generate-signature/route.ts:64-86 | when every step succeeds: 200 with the payload and signature, after exactly seven calls in order; the SVG upload comes before the metadata upload; the metadata is named "Monad Soulbound NFT for @" plus the handle, has the fixed description and the SVG's URI; the payload is for one token to the wallet with the metadata URI, and that payload is what is signed |
| `GenerateSignature.VoucherShape` | app/api/generate-signature/route.ts:64-86 | every 200 has that seven-call shape, and the returned payload and signature are the results of the last two calls |
| `GenerateSignature.ThrownIsServerError` | app/api/generate-signature/route.ts:39-89 | the answer is 500 exactly when the last call threw, and it then carries that call's message; no earlier call threw |
| `GenerateSignature.GateEndsAtThrow` | app/api/generate-signature/route.ts:39-89 | for the body of the `try`: 500 exactly when the last call threw, with its message, and no earlier call threw |
| `GenerateSignature.PublishEndsAtThrow` | app/api/generate-signature/route.ts:64-89 | the same for the publishing steps, after earlier calls that did not throw |
| `EndToEnd.LookupSeesNormalisedHandle` | app/api/generate-signature/route.ts:58 | the profile route, asked for "@" plus a non-empty handle h, fetches the X page of h |
| `EndToEnd.NoPictureNoVoucher` | app/api/generate-signature/route.ts:58-61 | an eligible wallet whose X page has no matching image gets 400 "Invalid handle" after three calls |
| `EndToEnd.ArtworkFromFirstPicture` | app/api/generate-signature/route.ts:58-66 | an eligible wallet's first upload is the SVG around the upgraded first matching image of its X page |
| `EndToEnd.AliceUpgrade` | app/api/get-profile-pic/route.ts:23 | ".../profile_images/1/alice_normal.jpg" becomes ".../profile_images/1/alice_400x400.jpg"; the '_' inside "profile_images" is left alone |
| `EndToEnd.AliceResolved` | app/api/get-profile-pic/route.ts:21-24 | a page with a non-matching image and then Alice's picture gives 200 with the upgraded picture |
| `EndToEnd.AliceScenario` | app/api/generate-signature/route.ts:32-86 | wallet "0xABC" with 12000 transactions, no token and handle "@alice" gets 200 with the payload for one token and its signature |

Two functions have no contract of their own and are covered by the rows above.
`GenerateSignature.MetadataFor` builds the metadata document
(app/api/generate-signature/route.ts:69-73); `VoucherIssued` and `VoucherShape`
state its name, description and image. `EndToEnd.AsPicReply` is what the
voucher route reads of a profile response, with `ok` for a 2xx status
(app/api/generate-signature/route.ts:59-62); the `EndToEnd` lemmas state what
it yields for each profile outcome.

## Left out

- Network, RPC, storage and signing are oracles. The model fixes which calls
  are made, in which order, and their arguments except three. The trace drops
  the `User-Agent` header of the X page fetch
  (app/api/get-profile-pic/route.ts:12-14). It drops the `{ privateKey }`
  option of `sign` (app/api/generate-signature/route.ts:84). It drops the site
  base URL of the internal profile request
  (app/api/generate-signature/route.ts:58). The voucher's
  canonical encoding and the signature scheme live inside thirdweb and are not
  modelled.
- HTML parsing and CSS selector matching are not modelled. A page is the
  ordered list of its `<img>` `src` values. An `<img>` without `src` never
  matches the selector, so it is not in the list.
- `EndToEnd.ServedByResolver`: the internal request puts the handle into the
  query string unencoded (app/api/generate-signature/route.ts:58). The model
  assumes the profile route receives "@" plus the handle unchanged. A handle
  with '&', '#', '+' or '%' would be read differently, and that is not
  modelled. Nor is the URL parser's clean-up before the request is sent: it
  removes tabs and newlines anywhere, and leading and trailing spaces and
  control characters. The handle ends the URL, so a decoded handle "alice "
  (from `handle=alice%20`) is looked up as "alice", while the metadata is
  named "Monad Soulbound NFT for @alice ".
- An ok profile reply whose JSON has no string `url` is not modelled. The
  model takes `url` to be a string or the JSON read to throw.
- Thrown values are taken to be `Error`s with a message. A thrown non-`Error`
  (where `.message` is `undefined`) is not modelled.
- Constructing the RPC provider and the contract handle (`new
  ethers.JsonRpcProvider`, `getContract`), environment variables and the chain
  descriptor constants are not modelled. These steps are treated as never
  throwing.
- Serialising the response body (`NextResponse.json({ payload, signature })`)
  is treated as not failing.
- Concurrency is not modelled. The code reserves nothing between its checks and the signing, so two
  simultaneous requests for one wallet can both pass the balance check. The
  model describes one request at a time.
- Upload idempotence and content addressing are properties of the storage
  service, not of the code, and are not modelled.
- app/page.tsx (the client UI, with its copy of the SVG template and of the
  5000 threshold) and tailwing.config.ts (styling) are not part of this model.
