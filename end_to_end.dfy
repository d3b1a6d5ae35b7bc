/** The voucher route with its profile request answered by the profile-picture
    route itself: app/api/generate-signature/route.ts:58 asks
    `/api/get-profile-pic?handle=@<handle>`. The query text is taken to reach
    that route as its `handle` parameter unchanged. */
module EndToEnd {
  import opened Wrappers
  import Text
  import ProfilePic
  import GenerateSignature

  /** What the voucher route sees of a profile-picture response: `ok` for a 2xx
      status, and the `url` field of the body. An error body has no `url`; it is
      never read, because every error status is not ok. */
  function AsPicReply(r: ProfilePic.Response): GenerateSignature.PicReply
  {
    GenerateSignature.PicReply(
      200 <= r.status < 300,
      match r.body
      case Url(u) => Returned(u)
      case Error(m) => Threw(m))
  }

  /** The environment's profile request is the profile-picture route over the
      X page oracle `fetchX`. */
  ghost predicate ServedByResolver<P>(env: GenerateSignature.Env<P>, fetchX: string -> Attempt<ProfilePic.Page>)
  {
    forall q :: env.fetchProfilePic(q) == Returned(AsPicReply(ProfilePic.Get(Some(q), fetchX).response))
  }

  /** The profile route strips the '@' the voucher route put back, so the X page
      it fetches is that of the normalised handle. */
  lemma LookupSeesNormalisedHandle(handle: string, fetchX: string -> Attempt<ProfilePic.Page>)
    requires handle != ""
    ensures ProfilePic.Get(Some("@" + handle), fetchX).fetched == [ProfilePic.ProfileBase + handle]
  {
    Text.StripAfterPrepend(handle);
  }

  /** An eligible wallet whose handle has no profile picture on X gets 400
      "Invalid handle", and nothing is uploaded or signed. */
  lemma NoPictureNoVoucher<P>(wallet: Option<string>, handle: Option<string>,
                              env: GenerateSignature.Env<P>, fetchX: string -> Attempt<ProfilePic.Page>,
                              srcs: seq<string>)
    requires !GenerateSignature.MissingParams(wallet, handle)
    requires ServedByResolver(env, fetchX)
    requires env.transactionCount(wallet.value).Returned?
    requires env.transactionCount(wallet.value).value >= GenerateSignature.ActivityThreshold
    requires env.balanceOf(wallet.value) == Returned(0)
    requires fetchX(ProfilePic.ProfileBase + Text.StripLeadingAt(handle.value)) ==
             Returned(ProfilePic.Page(true, Returned(srcs)))
    requires forall j :: 0 <= j < |srcs| ==> !ProfilePic.IsProfileImage(srcs[j])
    ensures GenerateSignature.Get(wallet, handle, env).response ==
            GenerateSignature.Reject(400, GenerateSignature.InvalidHandle)
    ensures |GenerateSignature.Get(wallet, handle, env).trace| == 3
  {
    var h := Text.StripLeadingAt(handle.value);
    LookupSeesNormalisedHandle(h, fetchX);
    ProfilePic.NoMatchingImage(Some("@" + h), fetchX, srcs);
  }

  /** An eligible wallet whose X page has a profile picture gets artwork built
      from the first matching image, upgraded to 400x400, as its first upload. */
  lemma ArtworkFromFirstPicture<P>(wallet: Option<string>, handle: Option<string>,
                                   env: GenerateSignature.Env<P>, fetchX: string -> Attempt<ProfilePic.Page>,
                                   srcs: seq<string>, i: nat)
    requires !GenerateSignature.MissingParams(wallet, handle)
    requires ServedByResolver(env, fetchX)
    requires env.transactionCount(wallet.value).Returned?
    requires env.transactionCount(wallet.value).value >= GenerateSignature.ActivityThreshold
    requires env.balanceOf(wallet.value) == Returned(0)
    requires fetchX(ProfilePic.ProfileBase + Text.StripLeadingAt(handle.value)) ==
             Returned(ProfilePic.Page(true, Returned(srcs)))
    requires ProfilePic.FirstProfileImageAt(srcs, i)
    ensures var out := GenerateSignature.Get(wallet, handle, env);
      |out.trace| >= 4 &&
      out.trace[3] == GenerateSignature.Upload(GenerateSignature.SvgFile(
        GenerateSignature.GenerateSvg(ProfilePic.Upgrade(srcs[i]))))
  {
    var h := Text.StripLeadingAt(handle.value);
    LookupSeesNormalisedHandle(h, fetchX);
    ProfilePic.FirstMatchUpgraded(Some("@" + h), fetchX, srcs, i);
    var url := ProfilePic.Upgrade(srcs[i]);
    assert ProfilePic.Get(Some("@" + h), fetchX).response == ProfilePic.Response(200, ProfilePic.Url(url));
    assert AsPicReply(ProfilePic.Get(Some("@" + h), fetchX).response) == GenerateSignature.PicReply(true, Returned(url));
    assert env.fetchProfilePic("@" + h) == Returned(GenerateSignature.PicReply(true, Returned(url)));
    GenerateSignature.ArtworkUploadedFirst(wallet, handle, env, url);
  }

  /** The example picture URL "https://pbs.twimg.com/profile_images/1/alice_normal.jpg"
      and its upgrade, in the pieces the proofs use: the only '_' before
      "_normal" is the one inside "profile_images". */
  const AliceHead := "https://pbs.twimg.com/profile"
  const AliceMiddle := "images/1/alice"
  const AliceSource := AliceHead + "_" + AliceMiddle + "_normal" + ".jpg"
  const AliceUpgraded := AliceHead + "_" + AliceMiddle + "_400x400" + ".jpg"

  /** No position before 44 starts with "_n". */
  lemma AliceSourceBefore()
    ensures forall j :: 0 <= j < 44 ==> AliceSource[j] != '_' || AliceSource[j + 1] != 'n'
  {
    assert |AliceHead| == 29 && |AliceMiddle| == 14;
    assert '_' !in AliceHead && '_' !in AliceMiddle && AliceMiddle[0] == 'i';
    forall j | 0 <= j < 44 ensures AliceSource[j] != '_' || AliceSource[j + 1] != 'n' {
      if j < 29 {
        assert AliceSource[j] == AliceHead[j];
      } else if j == 29 {
        assert AliceSource[30] == AliceMiddle[0];
      } else {
        assert AliceSource[j] == AliceMiddle[j - 30];
      }
    }
  }

  /** The X host's rewrite on a real-shaped URL: "profile_images" holds an
      underscore, but only "_normal" is replaced. */
  lemma AliceUpgrade()
    ensures ProfilePic.Upgrade(AliceSource) == AliceUpgraded
  {
    var before := AliceHead + "_" + AliceMiddle;
    assert |before| == 44;
    assert AliceSource[..44] == before && AliceSource[44..51] == ProfilePic.LowResolution && AliceSource[51..] == ".jpg";
    AliceSourceBefore();
    Text.FirstOccurrenceByLeadingPair(AliceSource, ProfilePic.LowResolution, 44);
    assert AliceSource[..44] + ProfilePic.HighResolution + AliceSource[51..] == AliceUpgraded;
  }

  /** The worked example: "@alice", 12000 transactions, no token, a profile page
      whose picture is ".../alice_normal.jpg": the artwork embeds
      ".../alice_400x400.jpg", the metadata is named for "@alice", and the
      voucher for one token to the wallet is returned with its signature. */
  lemma AliceScenario<P>(env: GenerateSignature.Env<P>, fetchX: string -> Attempt<ProfilePic.Page>,
                         imageUri: string, metadataUri: string, payload: P, signature: string)
    requires ServedByResolver(env, fetchX)
    requires env.transactionCount("0xABC") == Returned(12000)
    requires env.balanceOf("0xABC") == Returned(0)
    requires fetchX(ProfilePic.ProfileBase + "alice") ==
             Returned(ProfilePic.Page(true, Returned(["/logo.svg", AliceSource])))
    requires env.upload(GenerateSignature.SvgFile(GenerateSignature.GenerateSvg(AliceUpgraded))) == Returned(imageUri)
    requires env.upload(GenerateSignature.MetadataFile(GenerateSignature.Metadata(
               "Monad Soulbound NFT for @alice", GenerateSignature.Description, imageUri))) == Returned(metadataUri)
    requires env.createMintPayload(GenerateSignature.MintRequest(metadataUri, "0xABC", 1)) == Returned(payload)
    requires env.sign(payload) == Returned(signature)
    ensures GenerateSignature.Get(Some("0xABC"), Some("@alice"), env).response ==
            GenerateSignature.Response(200, GenerateSignature.Voucher(payload, signature))
  {
    AliceResolved(fetchX);
    assert env.fetchProfilePic("@alice") == Returned(GenerateSignature.PicReply(true, Returned(AliceUpgraded)));
    AliceName();
    Text.StripAfterPrepend("alice");
    GenerateSignature.VoucherIssued(Some("0xABC"), Some("@alice"), env,
      AliceUpgraded, imageUri, metadataUri, payload, signature);
  }

  /** The metadata name the worked example expects. */
  lemma AliceName()
    ensures GenerateSignature.NamePrefix + "alice" == "Monad Soulbound NFT for @alice"
  {
  }

  /** The profile route's answer for "@alice" in the worked example: the
      second image is the first that matches, and it comes back upgraded. */
  lemma AliceResolved(fetchX: string -> Attempt<ProfilePic.Page>)
    requires fetchX(ProfilePic.ProfileBase + "alice") ==
             Returned(ProfilePic.Page(true, Returned(["/logo.svg", AliceSource])))
    ensures ProfilePic.Get(Some("@alice"), fetchX).response ==
            ProfilePic.Response(200, ProfilePic.Url(AliceUpgraded))
  {
    var srcs := ["/logo.svg", AliceSource];
    Text.StripAfterPrepend("alice");
    Text.NotContainedByFirstChar(srcs[0], ProfilePic.ProfileImagesMarker);
    assert AliceSource[22..36] == ProfilePic.ProfileImagesMarker by {
      assert forall k :: 0 <= k < 14 ==> AliceSource[22..36][k] == AliceSource[22 + k];
    }
    assert Text.OccursAt(AliceSource, ProfilePic.ProfileImagesMarker, 22);
    assert ProfilePic.FirstProfileImageAt(srcs, 1);
    ProfilePic.FirstMatchUpgraded(Some("@alice"), fetchX, srcs, 1);
    AliceUpgrade();
  }
}
