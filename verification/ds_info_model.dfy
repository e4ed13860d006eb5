/** `DedicatedSupporterInfoModel`: a user's Dedicated Supporter status and
    display settings, built from the JSON keys "ds", "chatTag", "chatAds",
    "motdAds", "spotlight", "nameColor" and "joinMessage". */
module DedicatedSupporter {
  import opened Wrappers
  import opened Java

  datatype DedicatedSupporterInfoModel = DedicatedSupporterInfoModel(
    isDedicatedSupporter: bool,
    displayChatTag: bool,
    displayChatAds: bool,
    displayMotdAds: bool,
    displayInSpotlight: bool,
    nameColor: string,
    joinMessage: string)

  /** The constructor's arguments, in declaration order; a null string is `None`. */
  datatype Args = Args(
    ds: bool, chatTag: bool, chatAds: bool, motdAds: bool, spotlight: bool,
    nameColor: Option<string>, joinMessage: Option<string>)

  /** The constructor: the flags are copied, `nameColor` is checked before
      `joinMessage`, and an empty join message is accepted. */
  function Create(a: Args): (r: Result<DedicatedSupporterInfoModel, JavaException>)
    ensures r.Success? <==> a.nameColor.Some? && a.joinMessage.Some?
    ensures a.nameColor.None? ==> r == Failure(NullArgument("nameColor"))
    ensures a.nameColor.Some? && a.joinMessage.None? ==> r == Failure(NullArgument("joinMessage"))
    ensures r.Success? ==>
      && r.value.isDedicatedSupporter == a.ds
      && r.value.displayChatTag == a.chatTag
      && r.value.displayChatAds == a.chatAds
      && r.value.displayMotdAds == a.motdAds
      && r.value.displayInSpotlight == a.spotlight
      && r.value.nameColor == a.nameColor.value
      && r.value.joinMessage == a.joinMessage.value
  {
    var color :- a.nameColor.ToResult(NullArgument("nameColor"));
    var message :- a.joinMessage.ToResult(NullArgument("joinMessage"));
    Success(DedicatedSupporterInfoModel(a.ds, a.chatTag, a.chatAds, a.motdAds, a.spotlight, color, message))
  }

  /** An empty join message means "no message". */
  predicate HasJoinMessage(m: DedicatedSupporterInfoModel) {
    m.joinMessage != ""
  }

  /** The arguments that rebuild a given value. */
  function ArgsOf(m: DedicatedSupporterInfoModel): (a: Args) {
    Args(m.isDedicatedSupporter, m.displayChatTag, m.displayChatAds, m.displayMotdAds,
         m.displayInSpotlight, Some(m.nameColor), Some(m.joinMessage))
  }

  /** Every value is what the constructor builds from its own fields. */
  lemma CreateFromFields(m: DedicatedSupporterInfoModel)
    ensures Create(ArgsOf(m)) == Success(m)
  {
  }

  /** An empty join message is accepted, whatever the other arguments, and
      gives a value without a join message. */
  lemma EmptyJoinMessageAccepted(a: Args)
    requires a.nameColor.Some? && a.joinMessage == Some("")
    ensures Create(a).Success?
    ensures !HasJoinMessage(Create(a).value)
  {
  }
}
