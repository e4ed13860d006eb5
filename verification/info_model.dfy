/** `InfoModel`: the response of the info call, built from the JSON keys
    "gameid", "userid", "name", "primaryGroup", "primaryRank", "groups",
    "division", "divisionName", "dsInfo", "verification" and
    "verificationExpired". */
module Info {
  import opened Wrappers
  import opened Java
  import CpasGroup
  import DedicatedSupporter

  /** A parsed `java.util.UUID`: its two 64-bit halves. */
  datatype Uuid = Uuid(mostSigBits: Int64, leastSigBits: Int64)

  /** A null entry of the group list is a `None`: the list is stored as given. */
  datatype InfoModel = InfoModel(
    gameId: Uuid,
    userId: Int32,
    forumName: string,
    primaryGroup: CpasGroup.CpasGroupModel,
    groups: seq<Option<CpasGroup.CpasGroupModel>>,
    division: string,
    divisionName: string,
    dsInfo: DedicatedSupporter.DedicatedSupporterInfoModel,
    verification: bool,
    verificationExpired: bool)

  /** The constructor's arguments, in declaration order; a null is `None`. */
  datatype Args = Args(
    gameId: Option<string>,
    userId: Int32,
    forumName: Option<string>,
    primaryGroup: Option<string>,
    primaryRank: Int32,
    groups: Option<seq<Option<CpasGroup.CpasGroupModel>>>,
    division: Option<string>,
    divisionName: Option<string>,
    dsInfo: Option<DedicatedSupporter.DedicatedSupporterInfoModel>,
    verification: bool,
    verificationExpired: bool)

  /** All arguments the constructor requires to be non-null, and a game ID that parses. */
  predicate Acceptable(a: Args, parseUuid: string -> Result<Uuid, JavaException>) {
    && a.gameId.Some? && parseUuid(a.gameId.value).Success?
    && a.forumName.Some? && a.primaryGroup.Some? && a.groups.Some?
    && a.division.Some? && a.divisionName.Some? && a.dsInfo.Some?
  }

  /** Whether each reference after the game ID is non-null, in the order the
      constructor checks them. */
  function Present(a: Args): (p: seq<bool>)
    ensures |p| == |RequiredNames|
  {
    [a.forumName.Some?, a.primaryGroup.Some?, a.groups.Some?,
     a.division.Some?, a.divisionName.Some?, a.dsInfo.Some?]
  }

  /** The names the constructor reports those references with when null. */
  const RequiredNames: seq<string> := ["forumName", "primaryGroup", "groups", "division", "divisionName", "dsInfo"]

  /** The position of the first null reference after the game ID, or 6 when there is none. */
  function FirstMissing(a: Args): (n: nat)
    ensures n <= |RequiredNames|
    ensures forall i :: 0 <= i < n ==> Present(a)[i]
    ensures n < |RequiredNames| ==> !Present(a)[n]
  {
    if a.forumName.None? then 0
    else if a.primaryGroup.None? then 1
    else if a.groups.None? then 2
    else if a.division.None? then 3
    else if a.divisionName.None? then 4
    else if a.dsInfo.None? then 5
    else 6
  }

  /** The constructor, checking in field order. `parseUuid` is `UUID.fromString`:
      the parsed value, or the exception it throws for a malformed string. */
  function Create(a: Args, parseUuid: string -> Result<Uuid, JavaException>): (r: Result<InfoModel, JavaException>)
    ensures r.Success? <==> Acceptable(a, parseUuid)
    ensures a.gameId.None? ==> r == Failure(NullArgument("gameId"))
    ensures a.gameId.Some? && parseUuid(a.gameId.value).Failure? ==> r == Failure(parseUuid(a.gameId.value).error)
    ensures a.gameId.Some? && parseUuid(a.gameId.value).Success? && FirstMissing(a) < |RequiredNames| ==>
      r == Failure(NullArgument(RequiredNames[FirstMissing(a)]))
    ensures r.Success? ==>
      && r.value.gameId == parseUuid(a.gameId.value).value
      && r.value.userId == a.userId
      && r.value.forumName == a.forumName.value
      && CpasGroup.Create(a.primaryGroup, a.primaryRank) == Success(r.value.primaryGroup)
      && r.value.groups == a.groups.value
      && r.value.division == a.division.value
      && r.value.divisionName == a.divisionName.value
      && r.value.dsInfo == a.dsInfo.value
      && r.value.verification == a.verification
      && r.value.verificationExpired == a.verificationExpired
  {
    var text :- a.gameId.ToResult(NullArgument("gameId"));
    var uuid :- parseUuid(text);
    var name :- a.forumName.ToResult(NullArgument("forumName"));
    var groupName :- a.primaryGroup.ToResult(NullArgument("primaryGroup"));
    var primary := CpasGroup.Create(Some(groupName), a.primaryRank).value;
    var groups :- a.groups.ToResult(NullArgument("groups"));
    var division :- a.division.ToResult(NullArgument("division"));
    var divisionName :- a.divisionName.ToResult(NullArgument("divisionName"));
    var ds :- a.dsInfo.ToResult(NullArgument("dsInfo"));
    Success(InfoModel(uuid, a.userId, name, primary, groups, division, divisionName, ds,
                      a.verification, a.verificationExpired))
  }

  /** The group list is stored as given and the primary group is built on its
      own, so a group equal to it in name and rank is among the stored groups
      exactly when the caller listed one: the list may be empty or may omit it.
      (`CpasGroupModel` does not override `equals`, so in Java the freshly built
      primary group is never identical to a listed one.) */
  lemma PrimaryGroupNeedNotBeListed(a: Args, parseUuid: string -> Result<Uuid, JavaException>)
    requires Acceptable(a, parseUuid)
    ensures Create(a, parseUuid).Success?
    ensures
      var m := Create(a, parseUuid).value;
      Some(m.primaryGroup) in m.groups <==> Some(CpasGroup.CpasGroupModel(a.primaryRank, a.primaryGroup.value)) in a.groups.value
  {
  }

  /** The arguments that rebuild a value, given the text its game ID was parsed from. */
  function ArgsOf(m: InfoModel, gameIdText: string): (a: Args) {
    Args(Some(gameIdText), m.userId, Some(m.forumName), Some(m.primaryGroup.name), m.primaryGroup.rank,
         Some(m.groups), Some(m.division), Some(m.divisionName), Some(m.dsInfo),
         m.verification, m.verificationExpired)
  }

  /** Every value is what the constructor builds from its own fields. */
  lemma CreateFromFields(m: InfoModel, gameIdText: string, parseUuid: string -> Result<Uuid, JavaException>)
    requires parseUuid(gameIdText) == Success(m.gameId)
    ensures Create(ArgsOf(m, gameIdText), parseUuid) == Success(m)
  {
  }
}
