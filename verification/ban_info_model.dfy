/** `BanInfoModel`: a player's most recent ban, built from the JSON keys
    "duration" and "reason". */
module BanInfo {
  import opened Wrappers
  import opened Java

  /** The minutes left of the ban (0: not banned, -1: permanent) and its reason. */
  datatype BanInfoModel = BanInfoModel(duration: Int32, reason: string)

  /** The constructor: only a null reason is refused; the duration is kept as given. */
  function Create(duration: Int32, reason: Option<string>): (r: Result<BanInfoModel, JavaException>)
    ensures r.Success? <==> reason.Some?
    ensures r.Failure? ==> r.error == NullArgument("reason")
    ensures r.Success? ==> r.value.duration == duration && r.value.reason == reason.value
  {
    var why :- reason.ToResult(NullArgument("reason"));
    Success(BanInfoModel(duration, why))
  }

  /** What the duration documents about the player. Other negative values are
      not given a meaning by the library. */
  datatype BanState = NotBanned | Permanent | MinutesLeft(minutes: nat) | Undocumented(value: int)

  function State(m: BanInfoModel): (s: BanState)
    ensures s == NotBanned <==> m.duration == 0
    ensures s == Permanent <==> m.duration == -1
    ensures s.MinutesLeft? <==> m.duration > 0
    ensures s.MinutesLeft? ==> s.minutes == m.duration
    ensures s.Undocumented? <==> m.duration < -1
  {
    if m.duration == 0 then NotBanned
    else if m.duration == -1 then Permanent
    else if m.duration > 0 then MinutesLeft(m.duration)
    else Undocumented(m.duration)
  }

  /** Every value is what the constructor builds from its own fields. */
  lemma CreateFromFields(m: BanInfoModel)
    ensures Create(m.duration, Some(m.reason)) == Success(m)
  {
  }
}
