/** `CpasBanModel`: one past ban, built from the JSON keys "date", "duration",
    "length" and "reason". */
module CpasBan {
  import opened Wrappers
  import opened Java

  /** The ban date is a 64-bit UNIX time in seconds; the remaining and total
      minutes are 32-bit. None of them is range-checked. */
  datatype CpasBanModel = CpasBanModel(banDateSeconds: Int64, duration: Int32, length: Int32, reason: string)

  /** The constructor: only a null reason is refused. */
  function Create(date: Int64, duration: Int32, length: Int32, reason: Option<string>)
    : (r: Result<CpasBanModel, JavaException>)
    ensures r.Success? <==> reason.Some?
    ensures r.Failure? ==> r.error == NullArgument("reason")
    ensures r.Success? ==>
      && r.value.banDateSeconds == date && r.value.duration == duration
      && r.value.length == length && r.value.reason == reason.value
  {
    var why :- reason.ToResult(NullArgument("reason"));
    Success(CpasBanModel(date, duration, length, why))
  }

  /** A ban as the parser hands it to the constructor. */
  datatype RawBan = RawBan(date: Int64, duration: Int32, length: Int32, reason: Option<string>)

  function CreateFromRaw(raw: RawBan): (r: Result<CpasBanModel, JavaException>) {
    Create(raw.date, raw.duration, raw.length, raw.reason)
  }

  /** Every ban value is what the constructor builds from its own fields. */
  lemma CreateFromFields(b: CpasBanModel)
    ensures Create(b.banDateSeconds, b.duration, b.length, Some(b.reason)) == Success(b)
  {
  }
}
