/** `BanHistoryModel`: the list of a player's past bans, from the JSON key "bans". */
module BanHistory {
  import opened Wrappers
  import opened Java
  import Collect
  import CpasBan

  /** An empty list means the player was never banned. A `List` keeps null
      entries, so an entry is `None` where the JSON array holds `null`. */
  datatype BanHistoryModel = BanHistoryModel(bans: seq<Option<CpasBan.CpasBanModel>>)

  /** The constructor: a null list is refused, any list is kept as given. */
  function Create(bans: Option<seq<Option<CpasBan.CpasBanModel>>>): (r: Result<BanHistoryModel, JavaException>)
    ensures r.Success? <==> bans.Some?
    ensures r.Failure? ==> r.error == NullArgument("bans")
    ensures r.Success? ==> r.value.bans == bans.value
  {
    var list :- bans.ToResult(NullArgument("bans"));
    Success(BanHistoryModel(list))
  }

  /** One entry of the JSON array: `null` stays null, and an object goes
      through the ban constructor. */
  function DecodeEntry(entry: Option<CpasBan.RawBan>): (r: Result<Option<CpasBan.CpasBanModel>, JavaException>) {
    match entry
    case None => Success(None)
    case Some(raw) =>
      var ban :- CpasBan.CreateFromRaw(raw);
      Success(Some(ban))
  }

  /** A whole history as the parser builds it: every listed ban is constructed
      first, in order, then the history itself. A single ban without a reason
      makes the whole history fail; a `null` entry is kept as a null. */
  function Decode(bans: Option<seq<Option<CpasBan.RawBan>>>): (r: Result<BanHistoryModel, JavaException>)
    ensures r.Success? <==>
      bans.Some? && forall i :: 0 <= i < |bans.value| && bans.value[i].Some? ==> bans.value[i].value.reason.Some?
    ensures bans.None? ==> r == Failure(NullArgument("bans"))
    ensures bans.Some? && r.Failure? ==> r.error == NullArgument("reason")
    ensures r.Success? ==>
      && |r.value.bans| == |bans.value|
      && forall i :: 0 <= i < |bans.value| ==>
           r.value.bans[i] ==
             match bans.value[i]
             case None => None
             case Some(raw) => Some(CpasBan.CpasBanModel(raw.date, raw.duration, raw.length, raw.reason.value))
  {
    match bans
    case None => Failure(NullArgument("bans"))
    case Some(entries) =>
      var built :- Collect.Traverse(entries, DecodeEntry);
      Create(Some(built))
  }

  /** An empty list is accepted. */
  lemma NeverBanned()
    ensures Decode(Some([])) == Success(BanHistoryModel([]))
    ensures Create(Some([])) == Success(BanHistoryModel([]))
  {
  }

  /** A `null` entry in the array does not fail the history: it is stored as a null ban. */
  lemma NullEntryIsKept(raws: seq<Option<CpasBan.RawBan>>, i: nat)
    requires i < |raws| && raws[i].None?
    requires Decode(Some(raws)).Success?
    ensures Decode(Some(raws)).value.bans[i].None?
  {
  }
}
