/** The call paths of the four public API calls (`getInfo`, `banUser`,
    `getBanInfo`, `getBanHistory` and their overloads): fixed segments joined by
    '/', free text passed through `base64EncodeSafe`, integers in decimal.

    A Java string argument that goes through the sanitiser is given as
    `Option<Bytes>`: `None` is `null`, `Some(b)` is the string's bytes in the
    platform charset. Sanitising `null` throws a `NullPointerException`, so every
    builder returns a `Result`. */
module CallPaths {
  import opened Wrappers
  import opened Java
  import opened Text
  import Collect
  import Base64
  import Decimal

  type Bytes = seq<Base64.Byte>

  /** `base64EncodeSafe(s)` for a string that may be null. */
  function Sanitize(arg: Option<Bytes>): (r: Result<string, JavaException>)
    ensures r.Success? <==> arg.Some?
    ensures r.Failure? ==> r.error == NullDereference
  {
    match arg
    case None => Failure(NullDereference)
    case Some(b) => Success(Base64.EncodeSafe(b))
  }

  /** The IP segment of an info call: a null IP is left empty. */
  function IpSegment(ip: Option<string>): (segment: string) {
    if ip.Some? then ip.value else ""
  }

  function VerboseSegment(verbose: bool): (segment: string) {
    if verbose then "verbose" else ""
  }

  /** The reason segment of a ban call: a null reason is left empty, otherwise sanitised. */
  function ReasonSegment(reason: Option<Bytes>): (segment: string) {
    if reason.Some? then Base64.EncodeSafe(reason.value) else ""
  }

  // ---- getInfo ----

  /** `getInfo(gameId, playerIpAddress, verbose, callback)`. The IP is not sanitised. */
  function InfoPath(gameId: Option<Bytes>, ip: Option<string>, verbose: bool): (r: Result<string, JavaException>)
    ensures r.Success? <==> gameId.Some?
    ensures r.Failure? ==> r.error == NullDereference
  {
    var g :- Sanitize(gameId);
    Success(Join(["info", g, IpSegment(ip), VerboseSegment(verbose)], '/'))
  }

  /** `getInfo(gameId, verbose, callback)`: the same path as passing a null IP. */
  function InfoPathNoIp(gameId: Option<Bytes>, verbose: bool): (r: Result<string, JavaException>)
    ensures r == InfoPath(gameId, None, verbose)
  {
    InfoPath(gameId, Some(""), verbose)
  }

  /** An info path is the segments "info", the sanitised game ID, the segments
      of the IP (one, unless the IP itself holds a '/'), and "verbose" or "". */
  lemma InfoPathSegments(gameId: Bytes, ip: Option<string>, verbose: bool)
    ensures InfoPath(Some(gameId), ip, verbose).Success?
    ensures Split(InfoPath(Some(gameId), ip, verbose).value, '/') ==
      ["info", Base64.EncodeSafe(gameId)] + Split(IpSegment(ip), '/') + [VerboseSegment(verbose)]
    ensures '/' !in IpSegment(ip) ==>
      Split(InfoPath(Some(gameId), ip, verbose).value, '/') ==
      ["info", Base64.EncodeSafe(gameId), IpSegment(ip), VerboseSegment(verbose)]
  {
    var g, a, v := Base64.EncodeSafe(gameId), IpSegment(ip), VerboseSegment(verbose);
    assert '/' !in "info" && '/' !in v;
    SplitJoinFour("info", g, a, v, '/');
    if '/' !in a {
      SplitFree(a, '/');
    }
  }

  /** A null IP and an empty IP give the same path. */
  lemma InfoNullIpIsEmptyIp(gameId: Option<Bytes>, verbose: bool)
    ensures InfoPath(gameId, None, verbose) == InfoPath(gameId, Some(""), verbose)
  {
  }

  // ---- banUser ----

  /** The admin list segment: the sanitised admin IDs joined by ',' in list
      order; a null entry throws. */
  function AdminSegment(admins: seq<Option<Bytes>>): (r: Result<string, JavaException>)
    ensures r.Success? <==> forall i :: 0 <= i < |admins| ==> admins[i].Some?
    ensures r.Failure? ==> r.error == NullDereference
  {
    var encoded :- Collect.Traverse(admins, Sanitize);
    Success(Join(encoded, ','))
  }

  /** The loop of `banUser` that fills a `StringJoiner(",")` one admin at a time. */
  method SanitizeAdminList(admins: seq<Option<Bytes>>) returns (r: Result<string, JavaException>)
    ensures r == AdminSegment(admins)
  {
    var joined: seq<string> := [];
    var text := "";
    var i := 0;
    while i < |admins|
      invariant 0 <= i <= |admins|
      invariant LoopState(admins, i, joined, text)
    {
      if admins[i].None? {
        r := Failure(NullDereference);
        return;
      }
      var e := Base64.EncodeSafe(admins[i].value);
      LoopStep(admins, i, joined, text);
      text := if i == 0 then e else text + [','] + e;
      joined := joined + [e];
      i := i + 1;
    }
    AdminSegmentOfEncoded(admins, joined);
    r := Success(text);
  }

  /** After `i` rounds of the admin loop: all admins so far were present, `joined`
      holds their encodings and `text` is what the joiner renders. */
  predicate LoopState(admins: seq<Option<Bytes>>, i: nat, joined: seq<string>, text: string) {
    && i <= |admins|
    && (forall j :: 0 <= j < i ==> admins[j].Some?)
    && |joined| == i
    && (forall j :: 0 <= j < i ==> joined[j] == Base64.EncodeSafe(admins[j].value))
    && text == Join(joined, ',')
  }

  /** One round of the admin loop with a present admin keeps `LoopState`. */
  lemma LoopStep(admins: seq<Option<Bytes>>, i: nat, joined: seq<string>, text: string)
    requires i < |admins| && admins[i].Some? && LoopState(admins, i, joined, text)
    ensures
      var e := Base64.EncodeSafe(admins[i].value);
      LoopState(admins, i + 1, joined + [e], if i == 0 then e else text + [','] + e)
  {
    var e := Base64.EncodeSafe(admins[i].value);
    JoinSnoc(joined, e, ',');
    assert forall j :: 0 <= j < i ==> (joined + [e])[j] == joined[j];
  }

  /** With every admin ID present, the segment is the join of their encodings. */
  lemma AdminSegmentOfEncoded(admins: seq<Option<Bytes>>, encoded: seq<string>)
    requires forall j :: 0 <= j < |admins| ==> admins[j].Some?
    requires |encoded| == |admins|
    requires forall j :: 0 <= j < |admins| ==> encoded[j] == Base64.EncodeSafe(admins[j].value)
    ensures AdminSegment(admins) == Success(Join(encoded, ','))
  {
    var t := Collect.Traverse(admins, Sanitize);
    assert t.Success? && t.value == encoded;
  }

  /** `banUser(gameId, handle, bannerId, adminList, time, reason, callback)`:
      the admin loop runs first, then the three identifiers are sanitised. */
  function BanPath(gameId: Option<Bytes>, handle: Option<Bytes>, bannerId: Option<Bytes>,
                   adminList: Option<seq<Option<Bytes>>>, time: Int32, reason: Option<Bytes>)
    : (r: Result<string, JavaException>)
    ensures r.Success? <==>
      && gameId.Some? && handle.Some? && bannerId.Some? && adminList.Some?
      && forall i :: 0 <= i < |adminList.value| ==> adminList.value[i].Some?
    ensures r.Failure? ==> r.error == NullDereference
  {
    var admins :- if adminList.None? then Failure(NullDereference) else AdminSegment(adminList.value);
    var g :- Sanitize(gameId);
    var h :- Sanitize(handle);
    var b :- Sanitize(bannerId);
    Success(Join(["ban", g, h, b, admins, Decimal.Render(time), ReasonSegment(reason)], '/'))
  }

  /** `banUser(gameId, handle, bannerId, adminList, time, callback)`: reason "",
      which gives the same path as a null reason. */
  function BanPathNoReason(gameId: Option<Bytes>, handle: Option<Bytes>, bannerId: Option<Bytes>,
                           adminList: Option<seq<Option<Bytes>>>, time: Int32)
    : (r: Result<string, JavaException>)
    ensures r == BanPath(gameId, handle, bannerId, adminList, time, None)
  {
    BanPath(gameId, handle, bannerId, adminList, time, Some([]))
  }

  /** `banUser(gameId, handle, bannerId, adminList, callback)`: time 0 and reason "". */
  function BanPathDefaults(gameId: Option<Bytes>, handle: Option<Bytes>, bannerId: Option<Bytes>,
                           adminList: Option<seq<Option<Bytes>>>)
    : (r: Result<string, JavaException>)
    ensures r == BanPath(gameId, handle, bannerId, adminList, 0, None)
  {
    BanPathNoReason(gameId, handle, bannerId, adminList, 0)
  }

  /** Every admin present. */
  function Present(admins: seq<Bytes>): (r: seq<Option<Bytes>>)
    ensures |r| == |admins| && forall i :: 0 <= i < |r| ==> r[i] == Some(admins[i])
  {
    seq(|admins|, i requires 0 <= i < |admins| => Some(admins[i]))
  }

  /** The sanitised admins, in list order. */
  function EncodeAll(admins: seq<Bytes>): (r: seq<string>)
    ensures |r| == |admins| && forall i :: 0 <= i < |r| ==> r[i] == Base64.EncodeSafe(admins[i])
  {
    seq(|admins|, i requires 0 <= i < |admins| => Base64.EncodeSafe(admins[i]))
  }

  /** With every admin present, the admin segment is the sanitised admins
      joined by ','; it holds no '/', splits on ',' back into the sanitised
      admins, and is empty for an empty list. */
  lemma AdminSegmentShape(admins: seq<Bytes>)
    ensures AdminSegment(Present(admins)) == Success(Join(EncodeAll(admins), ','))
    ensures '/' !in Join(EncodeAll(admins), ',')
    ensures |admins| == 0 ==> Join(EncodeAll(admins), ',') == ""
    ensures |admins| > 0 ==> Split(Join(EncodeAll(admins), ','), ',') == EncodeAll(admins)
  {
    var encoded := EncodeAll(admins);
    var t := Collect.Traverse(Present(admins), Sanitize);
    assert t.Success? && t.value == encoded;
    JoinFree(encoded, ',', '/');
    if |admins| > 0 {
      SplitJoinFree(encoded, ',');
    }
  }

  /** A ban path has exactly seven segments: "ban", the three sanitised
      identifiers, the admin segment, the decimal time and the sanitised reason
      or "". */
  lemma BanPathSegments(gameId: Bytes, handle: Bytes, bannerId: Bytes, admins: seq<Bytes>,
                        time: Int32, reason: Option<Bytes>)
    ensures BanPath(Some(gameId), Some(handle), Some(bannerId), Some(Present(admins)), time, reason).Success?
    ensures
      var segs := Split(BanPath(Some(gameId), Some(handle), Some(bannerId), Some(Present(admins)), time, reason).value, '/');
      && |segs| == 7
      && segs[0] == "ban"
      && segs[1] == Base64.EncodeSafe(gameId)
      && segs[2] == Base64.EncodeSafe(handle)
      && segs[3] == Base64.EncodeSafe(bannerId)
      && segs[4] == Join(EncodeAll(admins), ',')
      && Decimal.Parse(segs[5]) == Some(time as int)
      && segs[6] == ReasonSegment(reason)
  {
    var admin := Join(EncodeAll(admins), ',');
    var parts := ["ban", Base64.EncodeSafe(gameId), Base64.EncodeSafe(handle), Base64.EncodeSafe(bannerId),
                  admin, Decimal.Render(time), ReasonSegment(reason)];
    BanPathIsJoin(gameId, handle, bannerId, admins, time, reason);
    assert '/' !in admin by { AdminSegmentShape(admins); }
    assert '/' !in ReasonSegment(reason);
    SplitJoinSeven(parts, '/');
    Decimal.RenderRoundTrip(time);
  }

  /** With every identifier present, the ban path is the join of its seven segments. */
  lemma BanPathIsJoin(gameId: Bytes, handle: Bytes, bannerId: Bytes, admins: seq<Bytes>,
                      time: Int32, reason: Option<Bytes>)
    ensures BanPath(Some(gameId), Some(handle), Some(bannerId), Some(Present(admins)), time, reason)
      == Success(Join(["ban", Base64.EncodeSafe(gameId), Base64.EncodeSafe(handle), Base64.EncodeSafe(bannerId),
                       Join(EncodeAll(admins), ','), Decimal.Render(time), ReasonSegment(reason)], '/'))
  {
    AdminSegmentShape(admins);
  }

  /** A null reason and an empty reason give the same path. */
  lemma BanNullReasonIsEmptyReason(gameId: Option<Bytes>, handle: Option<Bytes>, bannerId: Option<Bytes>,
                                   adminList: Option<seq<Option<Bytes>>>, time: Int32)
    ensures BanPath(gameId, handle, bannerId, adminList, time, None)
         == BanPath(gameId, handle, bannerId, adminList, time, Some([]))
  {
  }

  // ---- getBanInfo and getBanHistory ----

  /** `getBanInfo(gameId, callback)`. */
  function BanInfoPath(gameId: Option<Bytes>): (r: Result<string, JavaException>)
    ensures r.Success? <==> gameId.Some?
    ensures r.Failure? ==> r.error == NullDereference
    ensures r.Success? ==> Split(r.value, '/') == ["banInfo", Base64.EncodeSafe(gameId.value)]
  {
    var g :- Sanitize(gameId);
    assert "banInfo/" + g == "banInfo" + ['/'] + g;
    assert '/' !in "banInfo";
    SplitPair("banInfo", g, '/');
    Success("banInfo/" + g)
  }

  /** `getBanHistory(gameId, count, callback)`: the count is rendered as given,
      with no clamping of zero or negative values. */
  function BanHistoryPath(gameId: Option<Bytes>, count: Int32): (r: Result<string, JavaException>)
    ensures r.Success? <==> gameId.Some?
    ensures r.Failure? ==> r.error == NullDereference
    ensures r.Success? ==>
      var segs := Split(r.value, '/');
      && |segs| == 3
      && segs[0] == "banHistory"
      && segs[1] == Base64.EncodeSafe(gameId.value)
      && segs[2] == Decimal.Render(count)
      && Decimal.Parse(segs[2]) == Some(count as int)
  {
    var g :- Sanitize(gameId);
    var n := Decimal.Render(count);
    HistorySegments(g, n);
    Decimal.RenderRoundTrip(count);
    Success("banHistory/" + g + "/" + n)
  }

  lemma HistorySegments(g: string, n: string)
    requires '/' !in g && '/' !in n
    ensures Split("banHistory/" + g + "/" + n, '/') == ["banHistory", g, n]
  {
    assert "banHistory/" + g + "/" + n == "banHistory" + ['/'] + (g + ['/'] + n);
    assert '/' !in "banHistory";
    SplitAppend("banHistory", g + ['/'] + n, '/');
    SplitFree("banHistory", '/');
    SplitPair(g, n, '/');
  }
}
