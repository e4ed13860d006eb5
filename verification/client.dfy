/** The connection configuration of the `Cpas` singleton and the two
    operations on it: `configure`, and the snapshot `makeApiCall` takes when a
    call is submitted. The lock around both is left implicit: operations are
    applied one after another, which is what the lock guarantees. */
module Client {
  import opened Wrappers
  import opened Java
  import opened Text
  import CallPaths

  /** The four fields; each is null (`None`) until the first `configure`. */
  datatype Config = Config(apiUrl: Option<string>, apiKey: Option<string>,
                           serverIp: Option<string>, serverPort: Option<string>)

  const Unconfigured := Config(None, None, None, None)

  /** The fields in the order `configure` assigns them. */
  function Fields(c: Config): (fs: seq<Option<string>>)
    ensures |fs| == 4
  {
    [c.apiUrl, c.apiKey, c.serverIp, c.serverPort]
  }

  /** The parameter names `configure` reports a null argument with. */
  const ParameterNames: seq<string> := ["apiUrl", "apiKey", "serverIp", "serverPort"]

  /** The position of the first null argument of `configure`, 4 when there is none. */
  function FirstNull(url: Option<string>, key: Option<string>, ip: Option<string>, port: Option<string>): (n: nat) {
    if url.None? then 0
    else if key.None? then 1
    else if ip.None? then 2
    else if port.None? then 3
    else 4
  }

  datatype ConfigureOutcome = ConfigureOutcome(config: Config, error: Option<JavaException>)

  /** `configure(apiUrl, apiKey, serverIp, serverPort)`: each argument is
      checked and then assigned, in parameter order. A null argument throws
      and stops there, leaving the fields assigned before it updated. */
  function Configure(c: Config, url: Option<string>, key: Option<string>,
                     ip: Option<string>, port: Option<string>): (r: ConfigureOutcome)
    ensures
      var args, n := [url, key, ip, port], FirstNull(url, key, ip, port);
      && (forall k :: 0 <= k < 4 ==> Fields(r.config)[k] == if k < n then args[k] else Fields(c)[k])
      && (r.error.None? <==> n == 4)
      && (n < 4 ==> r.error == Some(NullArgument(ParameterNames[n])))
  {
    if url.None? then ConfigureOutcome(c, Some(NullArgument("apiUrl")))
    else
      var c1 := c.(apiUrl := url);
      if key.None? then ConfigureOutcome(c1, Some(NullArgument("apiKey")))
      else
        var c2 := c1.(apiKey := key);
        if ip.None? then ConfigureOutcome(c2, Some(NullArgument("serverIp")))
        else
          var c3 := c2.(serverIp := ip);
          if port.None? then ConfigureOutcome(c3, Some(NullArgument("serverPort")))
          else ConfigureOutcome(c3.(serverPort := port), None)
  }

  /** With no null argument, all four fields are replaced and nothing fails;
      when a later argument is null, the earlier ones stay assigned. */
  lemma ConfigureAllOrPrefix(c: Config, url: string, key: string, ip: string, port: Option<string>)
    ensures port.Some? ==>
      Configure(c, Some(url), Some(key), Some(ip), port) == ConfigureOutcome(Config(Some(url), Some(key), Some(ip), port), None)
    ensures port.None? ==>
      && Configure(c, Some(url), Some(key), Some(ip), port).config == c.(apiUrl := Some(url), apiKey := Some(key), serverIp := Some(ip))
      && Configure(c, Some(url), Some(key), Some(ip), port).error == Some(NullArgument("serverPort"))
  {
  }

  /** The work unit `makeApiCall` hands to the pool: the four fields as they
      were at submission, and the call path. */
  datatype Request = Request(config: Config, apiInfo: string)

  /** `makeApiCall(apiInfo, callback)`: a null callback throws before anything is
      captured; otherwise the request carries the current fields. */
  function Submit(c: Config, apiInfo: string, hasCallback: bool): (r: Result<Request, JavaException>)
    ensures r.Success? <==> hasCallback
    ensures r.Failure? ==> r.error == NullArgument("callback")
    ensures r.Success? ==> Fields(r.value.config) == Fields(c) && r.value.apiInfo == apiInfo
  {
    if !hasCallback then Failure(NullArgument("callback"))
    else Success(Request(c, apiInfo))
  }

  /** `StringJoiner.add` of a null string appends the text "null". */
  function Show(field: Option<string>): (s: string)
    ensures field.None? ==> s == "null"
    ensures field.Some? ==> s == field.value
  {
    if field.Some? then field.value else "null"
  }

  /** The URL `GetFromNetwork` fetches: `apiUrl/apiKey/serverIp/serverPort/apiInfo`. */
  function Url(req: Request): (u: string)
    ensures
      Split(u, '/') == Split(Show(req.config.apiUrl), '/') + Split(Show(req.config.apiKey), '/')
                     + Split(Show(req.config.serverIp), '/') + Split(Show(req.config.serverPort), '/')
                     + Split(req.apiInfo, '/')
  {
    var parts := [Show(req.config.apiUrl), Show(req.config.apiKey), Show(req.config.serverIp),
                  Show(req.config.serverPort), req.apiInfo];
    SplitJoinFive(parts[0], parts[1], parts[2], parts[3], parts[4], '/');
    assert parts == [parts[0], parts[1], parts[2], parts[3], parts[4]];
    Join(parts, '/')
  }

  /** Before the first `configure` every field is null, and the URL starts with
      four `null` segments. */
  lemma UnconfiguredUrl(apiInfo: string)
    ensures Split(Url(Request(Unconfigured, apiInfo)), '/') == ["null", "null", "null", "null"] + Split(apiInfo, '/')
  {
    SplitFree("null", '/');
  }

  // ---- the public calls, as a sequence of actions on one client ----

  /** One public call with its arguments, as `CallPaths` takes them. */
  datatype Call =
    | GetInfo(gameId: Option<CallPaths.Bytes>, ip: Option<string>, verbose: bool)
    | BanUser(banGameId: Option<CallPaths.Bytes>, handle: Option<CallPaths.Bytes>, bannerId: Option<CallPaths.Bytes>,
              adminList: Option<seq<Option<CallPaths.Bytes>>>, time: Int32, reason: Option<CallPaths.Bytes>)
    | GetBanInfo(infoGameId: Option<CallPaths.Bytes>)
    | GetBanHistory(historyGameId: Option<CallPaths.Bytes>, count: Int32)

  function PathOf(call: Call): (r: Result<string, JavaException>) {
    match call
    case GetInfo(g, ip, v) => CallPaths.InfoPath(g, ip, v)
    case BanUser(g, h, b, a, t, r) => CallPaths.BanPath(g, h, b, a, t, r)
    case GetBanInfo(g) => CallPaths.BanInfoPath(g)
    case GetBanHistory(g, n) => CallPaths.BanHistoryPath(g, n)
  }

  /** A public call builds its path first and only then submits it. */
  function Invoke(c: Config, call: Call, hasCallback: bool): (r: Result<Request, JavaException>)
    ensures r.Success? <==> PathOf(call).Success? && hasCallback
    ensures r.Success? ==> r.value == Request(c, PathOf(call).value)
    ensures PathOf(call).Failure? ==> r == Failure(PathOf(call).error)
  {
    var path :- PathOf(call);
    Submit(c, path, hasCallback)
  }

  datatype Action =
    | Reconfigure(url: Option<string>, key: Option<string>, ip: Option<string>, port: Option<string>)
    | Perform(call: Call, hasCallback: bool)

  /** What the caller sees of one action: the exception `configure` threw, or
      the request handed to the pool (or the exception that prevented it). */
  datatype Effect =
    | Configured(error: Option<JavaException>)
    | Submitted(request: Result<Request, JavaException>)

  function Step(c: Config, a: Action): (r: (Config, Effect)) {
    match a
    case Reconfigure(u, k, i, p) =>
      var o := Configure(c, u, k, i, p);
      (o.config, Configured(o.error))
    case Perform(call, cb) => (c, Submitted(Invoke(c, call, cb)))
  }

  /** Actions applied in order: the final configuration and one effect per action. */
  function Run(c: Config, actions: seq<Action>): (r: (Config, seq<Effect>))
    ensures |r.1| == |actions|
    decreases |actions|
  {
    if |actions| == 0 then (c, [])
    else
      var (c1, e) := Step(c, actions[0]);
      var (c2, es) := Run(c1, actions[1..]);
      (c2, [e] + es)
  }

  /** Running two stretches of actions one after the other is running them
      together: later actions leave the effects of earlier ones as they were. */
  lemma {:induction false} RunAppend(c: Config, a: seq<Action>, b: seq<Action>)
    ensures Run(c, a + b).1 == Run(c, a).1 + Run(Run(c, a).0, b).1
    ensures Run(c, a + b).0 == Run(Run(c, a).0, b).0
    decreases |a|
  {
    if |a| > 0 {
      assert (a + b)[0] == a[0] && (a + b)[1..] == a[1..] + b;
      RunAppend(Step(c, a[0]).0, a[1..], b);
    } else {
      assert a + b == b;
    }
  }

  /** Each effect answers its own action: a configure reports its exception, a
      call its request. */
  lemma {:induction false} EffectPerAction(c: Config, actions: seq<Action>)
    ensures forall i :: 0 <= i < |actions| ==> (Run(c, actions).1[i].Configured? <==> actions[i].Reconfigure?)
    decreases |actions|
  {
    if |actions| > 0 {
      EffectPerAction(Step(c, actions[0]).0, actions[1..]);
      forall i | 1 <= i < |actions|
        ensures Run(c, actions).1[i].Configured? <==> actions[i].Reconfigure?
      {
        assert actions[1..][i - 1] == actions[i];
      }
    }
  }

  /** A call captures the configuration current when it is submitted: the
      request of action `i` carries the fields left by the actions before it,
      whatever comes after. */
  lemma SnapshotAtSubmission(c: Config, actions: seq<Action>, i: nat)
    requires i < |actions| && actions[i].Perform?
    ensures Run(c, actions).1[i] == Submitted(Invoke(Run(c, actions[..i]).0, actions[i].call, actions[i].hasCallback))
  {
    assert actions == actions[..i] + actions[i..];
    RunAppend(c, actions[..i], actions[i..]);
  }

  /** A `configure` with a null argument leaves a mix of new and old fields,
      and the next call captures that mix. */
  lemma PartialConfigureIsCaptured(before: Config, url: string, call: Call)
    requires PathOf(call).Success?
    ensures
      var actions := [Reconfigure(Some(url), None, Some("ip"), Some("port")), Perform(call, true)];
      var effects := Run(before, actions).1;
      && effects[0] == Configured(Some(NullArgument("apiKey")))
      && effects[1] == Submitted(Success(Request(before.(apiUrl := Some(url)), PathOf(call).value)))
  {
    var actions := [Reconfigure(Some(url), None, Some("ip"), Some("port")), Perform(call, true)];
    assert actions[1..] == [Perform(call, true)];
  }
}
