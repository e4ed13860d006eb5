/** What `GetFromNetwork.run` does with one submitted request: fetch the URL,
    wait at most five seconds for the body, parse it, and report to the
    callback. The network, the JSON parser and the callback are parameters; the
    threads and the timeout clock are not modelled, only their outcomes. */
module Dispatch {
  import opened Wrappers
  import opened Java
  import Client

  /** How the inner fetch task ended, as seen by `future.get(5, SECONDS)`. */
  datatype Transfer =
    | Received(body: string)                 // the stream was read to the end
    | IoFailure(cause: JavaException)        // an IOException, caught inside the task
    | Crashed(cause: JavaException)          // anything else thrown inside the task
    | TimedOut                               // no result within five seconds
    | Interrupted                            // the waiting thread was interrupted

  const TimeoutClass: ClassName := "java.util.concurrent.TimeoutException"
  const ExecutionClass: ClassName := "java.util.concurrent.ExecutionException"
  const InterruptedClass: ClassName := "java.lang.InterruptedException"

  /** The raw response handed to the parser, or the exception `future.get` threw.
      An I/O failure is not an exception here: its text becomes the body. Whatever
      the task itself threw, `Error`s included, reaches `run` wrapped in an
      `ExecutionException`. */
  function RawResponse(t: Transfer): (r: Result<string, JavaException>)
    ensures t.Received? ==> r == Success(t.body)
    ensures t.IoFailure? ==> r == Success(ToString(t.cause))
    ensures r.Failure? <==> t.Crashed? || t.TimedOut? || t.Interrupted?
    ensures r.Failure? ==> !r.error.isError
    ensures t.Crashed? ==> r == Failure(JavaException(ExecutionClass, Some(ToString(t.cause)), false))
    ensures t.TimedOut? ==> r == Failure(JavaException(TimeoutClass, None, false))
    ensures t.Interrupted? ==> r == Failure(JavaException(InterruptedClass, None, false))
  {
    match t
    case Received(body) => Success(body)
    case IoFailure(e) => Success(ToString(e))
    case Crashed(e) => Failure(JavaException(ExecutionClass, Some(ToString(e)), false))
    case TimedOut => Failure(JavaException(TimeoutClass, None, false))
    case Interrupted => Failure(JavaException(InterruptedClass, None, false))
  }

  /** The raw response of the request's URL. */
  function Raw(req: Client.Request, fetch: string -> Transfer): (r: Result<string, JavaException>) {
    RawResponse(fetch(Client.Url(req)))
  }

  /** One invocation of `callback.process(response, errorMessage)`. */
  datatype Delivery<M> = Delivery(response: Option<M>, errorMessage: Option<string>)

  /** The callback's documented promise: exactly one of the two arguments is
      non-null, and an error message is never empty. */
  predicate WellFormed<M>(d: Delivery<M>) {
    (d.response.Some? <==> d.errorMessage.None?) && (d.errorMessage.Some? ==> |d.errorMessage.value| > 0)
  }

  /** Every callback invocation of one run, in order, and the throwable that
      escaped `run` itself, if any (it ends up in the pool's future). */
  datatype Trace<M> = Trace(deliveries: seq<Delivery<M>>, escaped: Option<JavaException>)

  /** The invocation made from the `catch` block for the exception `e`. */
  function Failed<M>(e: JavaException): (d: Delivery<M>)
    ensures WellFormed(d)
    ensures d.response.None? && d.errorMessage == Some(ToString(e))
  {
    Delivery(None, Some(ToString(e)))
  }

  /** The raw response exists and `readValue` returned (possibly null) without throwing. */
  predicate Parses<M>(req: Client.Request, fetch: string -> Transfer, parse: string -> Result<Option<M>, JavaException>) {
    Raw(req, fetch).Success? && parse(Raw(req, fetch).value).Success?
  }

  /** `readValue` threw a `java.lang.Error`, which `catch (Exception e)` lets through. */
  predicate ParserThrowsError<M>(req: Client.Request, fetch: string -> Transfer,
                                 parse: string -> Result<Option<M>, JavaException>) {
    Raw(req, fetch).Success? && parse(Raw(req, fetch).value).Failure? && parse(Raw(req, fetch).value).error.isError
  }

  /** The first callback invocation of a run: the parsed model, which is null
      when the body is the JSON document `null`, or the text of the exception
      that `future.get` or the parser threw. (When the parser throws an `Error`
      this invocation does not happen; see `Execute`.) */
  function FirstDelivery<M>(req: Client.Request, fetch: string -> Transfer,
                            parse: string -> Result<Option<M>, JavaException>): (d: Delivery<M>)
    ensures d.errorMessage.None? <==> Parses(req, fetch, parse)
    ensures Parses(req, fetch, parse) ==> d.response == parse(Raw(req, fetch).value).value
    ensures Raw(req, fetch).Failure? ==> d == Failed(Raw(req, fetch).error)
    ensures Raw(req, fetch).Success? && parse(Raw(req, fetch).value).Failure? ==>
      d == Failed(parse(Raw(req, fetch).value).error)
    ensures d == Delivery(None, None) <==> Raw(req, fetch).Success? && parse(Raw(req, fetch).value) == Success(None)
    ensures WellFormed(d) <==> d != Delivery(None, None)
  {
    match Raw(req, fetch)
    case Failure(e) => Failed(e)
    case Success(raw) =>
      match parse(raw)
      case Failure(e) => Failed(e)
      case Success(m) => Delivery(m, None)
  }

  /** `GetFromNetwork.run` for the request `req`. `fetch` gives the transfer for
      a URL, `parse` what `readValue` returns for a raw response (or what it
      throws), `process` what the callback throws when invoked (`None` when it
      returns). An `Exception` thrown by the callback on the parsed model is
      caught by the same handler, which invokes the callback a second time; an
      `Error` thrown there, or anything thrown from the handler, escapes. */
  function Execute<M>(req: Client.Request,
                      fetch: string -> Transfer,
                      parse: string -> Result<Option<M>, JavaException>,
                      process: Delivery<M> -> Option<JavaException>): (r: Trace<M>)
    ensures |r.deliveries| <= 2
    ensures |r.deliveries| == 0 <==> ParserThrowsError(req, fetch, parse)
    ensures |r.deliveries| == 0 ==> r.escaped == Some(parse(Raw(req, fetch).value).error)
    ensures |r.deliveries| > 0 ==> r.deliveries[0] == FirstDelivery(req, fetch, parse)
    ensures |r.deliveries| == 2 <==>
      && Parses(req, fetch, parse)
      && process(FirstDelivery(req, fetch, parse)).Some?
      && !process(FirstDelivery(req, fetch, parse)).value.isError
    ensures |r.deliveries| == 2 ==>
      && WellFormed(r.deliveries[1])
      && r.deliveries[1] == Failed(process(r.deliveries[0]).value)
    ensures |r.deliveries| > 0 ==> r.escaped == process(r.deliveries[|r.deliveries| - 1])
  {
    var first := FirstDelivery(req, fetch, parse);
    if ParserThrowsError(req, fetch, parse) then
      Trace([], Some(parse(Raw(req, fetch).value).error))
    else if Parses(req, fetch, parse) && process(first).Some? && !process(first).value.isError then
      var second := Failed(process(first).value);
      Trace([first, second], process(second))
    else
      Trace([first], process(first))
  }

  /** A callback that never throws is invoked exactly once, unless the parser
      throws an `Error`, in which case it is never invoked. */
  lemma ExactlyOnceWhenCallbackReturns<M>(req: Client.Request, fetch: string -> Transfer,
                                          parse: string -> Result<Option<M>, JavaException>,
                                          process: Delivery<M> -> Option<JavaException>)
    requires forall d: Delivery<M> :: process(d).None?
    ensures |Execute(req, fetch, parse, process).deliveries| == if ParserThrowsError(req, fetch, parse) then 0 else 1
    ensures !ParserThrowsError(req, fetch, parse) ==> Execute(req, fetch, parse, process).escaped.None?
  {
    assert process(FirstDelivery(req, fetch, parse)).None?;
  }

  /** When the body is the JSON document `null`, the callback is invoked with two
      null arguments, although its documentation promises a non-null response
      whenever the error message is null. */
  lemma NullModelBreaksCallbackPromise<M>(req: Client.Request, fetch: string -> Transfer,
                                          parse: string -> Result<Option<M>, JavaException>,
                                          process: Delivery<M> -> Option<JavaException>)
    requires fetch(Client.Url(req)).Received?
    requires parse(fetch(Client.Url(req)).body) == Success(None)
    ensures Execute(req, fetch, parse, process).deliveries[0] == Delivery(None, None)
    ensures !WellFormed(Execute(req, fetch, parse, process).deliveries[0])
  {
  }

  /** A callback that throws while handling a parsed model: an `Exception` makes
      the handler invoke it a second time with that exception's text, so one
      request reaches the callback twice; an `Error` escapes `run` after the
      single invocation. */
  lemma CallbackThrowsOnModel<M>(req: Client.Request, fetch: string -> Transfer,
                                 parse: string -> Result<Option<M>, JavaException>,
                                 process: Delivery<M> -> Option<JavaException>, model: Option<M>)
    requires fetch(Client.Url(req)).Received?
    requires parse(fetch(Client.Url(req)).body) == Success(model)
    requires process(Delivery(model, None)).Some?
    ensures
      var thrown := process(Delivery(model, None)).value;
      var t := Execute(req, fetch, parse, process);
      if thrown.isError then
        t.deliveries == [Delivery(model, None)] && t.escaped == Some(thrown)
      else
        t.deliveries == [Delivery(model, None), Delivery(None, Some(ToString(thrown)))]
  {
  }

  /** The text of an I/O failure is parsed as if it were the body. */
  lemma IoFailureTextIsParsed<M>(req: Client.Request, fetch: string -> Transfer,
                                 parse: string -> Result<Option<M>, JavaException>)
    requires fetch(Client.Url(req)).IoFailure?
    ensures
      var text := ToString(fetch(Client.Url(req)).cause);
      FirstDelivery(req, fetch, parse) ==
        match parse(text)
        case Success(m) => Delivery(m, None)
        case Failure(e) => Failed(e)
  {
  }

  /** A fetch that does not finish within the timeout is reported once, with the
      text of a `TimeoutException`, and nothing is parsed. */
  lemma TimeoutIsReported<M>(req: Client.Request, fetch: string -> Transfer,
                             parse: string -> Result<Option<M>, JavaException>,
                             process: Delivery<M> -> Option<JavaException>)
    requires fetch(Client.Url(req)) == TimedOut
    ensures Execute(req, fetch, parse, process).deliveries == [Delivery(None, Some("java.util.concurrent.TimeoutException"))]
  {
  }

  /** A fetch task that throws is reported once, with the text of the
      `ExecutionException` that wraps the cause, and nothing is parsed. */
  lemma CrashIsReported<M>(req: Client.Request, fetch: string -> Transfer,
                           parse: string -> Result<Option<M>, JavaException>,
                           process: Delivery<M> -> Option<JavaException>)
    requires fetch(Client.Url(req)).Crashed?
    ensures
      var cause := fetch(Client.Url(req)).cause;
      Execute(req, fetch, parse, process).deliveries ==
        [Delivery(None, Some("java.util.concurrent.ExecutionException: " + ToString(cause)))]
  {
    var cause := fetch(Client.Url(req)).cause;
    var wrapped := JavaException(ExecutionClass, Some(ToString(cause)), false);
    assert Raw(req, fetch) == Failure(wrapped);
    assert ToString(wrapped) == "java.util.concurrent.ExecutionException: " + ToString(cause);
  }

  /** An interrupted wait is reported once, with the text of an
      `InterruptedException`, and nothing is parsed. */
  lemma InterruptIsReported<M>(req: Client.Request, fetch: string -> Transfer,
                               parse: string -> Result<Option<M>, JavaException>,
                               process: Delivery<M> -> Option<JavaException>)
    requires fetch(Client.Url(req)) == Interrupted
    ensures Execute(req, fetch, parse, process).deliveries == [Delivery(None, Some("java.lang.InterruptedException"))]
  {
  }
}
