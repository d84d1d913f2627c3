/**
 * `withErrorHandling(handler, options)`: check connectivity first and
 * answer 503 when offline (unless the check is skipped), otherwise record
 * the connectivity on the event and run the handler; anything thrown is
 * turned into a `bad` reply with a message and a status code.
 * `ping` and the handler are parameters.
 */
module ErrorHandling {
  import opened Wrappers

  /**
   * A thrown value: an `Error` (whatever `statusCode` it carries), a string,
   * another object (`message` and `statusCode` as read from it, `None` when
   * absent), or anything else (`null`, a number, ...).
   */
  datatype Thrown =
    | ErrorInstance(message: string, statusCode: Option<int>)
    | ThrownString(text: string)
    | ThrownObject(objMessage: Option<string>, objStatusCode: Option<int>)
    | ThrownOther

  /** `ping()`: reachable or not, or it throws. */
  datatype PingOutcome = Pinged(reachable: bool) | PingThrew(error: Thrown)

  /** The handler: it returns a reply, or it throws. */
  datatype HandlerOutcome<R> = Returned(value: R) | HandlerThrew(error: Thrown)

  /**
   * The wrapper's reply: the handler's own reply, or a `bad` record; the
   * offline record has no `success` field, written `None`.
   */
  datatype Reply<R> =
    | HandlerReply(value: R)
    | BadReply(status: string, connectionActivity: string, statusCode: int, message: string, success: Option<bool>)

  const DefaultMessage: string := "Internal server error"
  const OfflineMessage: string := "Service unavailable: cannot reach the internet."

  /** The connectivity record: `"online"` or `"offline"`. */
  function Activity(reachable: bool): string {
    if reachable then "online" else "offline"
  }

  /** `message || "Internal server error"` for a message read from an object. */
  function MessageOr(message: Option<string>): string {
    if message.None? || message.value == "" then DefaultMessage else message.value
  }

  /** `statusCode || 500` */
  function StatusOr(statusCode: Option<int>): int {
    if statusCode.None? || statusCode.value == 0 then 500 else statusCode.value
  }

  /** The `message` and `statusCode` of the catch block. */
  function Classify(error: Thrown): (string, int) {
    match error
    case ErrorInstance(m, _) => (m, 500)
    case ThrownString(s) => (s, 500)
    case ThrownObject(m, code) => (MessageOr(m), StatusOr(code))
    case ThrownOther => (DefaultMessage, 500)
  }

  /** The reply of the catch block. */
  function Caught<R>(error: Thrown): (r: Reply<R>)
    ensures r.BadReply? && r.status == "bad" && r.connectionActivity == "online" && r.success == Some(false)
  {
    BadReply("bad", "online", Classify(error).1, Classify(error).0, Some(false))
  }

  /** Whether `options.skipProcesses?.includes("connectionActivity")` holds. */
  predicate SkipsConnectivity(skipProcesses: Option<seq<string>>) {
    skipProcesses.Some? && "connectionActivity" in skipProcesses.value
  }

  /** The reply, and whether the handler was run at all. */
  function WrapSpec<R>(ping: PingOutcome, handler: string -> HandlerOutcome<R>,
                       skipProcesses: Option<seq<string>>): (Reply<R>, bool)
  {
    match ping
    case PingThrew(e) => (Caught(e), false)
    case Pinged(reachable) =>
      if !reachable && !SkipsConnectivity(skipProcesses) then
        (BadReply("bad", "offline", 503, OfflineMessage, None), false)
      else
        match handler(Activity(reachable))
        case Returned(v) => (HandlerReply(v), true)
        case HandlerThrew(e) => (Caught(e), true)
  }

  /** The request event; only the field the wrapper writes is modelled. */
  class Event {
    var isOnline: Option<string>

    constructor ()
      ensures isOnline == None
    {
      isOnline := None;
    }
  }

  /** The wrapped handler: the reply and whether the handler ran; `event.isOnline` is set exactly when it runs. */
  method Wrap<R>(event: Event, ping: PingOutcome, handler: string -> HandlerOutcome<R>,
                 skipProcesses: Option<seq<string>>)
    returns (reply: Reply<R>, ranHandler: bool)
    modifies event
    ensures (reply, ranHandler) == WrapSpec(ping, handler, skipProcesses)
    ensures ranHandler ==> event.isOnline == Some(Activity(ping.reachable))
    ensures !ranHandler ==> event.isOnline == old(event.isOnline)
  {
    if ping.PingThrew? {
      return Caught(ping.error), false;
    }
    var isOnline := Activity(ping.reachable);
    if isOnline == "offline" && !SkipsConnectivity(skipProcesses) {
      return BadReply("bad", "offline", 503, OfflineMessage, None), false;
    }
    event.isOnline := Some(isOnline);
    var outcome := handler(isOnline);
    match outcome {
      case Returned(v) => reply := HandlerReply(v);
      case HandlerThrew(e) => reply := Caught(e);
    }
    ranHandler := true;
  }

  // ---------------------------------------------------------------------------
  // properties

  /** Offline without the skip option: 503 and the handler never runs. */
  lemma OfflineShortCircuit<R>(handler: string -> HandlerOutcome<R>, skipProcesses: Option<seq<string>>)
    requires !SkipsConnectivity(skipProcesses)
    ensures WrapSpec(Pinged(false), handler, skipProcesses)
         == (BadReply("bad", "offline", 503, OfflineMessage, None), false)
  {
  }

  /** Online, or offline with the skip option: the handler's reply passes through unchanged. */
  lemma HandlerReplyUnchanged<R>(reachable: bool, handler: string -> HandlerOutcome<R>,
                                 skipProcesses: Option<seq<string>>, v: R)
    requires reachable || SkipsConnectivity(skipProcesses)
    requires handler(Activity(reachable)) == Returned(v)
    ensures WrapSpec(Pinged(reachable), handler, skipProcesses) == (HandlerReply(v), true)
  {
  }

  /** A thrown `Error` keeps its message but is always 500, whatever status it carries. */
  lemma ErrorIs500(message: string, statusCode: Option<int>)
    ensures Classify(ErrorInstance(message, statusCode)) == (message, 500)
  {
  }

  /** A thrown object keeps a truthy status code and message; falsy ones fall back to 500 and the default. */
  lemma ObjectFallbacks(message: Option<string>, statusCode: Option<int>)
    ensures var (m, code) := Classify(ThrownObject(message, statusCode));
      (code == 500 <==> statusCode.None? || statusCode.value == 0 || statusCode.value == 500) &&
      (message.Some? && message.value != "" ==> m == message.value) &&
      (message.None? || message.value == "" ==> m == DefaultMessage)
  {
  }

  /**
   * Every `bad` reply is either the offline record (503, no `success`) or
   * a caught error (`online`, `success: false`, a non-zero status).
   */
  lemma BadReplies<R>(ping: PingOutcome, handler: string -> HandlerOutcome<R>, skipProcesses: Option<seq<string>>)
    ensures var (reply, _) := WrapSpec(ping, handler, skipProcesses);
      reply.BadReply? ==>
        reply.status == "bad" && reply.statusCode != 0 &&
        ((reply.connectionActivity == "offline" && reply.statusCode == 503 && reply.success.None?) ||
         (reply.connectionActivity == "online" && reply.success == Some(false)))
  {
  }
}
