/**
 * The order-success page: once Stripe redirects back, it reads the session id from the
 * query string and the stashed shipping address from session storage, asks the server to
 * verify and record the order, and clears the cart only when that succeeds. A ref keeps
 * the verification from starting twice under React's strict-mode double effect.
 */
module OrderSuccess {
  import opened Wrappers
  import opened Models

  type Json = map<string, string>

  /** What `JSON.parse(sessionStorage.getItem('shippingAddress'))` produced. */
  datatype Stash =
    | Absent                     // no key: `JSON.parse(null)` is `null`
    | Corrupt(syntaxMessage: string)
    | Falsy                      // a stored `null`, `false`, `0` or `""`
    | Parsed(address: Json)

  /** The answer of `POST /api/order/verify`: success, or the server's and axios' messages. */
  datatype ServerAnswer = Verified | Refused(serverMessage: Option<string>, errorMessage: string)

  datatype Request = Request(sessionId: string, address: Json)

  /** The page state once `verifySession` has settled, and what it did on the way. */
  datatype Outcome = Outcome(
    loading: bool,
    error: Option<string>,
    posted: Option<Request>,
    cartCleared: bool,
    stashRemoved: bool)

  const NoSessionMessage := "No session ID found. Cannot verify purchase."
  const NoAddressMessage := "Shipping address not found. Cannot verify purchase."
  const FallbackMessage := "Failed to verify your purchase."

  /** `a || b || fallback` over strings. */
  function FirstTruthy(a: Option<string>, b: Option<string>, fallback: string): (r: string)
    ensures Truthy(a) ==> r == a.value
    ensures !Truthy(a) && Truthy(b) ==> r == b.value
    ensures !Truthy(a) && !Truthy(b) ==> r == fallback
  {
    if Truthy(a) then a.value else if Truthy(b) then b.value else fallback
  }

  /** The message `catch` shows for an error carrying an optional response message. */
  function CatchMessage(serverMessage: Option<string>, errorMessage: string): (r: string)
    ensures r != ""
    ensures Truthy(serverMessage) ==> r == serverMessage.value
    ensures !Truthy(serverMessage) && errorMessage != "" ==> r == errorMessage
    ensures !Truthy(serverMessage) && errorMessage == "" ==> r == FallbackMessage
  {
    FirstTruthy(serverMessage, Some(errorMessage), FallbackMessage)
  }

  /**
   * `verifySession`. Without a session id it stops early, before the `finally` that
   * removes the stash; every later path removes the stash and stops loading.
   */
  function VerifySession(sessionId: Option<string>, stash: Stash, post: Request -> ServerAnswer): (o: Outcome)
    ensures !o.loading
    ensures o.posted.Some? <==> Truthy(sessionId) && stash.Parsed?
    ensures o.posted.Some? ==> o.posted.value == Request(sessionId.value, stash.address)
    ensures o.stashRemoved <==> Truthy(sessionId)
    ensures o.cartCleared <==> o.posted.Some? && post(o.posted.value).Verified?
    ensures o.error.None? <==> o.cartCleared
    ensures o.error.Some? ==> o.error.value != ""
    ensures !Truthy(sessionId) ==> o.error == Some(NoSessionMessage)
    ensures Truthy(sessionId) && (stash.Absent? || stash.Falsy?) ==> o.error == Some(NoAddressMessage)
    ensures Truthy(sessionId) && stash.Corrupt? ==> o.error == Some(CatchMessage(None, stash.syntaxMessage))
    ensures o.posted.Some? && post(o.posted.value).Refused? ==>
      var answer := post(o.posted.value);
      o.error == Some(CatchMessage(answer.serverMessage, answer.errorMessage))
  {
    if !Truthy(sessionId) then
      Outcome(false, Some(NoSessionMessage), None, false, false)
    else
      match stash
      case Absent => Outcome(false, Some(NoAddressMessage), None, false, true)
      case Falsy => Outcome(false, Some(NoAddressMessage), None, false, true)
      case Corrupt(m) => Outcome(false, Some(CatchMessage(None, m)), None, false, true)
      case Parsed(address) =>
        var req := Request(sessionId.value, address);
        match post(req)
        case Verified => Outcome(false, None, Some(req), true, true)
        case Refused(sm, em) => Outcome(false, Some(CatchMessage(sm, em)), Some(req), false, true)
  }

  datatype View = Verifying | ErrorView(message: string) | ThankYou

  /** What the page renders: loading first, then any error, then the thank-you note. */
  function Render(loading: bool, error: Option<string>): (v: View)
    ensures v.Verifying? <==> loading
    ensures v.ThankYou? <==> !loading && !Truthy(error)
    ensures v.ErrorView? ==> Some(v.message) == error
  {
    if loading then Verifying
    else if Truthy(error) then ErrorView(error.value)
    else ThankYou
  }

  /** The thank-you note is shown exactly when the server confirmed the order and the cart was emptied. */
  lemma ThankYouOnlyAfterVerified(sessionId: Option<string>, stash: Stash, post: Request -> ServerAnswer)
    ensures var o := VerifySession(sessionId, stash, post);
      Render(o.loading, o.error).ThankYou? <==> o.cartCleared
    ensures var o := VerifySession(sessionId, stash, post);
      Render(o.loading, o.error).ThankYou? ==> Truthy(sessionId) && stash.Parsed?
  {
  }

  // ---------------------------------------------------- the effect guard

  datatype Event = Run | Cleanup

  /**
   * `effectRan` is the ref; `armed` records that the last run returned a cleanup
   * function; `started` counts the calls of `verifySession`.
   */
  datatype Guard = Guard(effectRan: bool, armed: bool, started: nat)

  const Fresh := Guard(false, false, 0)

  function Fire(g: Guard, e: Event): (r: Guard)
    ensures e.Run? ==> r.effectRan == g.effectRan
    ensures e.Run? && !g.effectRan ==> r.started == g.started + 1 && r.armed
    ensures e.Run? && g.effectRan ==> r.started == g.started && !r.armed
    ensures e.Cleanup? ==> r.started == g.started && !r.armed && (r.effectRan <==> g.effectRan || g.armed)
  {
    match e
    case Run =>
      if !g.effectRan then Guard(false, true, g.started + 1) else Guard(true, false, g.started)
    case Cleanup =>
      if g.armed then Guard(true, false, g.started) else Guard(g.effectRan, false, g.started)
  }

  function Replay(g: Guard, events: seq<Event>): Guard
    decreases |events|
  {
    if |events| == 0 then g else Replay(Fire(g, events[0]), events[1..])
  }

  /** React runs an effect, then its cleanup before any further run: runs and cleanups alternate. */
  predicate Alternating(events: seq<Event>) {
    forall i :: 0 <= i < |events| ==> events[i] == if i % 2 == 0 then Run else Cleanup
  }

  predicate GuardInv(g: Guard, nextIsRun: bool) {
    && g.started <= 1
    && (nextIsRun ==> !g.armed && (g.started == 0 || g.effectRan))
    && (!nextIsRun ==> g.started == 0 || g.effectRan || g.armed)
  }

  lemma {:induction false} ReplayKeepsGuard(g: Guard, events: seq<Event>, nextIsRun: bool)
    requires GuardInv(g, nextIsRun)
    requires forall i :: 0 <= i < |events| ==> events[i] == if (i % 2 == 0) == nextIsRun then Run else Cleanup
    ensures Replay(g, events).started <= 1
    decreases |events|
  {
    if |events| > 0 {
      var rest := events[1..];
      forall i | 0 <= i < |rest|
        ensures rest[i] == if (i % 2 == 0) == !nextIsRun then Run else Cleanup
      {
        assert rest[i] == events[i + 1];
      }
      ReplayKeepsGuard(Fire(g, events[0]), rest, !nextIsRun);
    }
  }

  /** However often React re-runs the effect, the verification starts at most once. */
  lemma VerificationStartsAtMostOnce(events: seq<Event>)
    requires Alternating(events)
    ensures Replay(Fresh, events).started <= 1
  {
    ReplayKeepsGuard(Fresh, events, true);
  }

  /** Strict mode's mount, unmount, mount starts it exactly once. */
  lemma StrictModeStartsOnce()
    ensures Replay(Fresh, [Run, Cleanup, Run]).started == 1
  {
  }
}
