/**
 * The screenshot request's lifecycle as a state machine over values: the
 * fields of the client object, what the bus and the cancellable hold on its
 * behalf, and the log of everything it has asked of GLib and the bus. Each
 * function is one step of the client; the class in module Screenshot is
 * specified by them.
 *
 * The world beside the client object is three facts: whether the bus still
 * holds the client's Response subscription (`subscribed`), whether the
 * cancellable still holds its "cancelled" handler (`hooked`), and how many
 * `Screenshot` calls have a reply still to be delivered (`callsInFlight`).
 * A callback can only be dispatched while what triggers it exists.
 */
module Lifecycle {
  import opened Wrappers
  import opened Portal
  import Request
  import Response

  /** The GTask of an operation; only whether it carries a cancellable matters here. */
  datatype Task = Task(cancellable: bool)

  /** The session bus connection, known by the unique name the bus gave it. */
  datatype Connection = Connection(uniqueName: string)

  /** What the client asks of the bus, of the cancellable and of GLib, in order. */
  datatype Event =
    | SignalSubscribe(sender: string, iface: string, member: string, path: string, id: nat)
    | HandlerConnect(id: nat)
    | MethodCall(dest: string, path: string, iface: string, member: string, args: Args, replyAwaited: bool)
    | TaskReturn(result: TaskResult)
    | HandlerDisconnect(id: nat)
    | TaskRelease
    | SignalUnsubscribe(id: nat)
    | PathFree
    | ConnRelease

  datatype State = State(
    task: Option<Task>,
    conn: Option<Connection>,
    objectPath: string,
    signalId: nat,
    cancelledId: nat,
    subscribed: bool,
    hooked: bool,
    callsInFlight: nat,
    log: seq<Event>)

  /** A freshly constructed client: GObject zero-fills the instance struct. */
  function Init(): (s: State)
    ensures !Pending(s) && Consistent(s) && s.log == []
  {
    State(None, None, "", 0, 0, false, false, 0, [])
  }

  /** An operation is pending while the client holds its task. */
  predicate Pending(s: State) { s.task.Some? }

  /**
   * The client's fields agree with the world: while an operation is pending
   * the subscription and the handler exist exactly when their ids are
   * non-zero; otherwise neither exists and no handler id is kept.
   */
  predicate Consistent(s: State) {
    if Pending(s) then s.subscribed == (s.signalId != 0) && s.hooked == (s.cancelledId != 0)
    else !s.subscribed && !s.hooked && s.cancelledId == 0
  }

  /** The `Screenshot` call: empty parent window, the request options, a reply awaited. */
  function ScreenshotCall(token: string): Event {
    MethodCall(PortalBus, DesktopPath, ScreenshotInterface, "Screenshot",
               ScreenshotArgs("", Request.RequestOptions(token)), true)
  }

  /** `Close` on a request object: no arguments, no reply awaited. */
  function CloseCall(path: string): Event {
    MethodCall(PortalBus, path, RequestInterface, "Close", NoArgs, false)
  }

  function ResponseSubscription(path: string, id: nat): Event {
    SignalSubscribe(PortalBus, RequestInterface, "Response", path, id)
  }

  const CancelledError: GError := GError(IOErrorDomain, IOErrorCancelled, Response.CancelledMessage)

  // ---------------------------------------------------------------------------
  // The steps

  /**
   * `screenshot_take`: derive the request path, subscribe to its Response,
   * hook the cancellable if there is one, then issue the `Screenshot` call.
   * `sid` and `hid` are the ids the bus and GObject hand back.
   */
  function RequestScreenshot(s: State, n: nat, sid: nat, hid: nat): (r: State)
    requires Pending(s) && s.conn.Some? && |s.conn.value.uniqueName| >= 1 && n < GMaxInt
    requires !s.hooked && s.cancelledId == 0
    ensures Pending(r) && Consistent(r) && r.task == s.task && r.conn == s.conn
    ensures r.objectPath == Request.ObjectPath(Request.SenderName(s.conn.value.uniqueName), Request.Token(n))
    ensures r.signalId == sid && r.subscribed == (sid != 0)
    ensures r.hooked == (s.task.value.cancellable && hid != 0)
    ensures r.cancelledId == if s.task.value.cancellable then hid else 0
    ensures r.callsInFlight == s.callsInFlight + 1
    ensures r.log == s.log + [ResponseSubscription(r.objectPath, sid)]
                           + (if s.task.value.cancellable then [HandlerConnect(hid)] else [])
                           + [ScreenshotCall(Request.Token(n))]
  {
    var token := Request.Token(n);
    var path := Request.ObjectPath(Request.SenderName(s.conn.value.uniqueName), token);
    var listening := s.(objectPath := path, signalId := sid, subscribed := sid != 0,
                        log := s.log + [ResponseSubscription(path, sid)]);
    var hooked := if s.task.value.cancellable
                  then listening.(cancelledId := hid, hooked := hid != 0, log := listening.log + [HandlerConnect(hid)])
                  else listening;
    hooked.(callsInFlight := hooked.callsInFlight + 1, log := hooked.log + [ScreenshotCall(token)])
  }

  /** `boomerang_screenshot_take`: a new task and the session bus, then the request. */
  function Take(s: State, cancellable: bool, conn: Connection, n: nat, sid: nat, hid: nat): (r: State)
    requires Consistent(s) && !Pending(s)
    requires |conn.uniqueName| >= 1 && n < GMaxInt
    ensures Pending(r) && Consistent(r)
    ensures r.task == Some(Task(cancellable)) && r.conn == Some(conn)
    ensures r.objectPath == Request.ObjectPath(Request.SenderName(conn.uniqueName), Request.Token(n))
    ensures r.subscribed == (sid != 0) && r.hooked == (cancellable && hid != 0)
  {
    RequestScreenshot(s.(task := Some(Task(cancellable)), conn := Some(conn)), n, sid, hid)
  }

  /** What `screenshot_cleanup` asks for, in its order. */
  function CleanupEvents(signalId: nat, cancelledId: nat): seq<Event> {
    (if cancelledId != 0 then [HandlerDisconnect(cancelledId)] else [])
    + [TaskRelease]
    + (if signalId != 0 then [SignalUnsubscribe(signalId)] else [])
    + [PathFree, ConnRelease]
  }

  /**
   * The cleanup disconnects the handler exactly when its id is non-zero,
   * unsubscribes exactly when the subscription id is non-zero, always drops
   * the task and frees the path, and drops the connection last, after any
   * unsubscription.
   */
  lemma CleanupOrder(signalId: nat, cancelledId: nat)
    ensures var events := CleanupEvents(signalId, cancelledId);
            |events| >= 3 && events[|events| - 1] == ConnRelease &&
            TaskRelease in events && PathFree in events &&
            (HandlerDisconnect(cancelledId) in events <==> cancelledId != 0) &&
            (SignalUnsubscribe(signalId) in events <==> signalId != 0) &&
            forall i :: 0 <= i < |events| - 1 ==> events[i] != ConnRelease
  {
  }

  /**
   * `screenshot_cleanup` as written: disconnect and clear the handler id,
   * drop the task, unsubscribe if subscribed, free the path, drop the
   * connection last. The task and signal id fields are left as they were.
   */
  function Release(s: State): (r: State)
    ensures r.cancelledId == 0 && r.task == s.task && r.signalId == s.signalId
    ensures s.signalId != 0 ==> !r.subscribed
    ensures s.cancelledId != 0 ==> !r.hooked
    ensures r.log == s.log + CleanupEvents(s.signalId, s.cancelledId)
  {
    s.(cancelledId := 0,
       hooked := s.hooked && s.cancelledId == 0,
       subscribed := s.subscribed && s.signalId == 0,
       log := s.log + CleanupEvents(s.signalId, s.cancelledId))
  }

  /**
   * Cleanup with the task pointer cleared, which ends the operation; the
   * accept callback checks it (see AcceptedAsWritten).
   */
  function Cleanup(s: State): (r: State)
    ensures !Pending(r) && r.cancelledId == 0 && r.signalId == s.signalId && r.callsInFlight == s.callsInFlight
    ensures Consistent(s) ==> Consistent(r)
    ensures r.log == s.log + CleanupEvents(s.signalId, s.cancelledId)
  {
    Release(s).(task := None)
  }

  /** Complete the task with a result, then clean up. */
  function Complete(s: State, result: TaskResult): (r: State)
    ensures !Pending(r) && r.signalId == s.signalId && r.callsInFlight == s.callsInFlight
    ensures Consistent(s) ==> Consistent(r)
    ensures r.log == s.log + [TaskReturn(result)] + CleanupEvents(s.signalId, s.cancelledId)
  {
    Cleanup(s.(log := s.log + [TaskReturn(result)]))
  }

  /** `screenshot_take_response_cb`: decode the Response, complete, clean up. */
  function ResponseReceived(s: State, response: uint32, results: Vardict): (r: State)
    ensures !Pending(r)
    ensures Consistent(s) ==> Consistent(r)
    ensures LastResult(r.log) == Some(Response.Decode(response, results))
  {
    var r := Complete(s, Response.Decode(response, results));
    LastResultSkips(s.log + [TaskReturn(Response.Decode(response, results))], CleanupEvents(s.signalId, s.cancelledId));
    r
  }

  /**
   * `screenshot_cancelled_cb`: ask the portal to close the request at the
   * path that was subscribed, without awaiting a reply, then complete the
   * task as cancelled and clean up. No Response follows a `Close`.
   */
  function Cancelled(s: State): (r: State)
    ensures !Pending(r) && r.signalId == s.signalId && r.callsInFlight == s.callsInFlight
    ensures Consistent(s) ==> Consistent(r)
    ensures |r.log| > |s.log| && r.log[|s.log|] == CloseCall(s.objectPath)
    ensures LastResult(r.log) == Some(Failure(CancelledError))
  {
    var closing := s.(log := s.log + [CloseCall(s.objectPath)]);
    var r := Complete(closing, Failure(CancelledError));
    LastResultSkips(closing.log + [TaskReturn(Failure(CancelledError))], CleanupEvents(s.signalId, s.cancelledId));
    r
  }

  /**
   * `screenshot_take_cb` with the guard the code lacks: a failed call
   * completes the operation only while it is still pending; a successful one
   * changes nothing (the returned path is discarded).
   */
  function Accepted(s: State, reply: Result<string, GError>): (r: State)
    requires s.callsInFlight > 0
    ensures r.callsInFlight == s.callsInFlight - 1
    ensures Pending(r) <==> Pending(s) && reply.Success?
    ensures Consistent(s) ==> Consistent(r)
    ensures reply.Failure? && Pending(s) ==> LastResult(r.log) == Some(Failure(reply.error))
    ensures reply.Success? || !Pending(s) ==> r.log == s.log
  {
    var answered := s.(callsInFlight := s.callsInFlight - 1);
    if reply.Failure? && Pending(answered) then
      var r := Complete(answered, Failure(reply.error));
      LastResultSkips(answered.log + [TaskReturn(Failure(reply.error))], CleanupEvents(s.signalId, s.cancelledId));
      r
    else answered
  }

  /**
   * `screenshot_take_cb` as written: a failed call returns its error on the
   * task and runs the cleanup whether or not the operation already ended.
   */
  function AcceptedAsWritten(s: State, reply: Result<string, GError>): (r: State)
    requires s.callsInFlight > 0
    ensures reply.Failure? ==>
              r.log == s.log + [TaskReturn(Failure(reply.error))] + CleanupEvents(s.signalId, s.cancelledId)
    ensures reply.Success? ==> r.log == s.log
  {
    var answered := s.(callsInFlight := s.callsInFlight - 1);
    if reply.Failure? then Release(answered.(log := answered.log + [TaskReturn(Failure(reply.error))]))
    else answered
  }

  // ---------------------------------------------------------------------------
  // The result the caller receives

  /**
   * The result of the most recent completion, which the caller's
   * `boomerang_screenshot_finish` propagates.
   */
  function LastResult(log: seq<Event>): (r: Option<TaskResult>)
    ensures r.Some? <==> exists i :: 0 <= i < |log| && log[i].TaskReturn?
    ensures r.Some? ==> TaskReturn(r.value) in log
    ensures r.Some? ==> exists i :: 0 <= i < |log| && log[i] == TaskReturn(r.value) &&
                                    forall j :: i < j < |log| ==> !log[j].TaskReturn?
  {
    if log == [] then None
    else if log[|log| - 1].TaskReturn? then Some(log[|log| - 1].result)
    else LastResult(log[..|log| - 1])
  }

  lemma {:induction false} LastResultSkips(log: seq<Event>, xs: seq<Event>)
    requires forall i :: 0 <= i < |xs| ==> !xs[i].TaskReturn?
    ensures LastResult(log + xs) == LastResult(log)
    decreases |xs|
  {
    var l := log + xs;
    if xs == [] {
      assert l == log;
    } else {
      assert l[|l| - 1] == xs[|xs| - 1];
      assert l[..|l| - 1] == log + xs[..|xs| - 1];
      LastResultSkips(log, xs[..|xs| - 1]);
    }
  }

  // ---------------------------------------------------------------------------
  // Dispatch

  /** The callbacks the event loop can run. */
  datatype Trigger =
    | ResponseSignal(response: uint32, results: Vardict)
    | CancelledSignal
    | CallReply(reply: Result<string, GError>)

  /**
   * The bus delivers a Response only to a live subscription, the cancellable
   * runs only a connected handler, and every `Screenshot` call is answered
   * once (it was issued without a cancellable).
   */
  predicate Dispatchable(s: State, t: Trigger) {
    match t
    case ResponseSignal(_, _) => s.subscribed
    case CancelledSignal => s.hooked
    case CallReply(_) => s.callsInFlight > 0
  }

  function Deliver(s: State, t: Trigger): State {
    if !Dispatchable(s, t) then s
    else match t
      case ResponseSignal(response, results) => ResponseReceived(s, response, results)
      case CancelledSignal => Cancelled(s)
      case CallReply(reply) => Accepted(s, reply)
  }

  function Run(s: State, ts: seq<Trigger>): State
    decreases |ts|
  {
    if ts == [] then s else Run(Deliver(s, ts[0]), ts[1..])
  }

  // ---------------------------------------------------------------------------
  // Counting completions and releases

  datatype Kind = Returned | TaskReleased | Unsubscribed | PathFreed | ConnReleased | Other

  function KindOf(e: Event): Kind {
    match e
    case TaskReturn(_) => Returned
    case TaskRelease => TaskReleased
    case PathFree => PathFreed
    case SignalUnsubscribe(_) => Unsubscribed
    case ConnRelease => ConnReleased
    case _ => Other
  }

  function Count(log: seq<Event>, k: Kind): nat {
    if log == [] then 0 else (if KindOf(log[0]) == k then 1 else 0) + Count(log[1..], k)
  }

  lemma {:induction false} CountAppend(a: seq<Event>, b: seq<Event>, k: Kind)
    ensures Count(a + b, k) == Count(a, k) + Count(b, k)
    decreases |a|
  {
    if a == [] {
      assert a + b == b;
    } else {
      assert (a + b)[0] == a[0];
      assert (a + b)[1..] == a[1..] + b;
      CountAppend(a[1..], b, k);
    }
  }

  lemma {:induction false} CountNone(xs: seq<Event>, k: Kind)
    requires k != Other
    requires forall i :: 0 <= i < |xs| ==> KindOf(xs[i]) == Other
    ensures Count(xs, k) == 0
    decreases |xs|
  {
    if xs != [] {
      CountNone(xs[1..], k);
    }
  }

  lemma CountCons(e: Event, rest: seq<Event>, k: Kind)
    ensures Count([e] + rest, k) == (if KindOf(e) == k then 1 else 0) + Count(rest, k)
  {
    assert ([e] + rest)[0] == e;
    assert ([e] + rest)[1..] == rest;
  }

  /**
   * The cleanup releases the task and the connection once each, and the
   * subscription once if there was one.
   */
  lemma CleanupCounts(signalId: nat, cancelledId: nat, k: Kind)
    requires k != Other
    ensures Count(CleanupEvents(signalId, cancelledId), k) ==
              if k == TaskReleased || k == PathFreed || k == ConnReleased || (k == Unsubscribed && signalId != 0) then 1 else 0
  {
    var tail: seq<Event> := [PathFree] + ([ConnRelease] + []);
    CountCons(ConnRelease, [], k);
    CountCons(PathFree, [ConnRelease] + [], k);
    var u: seq<Event> := if signalId != 0 then [SignalUnsubscribe(signalId)] + tail else tail;
    if signalId != 0 { CountCons(SignalUnsubscribe(signalId), tail, k); }
    var t := [TaskRelease] + u;
    CountCons(TaskRelease, u, k);
    var all := if cancelledId != 0 then [HandlerDisconnect(cancelledId)] + t else t;
    if cancelledId != 0 { CountCons(HandlerDisconnect(cancelledId), t, k); }
    assert all == CleanupEvents(signalId, cancelledId);
  }

  /** A completion returns one result, then cleans up. */
  lemma CompletionCounts(result: TaskResult, signalId: nat, cancelledId: nat, k: Kind)
    requires k != Other
    ensures Count([TaskReturn(result)] + CleanupEvents(signalId, cancelledId), k) ==
              if k == Returned || k == TaskReleased || k == PathFreed || k == ConnReleased || (k == Unsubscribed && signalId != 0) then 1 else 0
  {
    CountCons(TaskReturn(result), CleanupEvents(signalId, cancelledId), k);
    CleanupCounts(signalId, cancelledId, k);
  }

  // ---------------------------------------------------------------------------
  // Exactly-once completion

  /**
   * The operation that began at log index `start`: while pending nothing has
   * been returned or released; once ended, one result has been returned and
   * the task, the object path, the connection and (if there was one) the
   * subscription have each been released exactly once.
   */
  predicate OpInvariant(s: State, start: nat) {
    start <= |s.log| && Consistent(s) &&
    var tail := s.log[start..];
    var done := if Pending(s) then 0 else 1;
    Count(tail, Returned) == done && Count(tail, TaskReleased) == done &&
    Count(tail, PathFreed) == done && Count(tail, ConnReleased) == done &&
    Count(tail, Unsubscribed) == (if s.signalId != 0 then done else 0)
  }

  lemma TakeStartsOperation(s: State, cancellable: bool, conn: Connection, n: nat, sid: nat, hid: nat)
    requires Consistent(s) && !Pending(s) && |conn.uniqueName| >= 1 && n < GMaxInt
    ensures OpInvariant(Take(s, cancellable, conn, n, sid, hid), |s.log|)
  {
    var r := Take(s, cancellable, conn, n, sid, hid);
    var tail := r.log[|s.log|..];
    assert forall i :: 0 <= i < |tail| ==> KindOf(tail[i]) == Other;
    forall k | k != Other ensures Count(tail, k) == 0 { CountNone(tail, k); }
  }

  lemma CompletePreserves(s: State, result: TaskResult, start: nat)
    requires OpInvariant(s, start) && Pending(s)
    ensures OpInvariant(Complete(s, result), start)
  {
    var r := Complete(s, result);
    var xs := [TaskReturn(result)] + CleanupEvents(s.signalId, s.cancelledId);
    assert r.log[start..] == s.log[start..] + xs;
    forall k | k != Other
      ensures Count(r.log[start..], k) == Count(s.log[start..], k) +
                if k == Returned || k == TaskReleased || k == PathFreed || k == ConnReleased || (k == Unsubscribed && s.signalId != 0) then 1 else 0
    {
      CountAppend(s.log[start..], xs, k);
      CompletionCounts(result, s.signalId, s.cancelledId, k);
    }
  }

  lemma DeliverPreserves(s: State, t: Trigger, start: nat)
    requires OpInvariant(s, start)
    ensures OpInvariant(Deliver(s, t), start)
  {
    if Dispatchable(s, t) {
      match t
      case ResponseSignal(response, results) =>
        CompletePreserves(s, Response.Decode(response, results), start);
      case CancelledSignal =>
        var closing := s.(log := s.log + [CloseCall(s.objectPath)]);
        assert closing.log[start..] == s.log[start..] + [CloseCall(s.objectPath)];
        forall k | k != Other ensures Count(closing.log[start..], k) == Count(s.log[start..], k) {
          CountAppend(s.log[start..], [CloseCall(s.objectPath)], k);
          CountCons(CloseCall(s.objectPath), [], k);
        }
        CompletePreserves(closing, Failure(CancelledError), start);
      case CallReply(reply) =>
        var answered := s.(callsInFlight := s.callsInFlight - 1);
        if reply.Failure? && Pending(answered) {
          CompletePreserves(answered, Failure(reply.error), start);
        }
    }
  }

  lemma {:induction false} RunPreserves(s: State, ts: seq<Trigger>, start: nat)
    requires OpInvariant(s, start)
    ensures OpInvariant(Run(s, ts), start)
    decreases |ts|
  {
    if ts != [] {
      DeliverPreserves(s, ts[0], start);
      RunPreserves(Deliver(s, ts[0]), ts[1..], start);
    }
  }

  /**
   * Whatever the order in which Responses, cancellations and call replies
   * are dispatched after `Take`, the operation returns at most one result;
   * it has returned one exactly when it is no longer pending; the task, the
   * object path and the connection are released once with it and the
   * subscription at most once; and an ended operation holds no subscription and no handler.
   */
  lemma CompletionExactlyOnce(s: State, cancellable: bool, conn: Connection, n: nat, sid: nat, hid: nat, ts: seq<Trigger>)
    requires Consistent(s) && !Pending(s) && |conn.uniqueName| >= 1 && n < GMaxInt
    ensures var r := Run(Take(s, cancellable, conn, n, sid, hid), ts);
            |s.log| <= |r.log| &&
            var tail := r.log[|s.log|..];
            Count(tail, Returned) <= 1 &&
            (Pending(r) <==> Count(tail, Returned) == 0) &&
            Count(tail, TaskReleased) == Count(tail, Returned) &&
            Count(tail, PathFreed) == Count(tail, Returned) &&
            Count(tail, ConnReleased) == Count(tail, Returned) &&
            Count(tail, Unsubscribed) == (if sid != 0 then Count(tail, Returned) else 0) &&
            (!Pending(r) ==> !r.subscribed && !r.hooked)
  {
    TakeStartsOperation(s, cancellable, conn, n, sid, hid);
    RunPreserves(Take(s, cancellable, conn, n, sid, hid), ts, |s.log|);
    RunKeepsSignalId(Take(s, cancellable, conn, n, sid, hid), ts);
  }

  lemma {:induction false} RunKeepsSignalId(s: State, ts: seq<Trigger>)
    ensures Run(s, ts).signalId == s.signalId
    decreases |ts|
  {
    if ts != [] {
      RunKeepsSignalId(Deliver(s, ts[0]), ts[1..]);
    }
  }

  /**
   * Once an operation has ended, nothing dispatched to the client changes
   * what it has done or the result the caller receives.
   */
  lemma LateTriggerIgnored(s: State, t: Trigger)
    requires Consistent(s) && !Pending(s)
    ensures Deliver(s, t).log == s.log && !Pending(Deliver(s, t))
    ensures LastResult(Deliver(s, t).log) == LastResult(s.log)
  {
  }

  // ---------------------------------------------------------------------------
  // Scenarios

  /** A Response `(0, {"uri": u})` completes `Take` with exactly `u`. */
  lemma ScenarioUri(cancellable: bool, conn: Connection, n: nat, sid: nat, hid: nat, uri: string)
    requires |conn.uniqueName| >= 1 && n < GMaxInt && sid != 0
    ensures var r := Deliver(Take(Init(), cancellable, conn, n, sid, hid), ResponseSignal(0, [("uri", VString(uri))]));
            !Pending(r) && LastResult(r.log) == Some(Success(uri))
  {
  }

  /**
   * Cancelling before any reply ends the operation as cancelled, with a
   * `Close` sent to the very path whose Response was subscribed.
   */
  lemma ScenarioCancel(conn: Connection, n: nat, sid: nat, hid: nat)
    requires |conn.uniqueName| >= 1 && n < GMaxInt && hid != 0
    ensures var s := Take(Init(), true, conn, n, sid, hid);
            var r := Deliver(s, CancelledSignal);
            var path := Request.ObjectPath(Request.SenderName(conn.uniqueName), Request.Token(n));
            !Pending(r) && LastResult(r.log) == Some(Failure(CancelledError)) &&
            ResponseSubscription(path, sid) in r.log && CloseCall(path) in r.log
  {
    var s := Take(Init(), true, conn, n, sid, hid);
    var r := Deliver(s, CancelledSignal);
    assert r.log[0] == ResponseSubscription(s.objectPath, sid);
    assert r.log[|s.log|] == CloseCall(s.objectPath);
  }

  /** Without a cancellable no handler is connected, so cancellation cannot be dispatched. */
  lemma NoCancellableNoHook(conn: Connection, n: nat, sid: nat, hid: nat)
    requires |conn.uniqueName| >= 1 && n < GMaxInt
    ensures var s := Take(Init(), false, conn, n, sid, hid);
            !s.hooked && forall e :: e in s.log ==> !e.HandlerConnect?
  {
  }

  // ---------------------------------------------------------------------------
  // The unguarded accept callback

  /**
   * As written, when a cancellation has ended the operation and the
   * `Screenshot` call then fails (its reply is still due), the accept
   * callback returns a second result on the released task and runs the
   * cleanup a second time: two task releases, two frees of the object
   * path, two connection releases and
   * the same subscription id unsubscribed twice. With the guard, the late
   * reply changes nothing.
   */
  lemma AcceptAfterCancelAsWritten(conn: Connection, n: nat, sid: nat, hid: nat, e: GError)
    requires |conn.uniqueName| >= 1 && n < GMaxInt && sid != 0 && hid != 0
    ensures var s := Take(Init(), true, conn, n, sid, hid);
            var cancelled := Deliver(s, CancelledSignal);
            Dispatchable(cancelled, CallReply(Failure(e))) &&
            var r := AcceptedAsWritten(cancelled, Failure(e));
            Count(r.log, Returned) == 2 && Count(r.log, TaskReleased) == 2 &&
            Count(r.log, PathFreed) == 2 && Count(r.log, ConnReleased) == 2 &&
            Count(r.log, Unsubscribed) == 2 &&
            Deliver(cancelled, CallReply(Failure(e))).log == cancelled.log
  {
    var s := Take(Init(), true, conn, n, sid, hid);
    TakeStartsOperation(Init(), true, conn, n, sid, hid);
    assert s.hooked && s.callsInFlight == 1 && s.signalId == sid;
    DeliverPreserves(s, CancelledSignal, 0);
    var cancelled := Cancelled(s);
    assert cancelled == Deliver(s, CancelledSignal);
    LateFailureAsWritten(cancelled, 0, e);
  }

  /**
   * The step of the lemma above for any ended operation whose call reply is
   * still due: the as-written callback completes it a second time.
   */
  lemma LateFailureAsWritten(s: State, start: nat, e: GError)
    requires OpInvariant(s, start) && !Pending(s) && s.callsInFlight > 0 && s.signalId != 0
    ensures var r := AcceptedAsWritten(s, Failure(e));
            var tail := r.log[start..];
            Count(tail, Returned) == 2 && Count(tail, TaskReleased) == 2 &&
            Count(tail, PathFreed) == 2 && Count(tail, ConnReleased) == 2 &&
            Count(tail, Unsubscribed) == 2
  {
    var r := AcceptedAsWritten(s, Failure(e));
    var xs := [TaskReturn(Failure(e))] + CleanupEvents(s.signalId, s.cancelledId);
    assert r.log[start..] == s.log[start..] + xs;
    forall k | k != Other
      ensures Count(r.log[start..], k) == Count(s.log[start..], k) +
                if k == Returned || k == TaskReleased || k == PathFreed || k == ConnReleased || k == Unsubscribed then 1 else 0
    {
      CountAppend(s.log[start..], xs, k);
      CompletionCounts(Failure(e), s.signalId, s.cancelledId, k);
    }
  }
}
