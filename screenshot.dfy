/**
 * The screenshot client object: the fields of `struct _BoomerangScreenshot`,
 * updated in place by `boomerang_screenshot_take` and by the three callbacks
 * the event loop runs. Every method is specified by the step of module
 * Lifecycle it performs; the ghost fields record what the bus and the
 * cancellable hold on the object's behalf.
 */
module Screenshot {
  import opened Wrappers
  import opened Portal
  import Request
  import Response
  import Lifecycle

  class BoomerangScreenshot {
    var task: Option<Lifecycle.Task>
    var conn: Option<Lifecycle.Connection>
    var objectPath: string
    var signalId: nat
    var cancelledId: nat
    /** What the object has asked of the bus, the cancellable and GLib. */
    var log: seq<Lifecycle.Event>

    /** The bus holds the Response subscription. */
    ghost var subscribed: bool
    /** The cancellable holds the "cancelled" handler. */
    ghost var hooked: bool
    /** `Screenshot` calls whose reply is still to be delivered. */
    ghost var callsInFlight: nat

    ghost function State(): Lifecycle.State
      reads this
    {
      Lifecycle.State(task, conn, objectPath, signalId, cancelledId, subscribed, hooked, callsInFlight, log)
    }

    ghost predicate Valid()
      reads this
    {
      Lifecycle.Consistent(State())
    }

    /** `boomerang_screenshot_init`: every field zero. */
    constructor ()
      ensures Valid() && State() == Lifecycle.Init()
    {
      task, conn, objectPath, signalId, cancelledId, log := None, None, "", 0, 0, [];
      subscribed, hooked, callsInFlight := false, false, 0;
    }

    /**
     * `boomerang_screenshot_take`. The session bus connection, the random
     * number and the ids the bus and GObject hand back are parameters.
     */
    method Take(cancellable: bool, bus: Lifecycle.Connection, n: nat, sid: nat, hid: nat)
      requires Valid() && task.None?
      requires |bus.uniqueName| >= 1 && n < GMaxInt
      modifies this
      ensures Valid() && task.Some?
      ensures State() == Lifecycle.Take(old(State()), cancellable, bus, n, sid, hid)
    {
      task := Some(Lifecycle.Task(cancellable));
      conn := Some(bus);
      RequestScreenshot(n, sid, hid);
    }

    /** `screenshot_take`. */
    method RequestScreenshot(n: nat, sid: nat, hid: nat)
      requires task.Some? && conn.Some? && |conn.value.uniqueName| >= 1 && n < GMaxInt
      requires !hooked && cancelledId == 0
      modifies this
      ensures Valid() && task == old(task)
      ensures State() == Lifecycle.RequestScreenshot(old(State()), n, sid, hid)
    {
      var token := Request.Token(n);
      var sender := Request.SanitizeSender(conn.value.uniqueName);
      objectPath := Request.ObjectPath(sender, token);

      signalId := sid;
      subscribed := sid != 0;
      log := log + [Lifecycle.ResponseSubscription(objectPath, sid)];

      if task.value.cancellable {
        cancelledId := hid;
        hooked := hid != 0;
        log := log + [Lifecycle.HandlerConnect(hid)];
      }

      log := log + [Lifecycle.ScreenshotCall(token)];
      callsInFlight := callsInFlight + 1;
    }

    /** `screenshot_cleanup`, ending the operation by clearing the task. */
    method Cleanup()
      requires Valid()
      modifies this
      ensures Valid() && task.None?
      ensures State() == Lifecycle.Cleanup(old(State()))
    {
      if cancelledId != 0 {
        log := log + [Lifecycle.HandlerDisconnect(cancelledId)];
        hooked := false;
        cancelledId := 0;
      }
      log := log + [Lifecycle.TaskRelease];
      task := None;
      if signalId != 0 {
        log := log + [Lifecycle.SignalUnsubscribe(signalId)];
        subscribed := false;
      }
      log := log + [Lifecycle.PathFree];
      log := log + [Lifecycle.ConnRelease];
    }

    /** `screenshot_take_response_cb`: runs only while subscribed. */
    method OnResponse(response: uint32, results: Vardict)
      requires Valid() && subscribed
      modifies this
      ensures Valid() && task.None? && !subscribed && !hooked
      ensures State() == Lifecycle.ResponseReceived(old(State()), response, results)
    {
      var result := Response.Decode(response, results);
      log := log + [Lifecycle.TaskReturn(result)];
      Cleanup();
    }

    /** `screenshot_cancelled_cb`: runs only while the handler is connected. */
    method OnCancelled()
      requires Valid() && hooked
      modifies this
      ensures Valid() && task.None? && !subscribed && !hooked
      ensures State() == Lifecycle.Cancelled(old(State()))
    {
      log := log + [Lifecycle.CloseCall(objectPath)];
      log := log + [Lifecycle.TaskReturn(Failure(Lifecycle.CancelledError))];
      Cleanup();
    }

    /**
     * `screenshot_take_cb`, guarded: the reply of the `Screenshot` call ends
     * the operation only if it is an error and the operation is still pending.
     */
    method OnAccepted(reply: Result<string, GError>)
      requires Valid() && callsInFlight > 0
      modifies this
      ensures Valid()
      ensures State() == Lifecycle.Accepted(old(State()), reply)
    {
      callsInFlight := callsInFlight - 1;
      if reply.Failure? && task.Some? {
        log := log + [Lifecycle.TaskReturn(Failure(reply.error))];
        Cleanup();
      }
    }

    /**
     * `boomerang_screenshot_finish`: the URI the operation ended with, or
     * the error (and no URI) it failed with.
     */
    method Finish() returns (uri: Option<string>, error: Option<GError>)
      requires Lifecycle.LastResult(log).Some?
      ensures uri.Some? <==> error.None?
      ensures uri.Some? ==> Lifecycle.LastResult(log) == Some(Success(uri.value))
      ensures error.Some? ==> Lifecycle.LastResult(log) == Some(Failure(error.value))
    {
      match Lifecycle.LastResult(log).value
      case Success(u) =>
        uri, error := Some(u), None;
      case Failure(e) =>
        uri, error := None, Some(e);
    }
  }

  /**
   * The application's use of the client: take a screenshot without a
   * cancellable; the portal accepts the call, then answers with a URI; the
   * completion callback finishes with exactly that URI.
   */
  method TakeAndReceive(bus: Lifecycle.Connection, n: nat, sid: nat, hid: nat, handle: string, uri: string)
    returns (got: Option<string>, error: Option<GError>)
    requires |bus.uniqueName| >= 1 && n < GMaxInt && sid != 0
    ensures got == Some(uri) && error.None?
  {
    var bs := new BoomerangScreenshot();
    bs.Take(false, bus, n, sid, hid);
    bs.OnAccepted(Success(handle));
    bs.OnResponse(0, [("uri", VString(uri))]);
    got, error := bs.Finish();
  }
}
