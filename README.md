# Boomerang screenshot portal client, modelled in Dafny

Boomerang takes a screenshot by asking the XDG desktop portal
(`org.freedesktop.portal.Screenshot`) over the D-Bus session bus, waiting for
the portal's `Response` signal on a request object, and handing the resulting
file URI (or an error) to its caller. This project models the client in
`src/boomerang-screenshot.c`:

- **Request path** (module `Request`): the `handle_token` `boomerang_<n>`; the
  sender element (the connection's unique name without its `:`, every `.`
  turned into `_`, done in place over a character buffer by
  `SanitizeSender`); the request path
  `/org/freedesktop/portal/desktop/request/<sender>/<token>`; and the options
  of the `Screenshot` call. The properties proved are the ones the portal's
  `org.freedesktop.portal.Request` convention and the "Valid Object Paths"
  rules of the D-Bus Specification ask for. The path's last element is the
  token that was sent. Distinct numbers or distinct bus-assigned unique names
  give distinct paths. The path is a valid object path.
- **Response decoding** (module `Response`): code 0 with a `uri` string gives
  that URI. Code 0 without one gives `G_IO_ERROR_FAILED`. Code 1 gives
  `G_IO_ERROR_CANCELLED`. Every other code gives `G_IO_ERROR_FAILED`.
- **Lifecycle** (module `Lifecycle`, values; module `Screenshot`, the class):
  the fields `task`, `conn`, `object_path`, `signal_id` and `cancelled_id`,
  the outgoing calls and releases as an ordered log, and ghost flags for what
  the bus and the cancellable hold (the Response subscription, the
  "cancelled" handler, the `Screenshot` calls still awaiting their reply).
  Each method of `Screenshot.BoomerangScreenshot` is specified by the
  `Lifecycle` function of the same step. Over these the model proves two
  things. First, after `Take`, any order of dispatched Responses,
  cancellations and call replies completes the operation at most once.
  Second, it releases the task, the object path, the connection and the
  subscription exactly once with that completion. Both hold for the client
  with the pending check added to the accept callback (`Lifecycle.Accepted`).
  As written, both fail (`Lifecycle.AcceptAfterCancelAsWritten`, see
  "Findings").

All callbacks run on one GLib main loop, so they are modelled as sequential
steps. The bus connection, the random number, and the ids that the bus
(`g_dbus_connection_signal_subscribe`) and GObject (`g_signal_connect`) hand
back are parameters. The caller must not start a second `Take` while one is
pending. The code does not check this. The model states it as a
precondition.

## Model

| member | source | states |
|---|---|---|
| `Request.Decimal` | src/boomerang-screenshot.c:130 | `%d` of a non-negative number is a non-empty string of digits without a leading zero |
| `Request.DecimalRoundTrip` | src/boomerang-screenshot.c:130 | reading the decimal rendering back gives the number |
| `Request.DecimalInjective` | src/boomerang-screenshot.c:130 | distinct numbers render differently |
| `Request.Token` | src/boomerang-screenshot.c:130 | the token starts with `boomerang_` and holds only object-path characters |
| `Request.Sanitize` | src/boomerang-screenshot.c:132-134 | same length, every `.` becomes `_`, every other character kept, no `.` left |
| `Request.SenderName` | src/boomerang-screenshot.c:131-134 | the sender is the unique name minus its first character, sanitised: one shorter, no `.` |
| `Request.SanitizeSender` | src/boomerang-screenshot.c:131-134 | the in-place loop over the copied buffer yields exactly `SenderName` |
| `Request.ObjectPath` | src/boomerang-screenshot.c:135 | the path starts with the request prefix and has the length of prefix, sender, `/` and token |
| `Request.RequestOptions` | src/boomerang-screenshot.c:153-157 | the options carry `interactive = false` and `handle_token` equal to the token |
| `Request.HandleTokenNamesPath` | src/boomerang-screenshot.c:130-157 | the `handle_token` sent is the last element of the path listened on |
| `Request.PathInjectiveInNumber` | src/boomerang-screenshot.c:130-135 | for one sender, distinct random numbers give distinct paths |
| `Request.PathDeterminesParts` | src/boomerang-screenshot.c:135 | without `/` in them, the path determines its sender and token |
| `Request.SenderInjective` | src/boomerang-screenshot.c:131-134 | distinct bus-assigned unique names (`:` then digits and dots) give distinct senders |
| `Request.DistinctRequestsDistinctPaths` | src/boomerang-screenshot.c:130-135 | two requests differing in unique name or number never share a path |
| `Request.RequestPathValid` | src/boomerang-screenshot.c:131-135 | for a bus-assigned unique name the request path is a valid D-Bus object path |
| `Portal.LookupValue` | src/boomerang-screenshot.c:72-73 | the dictionary lookup underneath `g_variant_lookup`: found iff some entry has the key, and then it is the value of the first such entry |
| `Response.LookupUri` | src/boomerang-screenshot.c:72-73 | as `g_variant_lookup`: the URI is found exactly when the first entry keyed `uri` holds a string, and it is that string; later `uri` entries are not looked at |
| `Response.LookupUriDistinctKeys` | src/boomerang-screenshot.c:72-73 | when no key repeats, any `uri` entry decides the lookup, so entry order does not matter |
| `Response.LookupUriFirstEntryWins` | src/boomerang-screenshot.c:72-73 | a leading `uri` entry decides the lookup whatever follows it |
| `Response.Decode` | src/boomerang-screenshot.c:66-85 | success iff code 0 and the first `uri` entry is a string, carrying it; otherwise an I/O error, CANCELLED iff code 1, FAILED iff not |
| `Response.DecodeEmit` | src/boomerang-screenshot.c:66-85 | decoding what the portal emits for taken / user-cancelled / other recovers the URI, CANCELLED, FAILED |
| `Response.SuccessWithoutUriFails` | src/boomerang-screenshot.c:70-76 | code 0 whose first `uri` entry is missing or not a string fails with FAILED and its message |
| `Response.DecodeIgnoresOtherEntries` | src/boomerang-screenshot.c:68-73 | an entry with a key other than `uri`, inserted anywhere in the dictionary, does not affect the result |
| `Lifecycle.Init` | src/boomerang-screenshot.c:42-45 | a new client has no operation, no subscription, no handler and an empty log |
| `Lifecycle.RequestScreenshot` | src/boomerang-screenshot.c:126-167 | path derived from unique name and token; subscription to `Request.Response` on that path first, handler only with a cancellable and its id kept only then, `Screenshot` call last |
| `Lifecycle.Take` | src/boomerang-screenshot.c:169-180 | a pending operation with a new task and the connection, listening on the derived path, hooked iff it has a cancellable |
| `Lifecycle.CleanupOrder` | src/boomerang-screenshot.c:47-59 | disconnect iff handler id non-zero, unsubscribe iff signal id non-zero, task and path always released, connection released last |
| `Lifecycle.Release` | src/boomerang-screenshot.c:47-59 | cleanup as written: handler id cleared, subscription and handler gone, task and signal id fields untouched |
| `Lifecycle.Cleanup` | src/boomerang-screenshot.c:47-59 | cleanup ends the operation and keeps fields and world consistent |
| `Lifecycle.CleanupCounts` | src/boomerang-screenshot.c:47-59 | one cleanup releases task, object path and connection once and the subscription once if there is one |
| `Lifecycle.ResponseReceived` | src/boomerang-screenshot.c:61-88 | the operation ends and the caller's result is the decoded Response |
| `Lifecycle.Cancelled` | src/boomerang-screenshot.c:90-106 | `Close` goes first, to the stored path; the operation ends as CANCELLED |
| `Lifecycle.Accepted` | src/boomerang-screenshot.c:108-124 | a successful reply changes nothing; an error ends a pending operation with that error and is ignored once it ended |
| `Lifecycle.AcceptedAsWritten` | src/boomerang-screenshot.c:108-124 | as written, any error reply returns it and runs the cleanup |
| `Lifecycle.LastResult` | src/boomerang-screenshot.c:182-189 | the result propagated to the caller is the most recently returned one: it occurs in the log and no result is returned after it |
| `Lifecycle.TakeStartsOperation` | src/boomerang-screenshot.c:169-180 | `Take` starts an operation with nothing yet returned or released |
| `Lifecycle.DeliverPreserves` | src/boomerang-screenshot.c:61-124 | every dispatched callback keeps the exactly-once accounting of the operation |
| `Lifecycle.CompletionExactlyOnce` | src/boomerang-screenshot.c:47-124 | any order of dispatched triggers: at most one result; task, object path, connection, subscription released once with it; ended means nothing left registered |
| `Lifecycle.LateTriggerIgnored` | src/boomerang-screenshot.c:47-59 | after the operation ended, nothing dispatched changes the log or the caller's result |
| `Lifecycle.ScenarioUri` | src/boomerang-screenshot.c:61-88 | Response `(0, {uri: u})` after `Take` gives the caller exactly `u` |
| `Lifecycle.ScenarioCancel` | src/boomerang-screenshot.c:90-106 | cancelling after `Take` ends as CANCELLED with `Close` sent to the very path subscribed |
| `Lifecycle.NoCancellableNoHook` | src/boomerang-screenshot.c:148-151 | without a cancellable no handler is connected |
| `Lifecycle.AcceptAfterCancelAsWritten` | src/boomerang-screenshot.c:108-124 | as written, cancel then a failed call reply returns twice and releases everything twice; guarded, the reply changes nothing |
| `Lifecycle.LateFailureAsWritten` | src/boomerang-screenshot.c:108-124 | as written, a failed call reply after the operation ended completes it a second time |
| `Screenshot.BoomerangScreenshot.constructor` | src/boomerang-screenshot.c:42-45 | the new object is in the initial state |
| `Screenshot.BoomerangScreenshot.Take` | src/boomerang-screenshot.c:169-180 | the object's new state is `Lifecycle.Take` of its old one |
| `Screenshot.BoomerangScreenshot.RequestScreenshot` | src/boomerang-screenshot.c:126-167 | the object's new state is `Lifecycle.RequestScreenshot` of its old one |
| `Screenshot.BoomerangScreenshot.Cleanup` | src/boomerang-screenshot.c:47-59 | the object's new state is `Lifecycle.Cleanup` of its old one |
| `Screenshot.BoomerangScreenshot.OnResponse` | src/boomerang-screenshot.c:61-88 | runs only while subscribed; ends with nothing registered; state per `Lifecycle.ResponseReceived` |
| `Screenshot.BoomerangScreenshot.OnCancelled` | src/boomerang-screenshot.c:90-106 | runs only while hooked; ends with nothing registered; state per `Lifecycle.Cancelled` |
| `Screenshot.BoomerangScreenshot.OnAccepted` | src/boomerang-screenshot.c:108-124 | runs once per issued call; state per `Lifecycle.Accepted` |
| `Screenshot.BoomerangScreenshot.Finish` | src/boomerang-screenshot.c:182-189 | exactly one of URI and error, matching the operation's result |
| `Screenshot.TakeAndReceive` | src/boomerang-application.c:44-100 | the application's flow (no cancellable, call accepted, Response with a URI) finishes with exactly that URI |

## Left out

- D-Bus transport and GVariant marshalling: calls, subscriptions and releases are log entries, and an `a{sv}` is its sequence of entries with values of three variant kinds (boolean, string, uint32).
- `g_bus_get_sync`: the connection is a parameter. Its failure is not checked at src/boomerang-screenshot.c:176-177, so the model has no error path for it.
- `g_random_int_range`: the number is a parameter bounded by `G_MAXINT`. So are the ids returned by `g_dbus_connection_signal_subscribe` and `g_signal_connect`. Id 0 is allowed and means nothing was registered.
- GTask internals: a task's reference count is one release event. The completion callback's own code is not modelled. GTask may run it inside `g_task_return_*` itself, so before the cleanup that follows (src/boomerang-screenshot.c:74-87 and :121-122), or later from an idle source, as it typically does when the return happens in the "cancelled" handler (src/boomerang-screenshot.c:103). Also not modelled: the check-cancellable override under which `g_task_propagate_pointer` reports a cancelled cancellable as CANCELLED whatever was returned.
- `g_return_if_fail` type checks on `self` and on the result: programmer errors, not behaviour.
- C strings are modelled by their characters without the terminating NUL. The unique name must be non-empty, as the `+ 1` at src/boomerang-screenshot.c:131 needs.
- Reusing one object for several operations: a stale reply to an earlier operation's call is counted against the current one, but it is not told apart from that operation's own reply.
- `signal_id` (`guint`) and `cancelled_id` (`gulong`) are unbounded naturals. Their widths never matter here.
- Lifecycle.Take and Lifecycle.Complete: a result is returned and the cleanup runs in one step. So a new `Take` issued from the completion callback while it runs inside `g_task_return_*` is not modelled (`Take` requires that no operation is pending). In the code, the cleanup that follows such a callback would unsubscribe the new operation's `signal_id`, free its `object_path` and release its task and connection.
- Lifecycle.Cleanup, Screenshot.BoomerangScreenshot.Cleanup, Lifecycle.Accepted and Screenshot.BoomerangScreenshot.OnAccepted: the two cleanups also clear the task pointer, and the two accept callbacks do nothing once the operation has ended. That is the correction of the finding below. The code as written leaves the pointer dangling (`Lifecycle.Release`) and has no pending check in the accept callback (`Lifecycle.AcceptedAsWritten`).
- The rest of the repository: the OpenGL canvas and its zoom and flashlight state (src/boomerang-canvas.c), the GTK application and URI-to-filename conversion (src/boomerang-application.c), the GNOME Shell extension (extension/src/extension.js), the entry point (src/main.c), and the headers, which are declarations only.

## Findings

| source | as written | input that shows it | evidently intended | confidence | as-written member | corrected member |
|---|---|---|---|---|---|---|
| src/boomerang-screenshot.c:108-124 | The accept callback returns any error on the task and runs the cleanup without checking that the operation is still pending. The `Screenshot` call at lines 161-166 carries no cancellable, so its reply is always delivered. | `Take` with a cancellable. The caller cancels before the portal answers the call. The call then fails, e.g. it times out because the portal is unresponsive. The task gets a second result after it was released, and the cleanup runs again: a double unref of task and connection, a double `g_free` of `object_path`, and a double unsubscribe of the stale `signal_id`. | An error reply that arrives after the operation ended is ignored, so the operation completes and cleans up exactly once. | medium; not executed. The application passes no cancellable, so it cannot reach this. | `Lifecycle.AcceptAfterCancelAsWritten` | `Lifecycle.CompletionExactlyOnce` |
