/**
 * Values that cross the session bus between the screenshot client and the
 * desktop portal: unsigned 32-bit integers, variants, vardicts, GLib errors
 * and the names the client addresses.
 */
module Portal {
  import opened Wrappers

  /** D-Bus type `u`. */
  newtype uint32 = x: int | 0 <= x < 0x1_0000_0000

  /** GLib's `G_MAXINT`, the exclusive upper bound of the token's random number. */
  const GMaxInt: int := 0x7fff_ffff

  /** Well-known name of the portal service (`PORTAL_BUS`). */
  const PortalBus: string := "org.freedesktop.portal.Desktop"
  /** Object on which the portal implements its interfaces. */
  const DesktopPath: string := "/org/freedesktop/portal/desktop"
  const ScreenshotInterface: string := "org.freedesktop.portal.Screenshot"
  const RequestInterface: string := "org.freedesktop.portal.Request"

  /** The variant values the client sends or looks at. */
  datatype Variant = VBool(b: bool) | VString(s: string) | VUint32(u: uint32)

  /**
   * An `a{sv}` dictionary as its entries in order. A GVariant dictionary is
   * an array of entries, so a key may occur more than once.
   */
  type Vardict = seq<(string, Variant)>

  /** Entry `i` is the first one of `d` whose key is `key`. */
  predicate FirstWithKey(d: Vardict, key: string, i: int) {
    0 <= i < |d| && d[i].0 == key && forall j :: 0 <= j < i ==> d[j].0 != key
  }

  /** No key occurs twice in `d`, as when the dictionary was built from a map. */
  predicate DistinctKeys(d: Vardict) {
    forall i, j :: 0 <= i < j < |d| ==> d[i].0 != d[j].0
  }

  /** A GError: its domain, its code within the domain and its message. */
  datatype ErrorDomain = IOErrorDomain | OtherDomain(name: string)
  datatype GError = GError(domain: ErrorDomain, code: int, message: string)

  /** Codes of `GIOErrorEnum` the client returns. */
  const IOErrorFailed: int := 0
  const IOErrorCancelled: int := 19

  predicate IsIOError(e: GError, code: int) {
    e.domain == IOErrorDomain && e.code == code
  }

  /** What a GTask is completed with: a string pointer (the URI) or an error. */
  type TaskResult = Result<string, GError>

  /**
   * Arguments of an outgoing method call: none (`Close`), or the
   * `(sa{sv})` tuple of `Screenshot`, its dictionary kept in builder order.
   */
  datatype Args = NoArgs | ScreenshotArgs(parentWindow: string, options: Vardict)

  /**
   * `g_variant_lookup_value` without an expected type: the value of the first
   * entry with that key, if there is one.
   */
  function LookupValue(d: Vardict, key: string): (r: Option<Variant>)
    ensures r.Some? <==> exists i :: 0 <= i < |d| && d[i].0 == key
    ensures r.Some? ==> exists i :: FirstWithKey(d, key, i) && d[i].1 == r.value
  {
    if d == [] then None
    else if d[0].0 == key then
      assert FirstWithKey(d, key, 0);
      Some(d[0].1)
    else
      assert forall i :: FirstWithKey(d[1..], key, i) ==> FirstWithKey(d, key, i + 1);
      LookupValue(d[1..], key)
  }
}
