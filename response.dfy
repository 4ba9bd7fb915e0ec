/**
 * Decoding the portal's `Response(u response, a{sv} results)` signal into the
 * value the screenshot task is completed with.
 *
 * The portal's response codes are 0 (success), 1 (the user cancelled the
 * interaction) and 2 (the interaction ended in some other way).
 */
module Response {
  import opened Wrappers
  import opened Portal

  const MissingUriMessage: string := "Unable to retrieve URI to screenshot"
  const CancelledMessage: string := "Screenshot taking was cancelled"
  const FailedMessage: string := "Failed to take screenshot"

  /**
   * `g_variant_lookup (results, "uri", "&s", ...)`: only the first `uri`
   * entry is looked at, and it is found only when it holds a string.
   */
  function LookupUri(results: Vardict): (r: Option<string>)
    ensures r.Some? <==> exists i :: FirstWithKey(results, "uri", i) && results[i].1.VString?
    ensures r.Some? ==> exists i :: FirstWithKey(results, "uri", i) && results[i].1 == VString(r.value)
  {
    match LookupValue(results, "uri")
    case Some(VString(uri)) => Some(uri)
    case _ => None
  }

  /**
   * On a dictionary without repeated keys the order of the entries does not
   * matter: any `uri` entry decides the lookup.
   */
  lemma LookupUriDistinctKeys(results: Vardict, i: nat)
    requires DistinctKeys(results) && i < |results| && results[i].0 == "uri"
    ensures LookupUri(results) == if results[i].1.VString? then Some(results[i].1.s) else None
  {
  }

  /** A `uri` entry placed before all others decides the lookup, whatever follows. */
  lemma LookupUriFirstEntryWins(v: Variant, rest: Vardict)
    ensures LookupUri([("uri", v)] + rest) == if v.VString? then Some(v.s) else None
  {
  }

  /**
   * The result a Response signal completes the task with: the URI on success,
   * G_IO_ERROR_CANCELLED for code 1, G_IO_ERROR_FAILED for every other code
   * and for a success whose first `uri` entry is missing or not a string.
   */
  function Decode(response: uint32, results: Vardict): (r: TaskResult)
    ensures r.Success? <==> response == 0 && exists i :: FirstWithKey(results, "uri", i) && results[i].1.VString?
    ensures r.Success? ==> exists i :: FirstWithKey(results, "uri", i) && results[i].1 == VString(r.value)
    ensures r.Failure? ==> r.error.domain == IOErrorDomain
    ensures r.Failure? ==> (IsIOError(r.error, IOErrorCancelled) <==> response == 1)
    ensures r.Failure? ==> (IsIOError(r.error, IOErrorFailed) <==> response != 1)
  {
    if response == 0 then
      match LookupUri(results)
      case Some(uri) => Success(uri)
      case None => Failure(GError(IOErrorDomain, IOErrorFailed, MissingUriMessage))
    else if response == 1 then
      Failure(GError(IOErrorDomain, IOErrorCancelled, CancelledMessage))
    else
      Failure(GError(IOErrorDomain, IOErrorFailed, FailedMessage))
  }

  /** How a screenshot request ended, on the portal's side. */
  datatype PortalOutcome = Taken(uri: string) | UserCancelled | Ended

  /** The Response signal the portal emits for an outcome. */
  function Emit(o: PortalOutcome): (signal: (uint32, Vardict))
    ensures (signal.0 == 0) == o.Taken?
    ensures o.Taken? ==> signal.1 == [("uri", VString(o.uri))]
  {
    match o
    case Taken(uri) => (0, [("uri", VString(uri))])
    case UserCancelled => (1, [])
    case Ended => (2, [])
  }

  /**
   * Decoding what the portal emits recovers its outcome: the URI of a taken
   * screenshot exactly, a cancellation as G_IO_ERROR_CANCELLED and any other
   * end as G_IO_ERROR_FAILED.
   */
  lemma DecodeEmit(o: PortalOutcome)
    ensures var (code, results) := Emit(o);
            match o
            case Taken(uri) => Decode(code, results) == Success(uri)
            case UserCancelled => Decode(code, results).Failure? && IsIOError(Decode(code, results).error, IOErrorCancelled)
            case Ended => Decode(code, results).Failure? && IsIOError(Decode(code, results).error, IOErrorFailed)
  {
  }

  /** A success response without a `uri` string is a failure, not a success with no URI. */
  lemma SuccessWithoutUriFails(results: Vardict)
    requires forall i :: FirstWithKey(results, "uri", i) ==> !results[i].1.VString?
    ensures Decode(0, results) == Failure(GError(IOErrorDomain, IOErrorFailed, MissingUriMessage))
  {
  }

  /**
   * Looking a key up is unaffected by an entry with another key, wherever it
   * is inserted.
   */
  lemma {:induction false} LookupValueInsert(d: Vardict, p: nat, entry: (string, Variant), key: string)
    requires p <= |d| && entry.0 != key
    ensures LookupValue(d[..p] + [entry] + d[p..], key) == LookupValue(d, key)
    decreases p
  {
    var e := d[..p] + [entry] + d[p..];
    if p == 0 {
      assert e == [entry] + d;
      assert e[1..] == d;
    } else {
      assert e[0] == d[0];
      if d[0].0 != key {
        var d' := d[1..];
        assert e[1..] == d'[..p - 1] + [entry] + d'[p - 1..];
        LookupValueInsert(d', p - 1, entry, key);
      }
    }
  }

  /**
   * Only the response code and the first `uri` entry matter: an entry with
   * any other key, inserted anywhere, is ignored.
   */
  lemma DecodeIgnoresOtherEntries(response: uint32, results: Vardict, p: nat, key: string, v: Variant)
    requires p <= |results| && key != "uri"
    ensures Decode(response, results[..p] + [(key, v)] + results[p..]) == Decode(response, results)
  {
    LookupValueInsert(results, p, (key, v), "uri");
  }
}
