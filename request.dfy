/**
 * The request object path the client listens on, and the options of the
 * `Screenshot` call that make the portal emit its `Response` there.
 *
 * The portal's `org.freedesktop.portal.Request` convention places a request at
 * `/org/freedesktop/portal/desktop/request/SENDER/TOKEN`, SENDER being the
 * caller's unique bus name without its leading `:` and with every `.` turned
 * into `_`, and TOKEN the `handle_token` option of the call.
 */
module Request {
  import opened Wrappers
  import opened Portal

  const RequestPrefix: string := "/org/freedesktop/portal/desktop/request/"
  const TokenPrefix: string := "boomerang_"

  // ---------------------------------------------------------------------------
  // Decimal rendering of the random number (`%d` of a non-negative int)

  predicate IsDigit(c: char) { '0' <= c <= '9' }

  predicate AllDigits(s: string) { forall i :: 0 <= i < |s| ==> IsDigit(s[i]) }

  function DigitChar(d: nat): (c: char)
    requires d < 10
    ensures IsDigit(c) && c as int - '0' as int == d
  {
    ('0' as int + d) as char
  }

  /** `%d` of `n`: its shortest decimal representation. */
  function Decimal(n: nat): (s: string)
    ensures |s| >= 1 && AllDigits(s)
    ensures |s| > 1 ==> s[0] != '0'
    decreases n
  {
    if n < 10 then [DigitChar(n)] else Decimal(n / 10) + [DigitChar(n % 10)]
  }

  /** The number a string of decimal digits denotes. */
  function DecimalValue(s: string): nat
    requires AllDigits(s)
  {
    if s == [] then 0
    else DecimalValue(s[..|s| - 1]) * 10 + (s[|s| - 1] as int - '0' as int)
  }

  /** Reading back the rendering gives the number: `%d` loses nothing. */
  lemma {:induction false} DecimalRoundTrip(n: nat)
    ensures DecimalValue(Decimal(n)) == n
    decreases n
  {
    if n >= 10 {
      var s := Decimal(n);
      assert s[..|s| - 1] == Decimal(n / 10);
      DecimalRoundTrip(n / 10);
    }
  }

  lemma DecimalInjective(n: nat, m: nat)
    requires Decimal(n) == Decimal(m)
    ensures n == m
  {
    DecimalRoundTrip(n);
    DecimalRoundTrip(m);
  }

  // ---------------------------------------------------------------------------
  // Token, sender and request path

  /** The `handle_token` of a request: `boomerang_` and the random number. */
  function Token(n: nat): (t: string)
    ensures |t| > |TokenPrefix| && t[..|TokenPrefix|] == TokenPrefix
    ensures forall i :: 0 <= i < |t| ==> PathChar(t[i])
  {
    var t := TokenPrefix + Decimal(n);
    assert forall i :: |TokenPrefix| <= i < |t| ==> IsDigit(t[i]);
    t
  }

  function SanitizeChar(c: char): char { if c == '.' then '_' else c }

  /** Every `.` of `s` turned into `_`, every other character kept. */
  function Sanitize(s: string): (r: string)
    ensures |r| == |s|
    ensures forall i :: 0 <= i < |s| ==> r[i] == SanitizeChar(s[i])
    ensures '.' !in r
  {
    if s == [] then [] else [SanitizeChar(s[0])] + Sanitize(s[1..])
  }

  /**
   * The SENDER element derived from a unique bus name: the name without its
   * first character (the `:`), sanitised.
   */
  function SenderName(uniqueName: string): (sender: string)
    requires |uniqueName| >= 1
    ensures |sender| == |uniqueName| - 1
    ensures '.' !in sender
    ensures forall i :: 0 <= i < |sender| ==>
              sender[i] == if uniqueName[i + 1] == '.' then '_' else uniqueName[i + 1]
  {
    Sanitize(uniqueName[1..])
  }

  /**
   * The in-place rewrite of `screenshot_take`: a copy of the unique name
   * minus its first character, whose `.` are overwritten with `_` one by one.
   */
  method SanitizeSender(uniqueName: string) returns (sender: string)
    requires |uniqueName| >= 1
    ensures sender == SenderName(uniqueName)
  {
    var buf := new char[|uniqueName| - 1](i requires 0 <= i < |uniqueName| - 1 => uniqueName[i + 1]);
    for i := 0 to buf.Length
      invariant forall k :: 0 <= k < i ==> buf[k] == SanitizeChar(uniqueName[k + 1])
      invariant forall k :: i <= k < buf.Length ==> buf[k] == uniqueName[k + 1]
    {
      if buf[i] == '.' {
        buf[i] := '_';
      }
    }
    sender := buf[..];
  }

  /** The request object path for a sender element and a token. */
  function ObjectPath(sender: string, token: string): (p: string)
    ensures |p| == |RequestPrefix| + |sender| + 1 + |token|
    ensures p[..|RequestPrefix|] == RequestPrefix
  {
    RequestPrefix + sender + "/" + token
  }

  /** The options of the `Screenshot` call, in the order they are added. */
  function RequestOptions(token: string): (options: seq<(string, Variant)>)
    ensures LookupValue(options, "interactive") == Some(VBool(false))
    ensures LookupValue(options, "handle_token") == Some(VString(token))
  {
    [("interactive", VBool(false)), ("handle_token", VString(token))]
  }

  // ---------------------------------------------------------------------------
  // The path and the token agree

  /** The part of a path after its last `/` (all of it if there is none). */
  function LastSegment(p: string): (r: string)
    ensures '/' !in r
    ensures |r| <= |p| && r == p[|p| - |r|..]
  {
    if p == [] || p[|p| - 1] == '/' then []
    else LastSegment(p[..|p| - 1]) + [p[|p| - 1]]
  }

  lemma {:induction false} LastSegmentAfterSlash(a: string, t: string)
    requires '/' !in t
    ensures LastSegment(a + "/" + t) == t
    decreases |t|
  {
    if t != [] {
      var p := a + "/" + t;
      assert p[..|p| - 1] == a + "/" + t[..|t| - 1];
      LastSegmentAfterSlash(a, t[..|t| - 1]);
    } else {
      assert a + "/" + t == a + "/";
    }
  }

  /**
   * The portal names the request after the `handle_token` it was sent: the
   * last element of the path the client listens on is exactly that token.
   */
  lemma HandleTokenNamesPath(uniqueName: string, n: nat)
    requires |uniqueName| >= 1
    ensures var path := ObjectPath(SenderName(uniqueName), Token(n));
            LookupValue(RequestOptions(Token(n)), "handle_token") == Some(VString(LastSegment(path)))
  {
    var t := Token(n);
    assert '/' !in t by {
      forall i | 0 <= i < |t| ensures t[i] != '/' { assert PathChar(t[i]); }
    }
    assert ObjectPath(SenderName(uniqueName), t) == (RequestPrefix + SenderName(uniqueName)) + "/" + t;
    LastSegmentAfterSlash(RequestPrefix + SenderName(uniqueName), t);
  }

  /** Distinct random numbers give distinct paths for one sender. */
  lemma PathInjectiveInNumber(sender: string, n: nat, m: nat)
    requires ObjectPath(sender, Token(n)) == ObjectPath(sender, Token(m))
    ensures n == m
  {
    var k := |RequestPrefix| + |sender| + 1 + |TokenPrefix|;
    var p, q := ObjectPath(sender, Token(n)), ObjectPath(sender, Token(m));
    assert p[k..] == Decimal(n);
    assert q[k..] == Decimal(m);
    DecimalInjective(n, m);
  }

  /** Index of the first `/` of `s`, or its length if there is none. */
  function SlashIndex(s: string): (k: nat)
    ensures k <= |s|
  {
    if s == [] || s[0] == '/' then 0 else 1 + SlashIndex(s[1..])
  }

  lemma {:induction false} SlashIndexAfter(x: string, rest: string)
    requires '/' !in x
    ensures SlashIndex(x + "/" + rest) == |x|
    decreases |x|
  {
    if x != [] {
      assert (x + "/" + rest)[1..] == x[1..] + "/" + rest;
      SlashIndexAfter(x[1..], rest);
    }
  }

  /** Without `/` in either part, the path determines its sender and token. */
  lemma PathDeterminesParts(s1: string, t1: string, s2: string, t2: string)
    requires '/' !in s1 && '/' !in s2 && '/' !in t1 && '/' !in t2
    requires ObjectPath(s1, t1) == ObjectPath(s2, t2)
    ensures s1 == s2 && t1 == t2
  {
    var k := |RequestPrefix|;
    var p := ObjectPath(s1, t1);
    assert p[k..] == s1 + "/" + t1 == s2 + "/" + t2;
    var a, b := s1 + "/" + t1, s2 + "/" + t2;
    SlashIndexAfter(s1, t1);
    SlashIndexAfter(s2, t2);
    assert s1 == a[..|s1|] && s2 == b[..|s2|];
    assert t1 == a[|s1| + 1..] && t2 == b[|s2| + 1..];
  }

  // ---------------------------------------------------------------------------
  // Unique names the bus assigns, and D-Bus object path syntax

  /**
   * A unique connection name as the message bus daemon hands them out:
   * `:` followed by digits and dots, such as `:1.42`.
   */
  predicate AssignedUniqueName(u: string) {
    |u| >= 2 && u[0] == ':' && forall i :: 1 <= i < |u| ==> IsDigit(u[i]) || u[i] == '.'
  }

  /** Distinct assigned unique names give distinct sender elements. */
  lemma SenderInjective(u1: string, u2: string)
    requires AssignedUniqueName(u1) && AssignedUniqueName(u2)
    requires SenderName(u1) == SenderName(u2)
    ensures u1 == u2
  {
    var s := SenderName(u1);
    assert |u1| == |u2|;
    forall i | 1 <= i < |u1| ensures u1[i] == u2[i] {
      assert s[i - 1] == SanitizeChar(u1[i]) == SanitizeChar(u2[i]);
    }
  }

  /** Two requests, from distinct connections or with distinct numbers, never share a path. */
  lemma DistinctRequestsDistinctPaths(u1: string, n1: nat, u2: string, n2: nat)
    requires AssignedUniqueName(u1) && AssignedUniqueName(u2)
    requires u1 != u2 || n1 != n2
    ensures ObjectPath(SenderName(u1), Token(n1)) != ObjectPath(SenderName(u2), Token(n2))
  {
    if ObjectPath(SenderName(u1), Token(n1)) == ObjectPath(SenderName(u2), Token(n2)) {
      SenderHasNoSlash(u1);
      SenderHasNoSlash(u2);
      TokenHasNoSlash(n1);
      TokenHasNoSlash(n2);
      PathDeterminesParts(SenderName(u1), Token(n1), SenderName(u2), Token(n2));
      SenderInjective(u1, u2);
      PathInjectiveInNumber(SenderName(u1), n1, n2);
      assert false;
    }
  }

  lemma SenderHasNoSlash(u: string)
    requires AssignedUniqueName(u)
    ensures '/' !in SenderName(u)
    ensures ValidElement(SenderName(u))
  {
    var s := SenderName(u);
    forall i | 0 <= i < |s| ensures PathChar(s[i]) && s[i] != '/' {
      assert IsDigit(u[i + 1]) || u[i + 1] == '.';
    }
  }

  lemma TokenHasNoSlash(n: nat)
    ensures '/' !in Token(n)
  {
    var t := Token(n);
    forall i | 0 <= i < |t| ensures t[i] != '/' { assert PathChar(t[i]); }
  }

  /** Characters allowed in an element of a D-Bus object path. */
  predicate PathChar(c: char) {
    'A' <= c <= 'Z' || 'a' <= c <= 'z' || '0' <= c <= '9' || c == '_'
  }

  predicate ValidElement(e: string) {
    |e| >= 1 && forall i :: 0 <= i < |e| ==> PathChar(e[i])
  }

  /**
   * A valid D-Bus object path: `/` alone, or `/`-separated non-empty elements
   * of `[A-Za-z0-9_]`, beginning with `/` and not ending with one.
   */
  predicate ValidObjectPath(p: string) {
    p == "/" ||
    (|p| >= 2 && p[0] == '/' && p[|p| - 1] != '/' &&
     (forall i :: 0 <= i < |p| ==> p[i] == '/' || PathChar(p[i])) &&
     (forall i :: 0 <= i < |p| - 1 && p[i] == '/' ==> p[i + 1] != '/'))
  }

  lemma AppendElement(p: string, e: string)
    requires ValidObjectPath(p) && p != "/" && ValidElement(e)
    ensures ValidObjectPath(p + "/" + e)
  {
    var q := p + "/" + e;
    forall i | 0 <= i < |q| ensures q[i] == '/' || PathChar(q[i]) {
      if i > |p| { assert q[i] == e[i - |p| - 1]; }
    }
    forall i | 0 <= i < |q| - 1 && q[i] == '/' ensures q[i + 1] != '/' {
      if i < |p| - 1 {
        assert q[i] == p[i] && q[i + 1] == p[i + 1];
      } else if i == |p| {
        assert q[i + 1] == e[0];
      }
    }
  }

  /** The fixed part of the request path, without its trailing `/`. */
  const RequestBase: string := "/org/freedesktop/portal/desktop/request"

  lemma RequestBaseValid()
    ensures ValidObjectPath(RequestBase) && RequestBase + "/" == RequestPrefix
  {
  }

  /**
   * For a unique name the bus assigned, the request path is a valid object
   * path: this is what the `.`-to-`_` rewrite is for, since `.` may not occur
   * in a path element.
   */
  lemma RequestPathValid(uniqueName: string, n: nat)
    requires AssignedUniqueName(uniqueName)
    ensures ValidObjectPath(ObjectPath(SenderName(uniqueName), Token(n)))
  {
    var base := RequestBase;
    var s, t := SenderName(uniqueName), Token(n);
    RequestBaseValid();
    SenderHasNoSlash(uniqueName);
    AppendElement(base, s);
    assert ValidElement(t);
    AppendElement(base + "/" + s, t);
    assert base + "/" == RequestPrefix;
    assert ObjectPath(s, t) == base + "/" + s + "/" + t;
  }
}
