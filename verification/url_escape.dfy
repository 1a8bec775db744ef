/**
 * The percent-encoding of Go's net/url (section 2.1 of RFC 3986) in the two
 * modes the request URLs meet. As a query component (url.QueryEscape,
 * url.QueryUnescape) only the unreserved characters of section 2.3 stand for
 * themselves and space is written `+`, as application/x-www-form-urlencoded
 * does. As a path segment (url.PathEscape, url.PathUnescape) the
 * sub-delimiters `$ & + =` and `:` `@`, which section 3.3 allows in a
 * segment, stand for themselves too, space is `%20`, and `+` is a plus sign.
 */
module UrlEscape {
  import opened Wrappers
  import opened GoBytes

  /** net/url's encoding modes that the model needs. */
  datatype Encoding = QueryComponent | PathSegment

  predicate IsAlnum(b: Byte)
  {
    ('a' <= b <= 'z') || ('A' <= b <= 'Z') || ('0' <= b <= '9')
  }

  /** ALPHA / DIGIT / "-" / "." / "_" / "~". */
  predicate IsUnreserved(b: Byte)
  {
    IsAlnum(b) || b == '-' || b == '.' || b == '_' || b == '~'
  }

  /** The bytes escaping leaves as they are. */
  predicate IsKept(b: Byte, mode: Encoding)
  {
    IsUnreserved(b) || (mode == PathSegment && (b == '$' || b == '&' || b == '+' || b == ':' || b == '=' || b == '@'))
  }

  /** The bytes an escaped value can hold. */
  predicate IsEscapedByte(b: Byte, mode: Encoding)
  {
    IsKept(b, mode) || b == '%' || (mode == QueryComponent && b == '+')
  }

  predicate IsHex(b: Byte)
  {
    ('0' <= b <= '9') || ('a' <= b <= 'f') || ('A' <= b <= 'F')
  }

  /** The upper-case hex digit escaping writes for a nibble. */
  function UpperHex(d: nat): (h: Byte)
    requires d < 16
    ensures IsHex(h) && IsUnreserved(h)
  {
    if d < 10 then ('0' as int + d) as char else ('A' as int + d - 10) as char
  }

  /** The value of a hex digit of either case. */
  function Unhex(b: Byte): (d: nat)
    requires IsHex(b)
    ensures d < 16
    ensures UpperHex(d) == b || ('a' <= b <= 'f' && UpperHex(d) as int == b as int - 32)
  {
    if '0' <= b <= '9' then b as int - '0' as int
    else if 'a' <= b <= 'f' then b as int - 'a' as int + 10
    else b as int - 'A' as int + 10
  }

  function EscapeByte(b: Byte, mode: Encoding): Bytes
  {
    if IsKept(b, mode) then [b]
    else if b == ' ' && mode == QueryComponent then ['+']
    else ['%', UpperHex(b as int / 16), UpperHex(b as int % 16)]
  }

  /** net/url's escape. */
  function Escape(s: Bytes, mode: Encoding): (r: Bytes)
    ensures forall i :: 0 <= i < |r| ==> IsEscapedByte(r[i], mode)
    ensures |s| <= |r| <= 3 * |s|
    ensures (forall i :: 0 <= i < |s| ==> IsKept(s[i], mode)) <==> r == s
  {
    if s == [] then []
    else
      var r := EscapeByte(s[0], mode) + Escape(s[1..], mode);
      assert r[..|EscapeByte(s[0], mode)|] == EscapeByte(s[0], mode);
      r
  }

  /** url.QueryEscape. */
  function QueryEscape(s: Bytes): Bytes
  {
    Escape(s, QueryComponent)
  }

  /** url.PathEscape. */
  function PathEscape(s: Bytes): Bytes
  {
    Escape(s, PathSegment)
  }

  /** The separators of a URL's path and query never appear in a query-escaped value. */
  lemma QueryEscapedHasNoDelimiters(s: Bytes)
    ensures NoneOf(QueryEscape(s), {'/', '?', '&', '=', '#', ' ', ':', ';'})
  {
  }

  /** A path-escaped value cannot end a path segment, the path or the URL. */
  lemma PathEscapedHasNoDelimiters(s: Bytes)
    ensures NoneOf(PathEscape(s), {'/', '?', '#', ' ', ';', ','})
  {
  }

  function Prepend(b: Byte, r: Result<Bytes, Bytes>): Result<Bytes, Bytes>
  {
    match r
    case Success(v) => Success([b] + v)
    case Failure(e) => r
  }

  /**
   * net/url's unescape: url.QueryUnescape as a query component, url.PathUnescape
   * as a path segment. `%` and two hex digits of either case give that byte;
   * `+` gives a space in a query component and stays `+` in a path segment;
   * every other byte stands for itself. The first `%` not followed by two hex
   * digits is an error carrying the (at most three) offending bytes, as
   * url.EscapeError does.
   */
  function Unescape(s: Bytes, mode: Encoding): (r: Result<Bytes, Bytes>)
    ensures r.Success? ==> |r.value| <= |s|
    ensures r.Failure? ==> 1 <= |r.error| <= 3 && r.error[0] == '%'
    ensures NoneOf(s, {'%'}) ==> r.Success?
  {
    if s == [] then Success([])
    else if s[0] == '%' then
      if |s| < 3 || !IsHex(s[1]) || !IsHex(s[2]) then
        Failure(if |s| < 3 then s else s[..3])
      else
        Prepend((Unhex(s[1]) * 16 + Unhex(s[2])) as char, Unescape(s[3..], mode))
    else
      Prepend(if s[0] == '+' && mode == QueryComponent then ' ' else s[0], Unescape(s[1..], mode))
  }

  lemma UnescapeEscapeByte(b: Byte, t: Bytes, mode: Encoding)
    ensures Unescape(EscapeByte(b, mode) + t, mode) == Prepend(b, Unescape(t, mode))
  {
    var s := EscapeByte(b, mode) + t;
    if IsKept(b, mode) {
      assert s[1..] == t;
    } else if b == ' ' && mode == QueryComponent {
      assert s[1..] == t;
    } else {
      assert s[3..] == t;
      assert Unhex(s[1]) == b as int / 16;
      assert Unhex(s[2]) == b as int % 16;
    }
  }

  /** Every escaped value decodes back to itself in the same mode. */
  lemma {:induction false} UnescapeEscape(s: Bytes, mode: Encoding)
    ensures Unescape(Escape(s, mode), mode) == Success(s)
  {
    if s != [] {
      UnescapeEscape(s[1..], mode);
      UnescapeEscapeByte(s[0], Escape(s[1..], mode), mode);
      assert [s[0]] + s[1..] == s;
    }
  }

  /** Escaping loses nothing: distinct values have distinct escapes. */
  lemma EscapeInjective(s: Bytes, t: Bytes, mode: Encoding)
    requires Escape(s, mode) == Escape(t, mode)
    ensures s == t
  {
    UnescapeEscape(s, mode);
    UnescapeEscape(t, mode);
  }

  /** A value without `%` (and, in a query component, without `+`) decodes to itself. */
  lemma {:induction false} UnescapeVerbatim(s: Bytes, mode: Encoding)
    requires NoneOf(s, {'%'})
    requires mode == QueryComponent ==> NoneOf(s, {'+'})
    ensures Unescape(s, mode) == Success(s)
  {
    if s != [] {
      UnescapeVerbatim(s[1..], mode);
      assert [s[0]] + s[1..] == s;
    }
  }

  /** A `%` not followed by two hex digits is refused wherever it stands after a well-formed prefix. */
  lemma {:induction false} UnescapeRejectsBadPercent(s: Bytes, t: Bytes, mode: Encoding)
    requires Unescape(s, mode).Success?
    requires |t| >= 1 && t[0] == '%'
    requires |t| < 3 || !IsHex(t[1]) || !IsHex(t[2])
    ensures Unescape(s + t, mode).Failure?
    decreases |s|
  {
    if s != [] {
      if s[0] == '%' {
        assert (s + t)[1] == s[1] && (s + t)[2] == s[2];
        assert (s + t)[3..] == s[3..] + t;
        UnescapeRejectsBadPercent(s[3..], t, mode);
      } else {
        assert (s + t)[1..] == s[1..] + t;
        UnescapeRejectsBadPercent(s[1..], t, mode);
      }
    }
  }

  /** A `%` at position `k` of `s` that is not followed by two hex digits. */
  predicate BadEscapeAt(s: Bytes, k: int)
  {
    0 <= k < |s| && s[k] == '%' && (k + 2 >= |s| || !IsHex(s[k + 1]) || !IsHex(s[k + 2]))
  }

  /** The bytes url.EscapeError reports for a bad escape at `k`: at most three, from the `%` on. */
  function EscapeErrorAt(s: Bytes, k: int): Bytes
    requires 0 <= k < |s|
  {
    s[k..if k + 3 <= |s| then k + 3 else |s|]
  }

  /** After one decoding step of `d` bytes, the bad escapes of `s` are those of `s[d..]`, shifted by `d`. */
  lemma BadEscapeStep(s: Bytes, d: nat)
    requires (d == 1 && |s| >= 1 && s[0] != '%') || (d == 3 && |s| >= 3 && s[0] == '%' && IsHex(s[1]) && IsHex(s[2]))
    ensures forall k :: 0 <= k < d ==> !BadEscapeAt(s, k)
    ensures forall k :: d <= k < |s| ==> (BadEscapeAt(s, k) <==> BadEscapeAt(s[d..], k - d))
    ensures forall k :: d <= k < |s| ==> EscapeErrorAt(s, k) == EscapeErrorAt(s[d..], k - d)
  {
    forall k | d <= k < |s|
      ensures EscapeErrorAt(s, k) == EscapeErrorAt(s[d..], k - d)
    {
      var e := if k + 3 <= |s| then k + 3 else |s|;
      assert s[d..][k - d..e - d] == s[k..e];
    }
  }

  /**
   * Decoding fails exactly when some `%` is not followed by two hex digits,
   * and the error is the first such escape, cut to three bytes.
   */
  lemma {:induction false} UnescapeFailsAtFirstBadEscape(s: Bytes, mode: Encoding)
    ensures Unescape(s, mode).Failure? <==> exists k :: BadEscapeAt(s, k)
    ensures Unescape(s, mode).Failure? ==>
      exists k :: BadEscapeAt(s, k) && (forall j :: 0 <= j < k ==> !BadEscapeAt(s, j))
                  && Unescape(s, mode).error == EscapeErrorAt(s, k)
    decreases |s|
  {
    if s == [] {
    } else if BadEscapeAt(s, 0) {
      assert Unescape(s, mode).error == EscapeErrorAt(s, 0);
    } else {
      var d := if s[0] == '%' then 3 else 1;
      BadEscapeStep(s, d);
      UnescapeFailsAtFirstBadEscape(s[d..], mode);
      var t := s[d..];
      if exists k :: BadEscapeAt(t, k) {
        var k :| BadEscapeAt(t, k);
        assert BadEscapeAt(s, k + d);
      }
      if exists k :: BadEscapeAt(s, k) {
        var k :| BadEscapeAt(s, k);
        assert BadEscapeAt(t, k - d);
      }
      if Unescape(t, mode).Failure? {
        var k :| BadEscapeAt(t, k) && (forall j :: 0 <= j < k ==> !BadEscapeAt(t, j))
                 && Unescape(t, mode).error == EscapeErrorAt(t, k);
        assert BadEscapeAt(s, k + d);
        assert forall j :: 0 <= j < k + d ==> !BadEscapeAt(s, j) by {
          forall j | 0 <= j < k + d
            ensures !BadEscapeAt(s, j)
          {
            if j >= d {
              assert !BadEscapeAt(t, j - d);
            }
          }
        }
        assert Unescape(s, mode).error == EscapeErrorAt(s, k + d);
      }
    }
  }

  /** `s` with every space replaced by `+`. */
  function SpacesAsPlus(s: Bytes): (r: Bytes)
    ensures |r| == |s|
    ensures forall i :: 0 <= i < |s| ==> r[i] == (if s[i] == ' ' then '+' else s[i])
    ensures r == s <==> NoneOf(s, {' '})
  {
    if s == [] then [] else [if s[0] == ' ' then '+' else s[0]] + SpacesAsPlus(s[1..])
  }

  lemma PathUnescapeQueryEscapedByte(b: Byte, t: Bytes)
    ensures Unescape(EscapeByte(b, QueryComponent) + t, PathSegment)
      == Prepend(if b == ' ' then '+' else b, Unescape(t, PathSegment))
  {
    var s := EscapeByte(b, QueryComponent) + t;
    if IsKept(b, QueryComponent) || b == ' ' {
      assert s[1..] == t;
    } else {
      assert s[3..] == t;
      assert Unhex(s[1]) == b as int / 16;
      assert Unhex(s[2]) == b as int % 16;
    }
  }

  /**
   * A query-escaped value read with path-segment rules decodes to the
   * original with each space turned into `+`: the two encodings agree on
   * everything but space.
   */
  lemma {:induction false} PathUnescapeQueryEscaped(s: Bytes)
    ensures Unescape(QueryEscape(s), PathSegment) == Success(SpacesAsPlus(s))
  {
    if s != [] {
      PathUnescapeQueryEscaped(s[1..]);
      PathUnescapeQueryEscapedByte(s[0], QueryEscape(s[1..]));
    }
  }
}
