/**
 * Go strings are sequences of bytes. Each byte is modelled as a char below
 * 256, so that the URL templates can be written as literals.
 */
module GoBytes {

  type Byte = c: char | c as int < 256
  type Bytes = seq<Byte>

  /** No byte of `s` is one of `stops`. */
  predicate NoneOf(s: Bytes, stops: set<Byte>)
  {
    forall i :: 0 <= i < |s| ==> s[i] !in stops
  }

  lemma NoneOfConcat(x: Bytes, y: Bytes, stops: set<Byte>)
    requires NoneOf(x, stops) && NoneOf(y, stops)
    ensures NoneOf(x + y, stops)
  {
  }

  /** Position of the first byte of `s` that is one of `stops`, or `|s|` when there is none. */
  function Span(s: Bytes, stops: set<Byte>): (n: nat)
    ensures n <= |s|
    ensures forall i :: 0 <= i < n ==> s[i] !in stops
    ensures n < |s| ==> s[n] in stops
  {
    if s == [] || s[0] in stops then 0 else 1 + Span(s[1..], stops)
  }

  /** The first stop byte is found right after a stop-free prefix. */
  lemma SpanAfter(x: Bytes, y: Bytes, stops: set<Byte>)
    requires NoneOf(x, stops)
    requires y == [] || y[0] in stops
    ensures Span(x + y, stops) == |x|
  {
    assert forall i :: 0 <= i < |x| ==> (x + y)[i] == x[i];
    if y != [] {
      assert (x + y)[|x|] == y[0];
    }
  }

  /** Glues `parts` back together with `d` between consecutive parts. */
  function Join(parts: seq<Bytes>, d: Byte): Bytes
    requires |parts| >= 1
  {
    if |parts| == 1 then parts[0] else parts[0] + [d] + Join(parts[1..], d)
  }

  lemma JoinCons(x: Bytes, rest: seq<Bytes>, d: Byte)
    requires |rest| >= 1
    ensures Join([x] + rest, d) == x + [d] + Join(rest, d)
  {
    assert ([x] + rest)[1..] == rest;
  }

  /** Cuts `s` at every occurrence of `d`, as Go's strings.Split does. */
  function Split(s: Bytes, d: Byte): (parts: seq<Bytes>)
    ensures |parts| >= 1
    ensures forall i :: 0 <= i < |parts| ==> NoneOf(parts[i], {d})
    ensures Join(parts, d) == s
    decreases |s|
  {
    var n := Span(s, {d});
    if n == |s| then
      assert s[..n] == s;
      [s]
    else
      var rest := Split(s[n + 1..], d);
      assert s == s[..n] + [d] + s[n + 1..];
      assert ([s[..n]] + rest)[1..] == rest;
      [s[..n]] + rest
  }

  /** A part free of `d` followed by `d` splits off as one part. */
  lemma SplitCons(x: Bytes, d: Byte, y: Bytes)
    requires NoneOf(x, {d})
    ensures Split(x + [d] + y, d) == [x] + Split(y, d)
  {
    var s := x + [d] + y;
    SpanAfter(x, [d] + y, {d});
    assert s == x + ([d] + y);
    assert s[..|x|] == x;
    assert s[|x| + 1..] == y;
  }

  /** A part free of `d` is not split at all. */
  lemma SplitNone(x: Bytes, d: Byte)
    requires NoneOf(x, {d})
    ensures Split(x, d) == [x]
  {
    SpanAfter(x, [], {d});
    assert x + [] == x;
  }

  /** Splitting undoes joining when no part holds the separator. */
  lemma {:induction false} SplitJoin(parts: seq<Bytes>, d: Byte)
    requires |parts| >= 1
    requires forall i :: 0 <= i < |parts| ==> NoneOf(parts[i], {d})
    ensures Split(Join(parts, d), d) == parts
  {
    if |parts| == 1 {
      SplitNone(parts[0], d);
    } else {
      SplitJoin(parts[1..], d);
      SplitCons(parts[0], d, Join(parts[1..], d));
      assert [parts[0]] + parts[1..] == parts;
    }
  }
}
