/**
 * How a server reads an `http://` request target: the split of section 3 of
 * RFC 3986 into authority, path, query and fragment, and the query read as
 * `&`-separated `key=value` fields.
 */
module HttpUrl {
  import opened Wrappers
  import opened GoBytes

  datatype Url = Url(host: Bytes, path: Bytes, query: Option<Bytes>, fragment: Option<Bytes>)

  datatype Param = Param(key: Bytes, value: Bytes)

  const Scheme: Bytes := "http://"
  /** The authority ends at the first of these. */
  const HostEnd: set<Byte> := {'/', '?', '#'}
  /** The path ends at the first of these. */
  const PathEnd: set<Byte> := {'?', '#'}

  /** Query and fragment from what follows the path (empty, or starting with `?` or `#`). */
  function SplitTail(tail: Bytes): (Option<Bytes>, Option<Bytes>)
  {
    if tail == [] then (None, None)
    else if tail[0] == '#' then (None, Some(tail[1..]))
    else
      var rest := tail[1..];
      var q := Span(rest, {'#'});
      (Some(rest[..q]), if q == |rest| then None else Some(rest[q + 1..]))
  }

  function Parse(u: Bytes): (r: Option<Url>)
    ensures r.Some? ==> NoneOf(r.value.host, HostEnd) && NoneOf(r.value.path, PathEnd)
  {
    if |u| < |Scheme| || u[..|Scheme|] != Scheme then None
    else
      var rest := u[|Scheme|..];
      var h := Span(rest, HostEnd);
      var afterHost := rest[h..];
      var p := Span(afterHost, PathEnd);
      var tail := SplitTail(afterHost[p..]);
      Some(Url(rest[..h], afterHost[..p], tail.0, tail.1))
  }

  /** A field `key=value`; a field without `=` is a key with an empty value. */
  function ParamOf(field: Bytes): (p: Param)
    ensures NoneOf(p.key, {'='})
  {
    var n := Span(field, {'='});
    if n == |field| then Param(field, []) else Param(field[..n], field[n + 1..])
  }

  function Params(query: Bytes): (ps: seq<Param>)
    ensures |ps| == |Split(query, '&')|
  {
    var fields := Split(query, '&');
    seq(|fields|, i requires 0 <= i < |fields| => ParamOf(fields[i]))
  }

  /** A tail `?query` without `#` is all query. */
  lemma SplitTailQuery(query: Bytes)
    requires NoneOf(query, {'#'})
    ensures SplitTail(['?'] + query) == (Some(query), None)
  {
    assert (['?'] + query)[1..] == query;
    SpanAfter(query, [], {'#'});
    assert query + [] == query;
    assert query[..|query|] == query;
  }

  /** Host, then a tail that starts at the first byte of HostEnd. */
  lemma CutHost(host: Bytes, tail: Bytes)
    requires NoneOf(host, HostEnd)
    requires tail == [] || tail[0] in HostEnd
    ensures Span(host + tail, HostEnd) == |host|
    ensures (host + tail)[..|host|] == host && (host + tail)[|host|..] == tail
  {
    SpanAfter(host, tail, HostEnd);
  }

  /** Path, then a tail that starts at the first byte of PathEnd. */
  lemma CutPath(path: Bytes, tail: Bytes)
    requires NoneOf(path, PathEnd)
    requires tail == [] || tail[0] in PathEnd
    ensures Span(path + tail, PathEnd) == |path|
    ensures (path + tail)[..|path|] == path && (path + tail)[|path|..] == tail
  {
    SpanAfter(path, tail, PathEnd);
  }

  /** The target is read back into the host, path and query it was built from. */
  lemma ParseComposed(host: Bytes, path: Bytes, query: Bytes)
    requires NoneOf(host, HostEnd)
    requires |path| >= 1 && path[0] == '/' && NoneOf(path, PathEnd)
    requires NoneOf(query, {'#'})
    ensures Parse(Scheme + host + path + ['?'] + query) == Some(Url(host, path, Some(query), None))
  {
    var tail := ['?'] + query;
    var afterHost := path + tail;
    var rest := host + afterHost;
    var u := Scheme + rest;
    assert Scheme + host + path + ['?'] + query == u;
    assert u[..|Scheme|] == Scheme && u[|Scheme|..] == rest;
    CutHost(host, afterHost);
    CutPath(path, tail);
    SplitTailQuery(query);
  }

  /** A field whose key holds no `=` is read back as that key and value. */
  lemma ParamOfField(key: Bytes, value: Bytes)
    requires NoneOf(key, {'='})
    ensures ParamOf(key + "=" + value) == Param(key, value)
  {
    var f := key + ['='] + value;
    SpanAfter(key, ['='] + value, {'='});
    assert f == key + (['='] + value);
    assert f[..|key|] == key;
    assert f[|key| + 1..] == value;
  }

  /** The path `/seg1/seg2/…`. */
  function PathOf(segs: seq<Bytes>): Bytes
  {
    if segs == [] then [] else "/" + segs[0] + PathOf(segs[1..])
  }

  /** The field `key=value` of a query. */
  function Field(p: Param): Bytes
  {
    p.key + "=" + p.value
  }

  /** The query string `k1=v1&k2=v2&…` that carries `ps` in order. */
  function QueryOf(ps: seq<Param>): Bytes
    requires |ps| >= 1
  {
    if |ps| == 1 then Field(ps[0]) else Field(ps[0]) + "&" + QueryOf(ps[1..])
  }

  lemma SlashAssoc(a: Bytes, b: Bytes, c: Bytes)
    ensures a + ("/" + b + c) == a + ['/'] + (b + c)
  {
  }

  lemma {:induction false} SplitSegments(first: Bytes, segs: seq<Bytes>)
    requires NoneOf(first, {'/'})
    requires forall i :: 0 <= i < |segs| ==> NoneOf(segs[i], {'/'})
    ensures Split(first + PathOf(segs), '/') == [first] + segs
    decreases |segs|
  {
    if segs == [] {
      assert first + [] == first;
      SplitNone(first, '/');
    } else {
      var tail := segs[1..];
      assert forall i :: 0 <= i < |tail| ==> tail[i] == segs[i + 1];
      SplitSegments(segs[0], tail);
      var rest := segs[0] + PathOf(tail);
      SlashAssoc(first, segs[0], PathOf(tail));
      SplitCons(first, '/', rest);
      assert [segs[0]] + tail == segs;
    }
  }

  /** A path built from segments without `/` is read back as an empty segment and those segments. */
  lemma SplitPathOf(segs: seq<Bytes>)
    requires forall i :: 0 <= i < |segs| ==> NoneOf(segs[i], {'/'})
    ensures Split(PathOf(segs), '/') == [[]] + segs
  {
    SplitSegments([], segs);
    assert [] + PathOf(segs) == PathOf(segs);
  }

  lemma {:induction false} PathOfNoneOf(segs: seq<Bytes>, stops: set<Byte>)
    requires '/' !in stops
    requires forall i :: 0 <= i < |segs| ==> NoneOf(segs[i], stops)
    ensures NoneOf(PathOf(segs), stops)
  {
    if segs != [] {
      PathOfNoneOf(segs[1..], stops);
      var slash: Bytes := "/";
      NoneOfConcat(slash, segs[0], stops);
      NoneOfConcat(slash + segs[0], PathOf(segs[1..]), stops);
    }
  }

  lemma {:induction false} QueryOfNoneOf(ps: seq<Param>, stops: set<Byte>)
    requires |ps| >= 1
    requires '=' !in stops && '&' !in stops
    requires forall i :: 0 <= i < |ps| ==> NoneOf(ps[i].key, stops) && NoneOf(ps[i].value, stops)
    ensures NoneOf(QueryOf(ps), stops)
  {
    var eq: Bytes := "=";
    NoneOfConcat(ps[0].key, eq, stops);
    NoneOfConcat(ps[0].key + eq, ps[0].value, stops);
    if |ps| > 1 {
      QueryOfNoneOf(ps[1..], stops);
      var amp: Bytes := "&";
      NoneOfConcat(Field(ps[0]), amp, stops);
      NoneOfConcat(Field(ps[0]) + amp, QueryOf(ps[1..]), stops);
    }
  }

  /** A query built from keys without `=` or `&` and values without `&` is read back field by field, in order. */
  lemma {:induction false} ParamsQueryOf(ps: seq<Param>)
    requires |ps| >= 1
    requires forall i :: 0 <= i < |ps| ==> NoneOf(ps[i].key, {'=', '&'}) && NoneOf(ps[i].value, {'&'})
    ensures Params(QueryOf(ps)) == ps
  {
    var f := Field(ps[0]);
    var eq: Bytes := "=";
    NoneOfConcat(ps[0].key, eq, {'&'});
    NoneOfConcat(ps[0].key + eq, ps[0].value, {'&'});
    ParamOfField(ps[0].key, ps[0].value);
    if |ps| == 1 {
      SplitNone(f, '&');
    } else {
      ParamsQueryOf(ps[1..]);
      SplitCons(f, '&', QueryOf(ps[1..]));
      var fields := Split(QueryOf(ps), '&');
      assert fields == [f] + Split(QueryOf(ps[1..]), '&');
      assert Params(QueryOf(ps))[0] == ps[0];
      assert forall i :: 1 <= i < |ps| ==> Params(QueryOf(ps))[i] == Params(QueryOf(ps[1..]))[i - 1];
    }
  }
}
