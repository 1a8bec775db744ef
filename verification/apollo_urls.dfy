/**
 * The request targets app_config.go builds: the config fetch, the long-poll
 * notification and the service discovery URLs. Identity fields and the
 * release key are escaped with url.QueryEscape, in the path as well as in
 * the query; the server address and the client's own address are inserted
 * as they are.
 */
module ApolloUrls {
  import opened Wrappers
  import opened GoBytes
  import opened Settings
  import opened UrlEscape
  import opened HttpUrl

  /** The fmt.Sprintf format of getConfigUrl, filled with its arguments. */
  function ConfigFormat(ip: Bytes, appId: Bytes, cluster: Bytes, namespaceName: Bytes, releaseKey: Bytes, internal: Bytes): Bytes
  {
    var path: Bytes := "/configs/" + appId + "/" + cluster + "/" + namespaceName;
    var query: Bytes := "releaseKey=" + releaseKey + "&ip=" + internal;
    "http://" + ip + path + "?" + query
  }

  /** getConfigUrl; `releaseKey` is the current config's release key, `internal` the client's address. */
  function ConfigUrl(config: AppConfig, releaseKey: Bytes, internal: Bytes): Bytes
  {
    ConfigFormat(config.Ip, QueryEscape(config.AppId), QueryEscape(config.Cluster), QueryEscape(config.NamespaceName),
                 QueryEscape(releaseKey), internal)
  }

  /** getConfigUrl with its path segments escaped by url.PathEscape. */
  function PathEscapedConfigUrl(config: AppConfig, releaseKey: Bytes, internal: Bytes): Bytes
  {
    ConfigFormat(config.Ip, PathEscape(config.AppId), PathEscape(config.Cluster), PathEscape(config.NamespaceName),
                 QueryEscape(releaseKey), internal)
  }

  /** The fmt.Sprintf format of getNotifyUrl, filled with its arguments. */
  function NotifyFormat(ip: Bytes, appId: Bytes, cluster: Bytes, notifications: Bytes): Bytes
  {
    var query: Bytes := "appId=" + appId + "&cluster=" + cluster + "&notifications=" + notifications;
    "http://" + ip + "/notifications/v2" + "?" + query
  }

  /** getNotifyUrl. */
  function NotifyUrl(notifications: Bytes, config: AppConfig): Bytes
  {
    NotifyFormat(config.Ip, QueryEscape(config.AppId), QueryEscape(config.Cluster), QueryEscape(notifications))
  }

  /** The fmt.Sprintf format of getServicesConfigUrl, filled with its arguments. */
  function ServicesConfigFormat(ip: Bytes, appId: Bytes, internal: Bytes): Bytes
  {
    var query: Bytes := "appId=" + appId + "&ip=" + internal;
    "http://" + ip + "/services/config" + "?" + query
  }

  /** getServicesConfigUrl. */
  function ServicesConfigUrl(config: AppConfig, internal: Bytes): Bytes
  {
    ServicesConfigFormat(config.Ip, QueryEscape(config.AppId), internal)
  }

  // Path segments and parameter keys of the three templates.
  const ConfigsSegment: Bytes := "configs"
  const NotificationsSegment: Bytes := "notifications"
  const V2Segment: Bytes := "v2"
  const ServicesSegment: Bytes := "services"
  const ConfigSegment: Bytes := "config"
  const ReleaseKeyParam: Bytes := "releaseKey"
  const IpParam: Bytes := "ip"
  const AppIdParam: Bytes := "appId"
  const ClusterParam: Bytes := "cluster"
  const NotificationsParam: Bytes := "notifications"

  /** A server address (`host:port`) that ends where the authority ends. */
  predicate IsHost(ip: Bytes)
  {
    NoneOf(ip, HostEnd)
  }

  /** A value that can stand unescaped as the last query parameter and decodes to itself. */
  predicate IsVerbatimValue(v: Bytes)
  {
    NoneOf(v, {'&', '#', '%', '+'})
  }

  /** Unescapes every value, or fails if one of them fails. */
  function UnescapeAll(xs: seq<Bytes>, mode: Encoding): (r: Option<seq<Bytes>>)
    ensures r.Some? <==> forall i :: 0 <= i < |xs| ==> Unescape(xs[i], mode).Success?
    ensures r.Some? ==> |r.value| == |xs| && forall i :: 0 <= i < |xs| ==> Unescape(xs[i], mode) == Success(r.value[i])
  {
    if xs == [] then Some([])
    else
      match Unescape(xs[0], mode)
      case Failure(_) => None
      case Success(v) =>
        match UnescapeAll(xs[1..], mode)
        case None => None
        case Some(vs) => Some([v] + vs)
  }

  lemma UnescapeAllOf(xs: seq<Bytes>, ys: seq<Bytes>, mode: Encoding)
    requires |xs| == |ys|
    requires forall i :: 0 <= i < |xs| ==> Unescape(xs[i], mode) == Success(ys[i])
    ensures UnescapeAll(xs, mode) == Some(ys)
  {
    var r := UnescapeAll(xs, mode);
    assert r.Some?;
    assert forall i :: 0 <= i < |xs| ==> r.value[i] == ys[i];
    assert r.value == ys;
  }

  datatype ConfigRequest = ConfigRequest(host: Bytes, appId: Bytes, cluster: Bytes, namespaceName: Bytes, releaseKey: Bytes, ip: Bytes)
  datatype NotifyRequest = NotifyRequest(host: Bytes, appId: Bytes, cluster: Bytes, notifications: Bytes)
  datatype ServicesRequest = ServicesRequest(host: Bytes, appId: Bytes, ip: Bytes)

  /**
   * How the config service reads `/configs/{appId}/{cluster}/{namespace}?releaseKey=…&ip=…`:
   * path segments are decoded as path segments, parameters as query components.
   */
  function ReadConfigUrl(u: Bytes): Option<ConfigRequest>
  {
    match Parse(u)
    case None => None
    case Some(url) => ReadConfigTarget(url)
  }

  /** The config request a parsed URL names, if it names one. */
  function ReadConfigTarget(url: Url): Option<ConfigRequest>
  {
    var segs := Split(url.path, '/');
    if url.query.None? || url.fragment.Some? || |segs| != 5 || segs[0] != [] || segs[1] != ConfigsSegment then None
    else
      var ps := Params(url.query.value);
      if |ps| != 2 || ps[0].key != ReleaseKeyParam || ps[1].key != IpParam then None
      else
        match UnescapeAll([segs[2], segs[3], segs[4]], PathSegment)
        case None => None
        case Some(vs) =>
          match UnescapeAll([ps[0].value, ps[1].value], QueryComponent)
          case None => None
          case Some(ws) => Some(ConfigRequest(url.host, vs[0], vs[1], vs[2], ws[0], ws[1]))
  }

  /** How the config service reads `/notifications/v2?appId=…&cluster=…&notifications=…`. */
  function ReadNotifyUrl(u: Bytes): Option<NotifyRequest>
  {
    match Parse(u)
    case None => None
    case Some(url) => ReadNotifyTarget(url)
  }

  /** The long-poll request a parsed URL names, if it names one. */
  function ReadNotifyTarget(url: Url): Option<NotifyRequest>
  {
    if url.query.None? || url.fragment.Some? || Split(url.path, '/') != [[], NotificationsSegment, V2Segment] then None
    else
      var ps := Params(url.query.value);
      if |ps| != 3 || ps[0].key != AppIdParam || ps[1].key != ClusterParam || ps[2].key != NotificationsParam then None
      else
        match UnescapeAll([ps[0].value, ps[1].value, ps[2].value], QueryComponent)
        case None => None
        case Some(vs) => Some(NotifyRequest(url.host, vs[0], vs[1], vs[2]))
  }

  /** How the config service reads `/services/config?appId=…&ip=…`. */
  function ReadServicesConfigUrl(u: Bytes): Option<ServicesRequest>
  {
    match Parse(u)
    case None => None
    case Some(url) => ReadServicesTarget(url)
  }

  /** The service-discovery request a parsed URL names, if it names one. */
  function ReadServicesTarget(url: Url): Option<ServicesRequest>
  {
    if url.query.None? || url.fragment.Some? || Split(url.path, '/') != [[], ServicesSegment, ConfigSegment] then None
    else
      var ps := Params(url.query.value);
      if |ps| != 2 || ps[0].key != AppIdParam || ps[1].key != IpParam then None
      else
        match UnescapeAll([ps[0].value, ps[1].value], QueryComponent)
        case None => None
        case Some(vs) => Some(ServicesRequest(url.host, vs[0], vs[1]))
  }

  /** Neither a path nor a query separator: what every query-escaped value is. */
  predicate IsField(s: Bytes)
  {
    NoneOf(s, {'/', '?', '#', '&', '='})
  }

  /** Text that stays within one path segment. */
  predicate IsSegment(s: Bytes)
  {
    NoneOf(s, {'/', '?', '#'})
  }

  lemma EscapedIsField(s: Bytes)
    ensures IsField(QueryEscape(s)) && IsSegment(QueryEscape(s))
  {
  }

  lemma PathEscapedIsSegment(s: Bytes)
    ensures IsSegment(PathEscape(s))
  {
  }

  // The templates, rewritten as scheme, host, path segments and query parameters.

  lemma ConfigPathText(a: Bytes, c: Bytes, n: Bytes)
    ensures PathOf([ConfigsSegment, a, c, n]) == "/configs/" + a + "/" + c + "/" + n
  {
    var segs: seq<Bytes> := [ConfigsSegment, a, c, n];
    assert segs[1..] == [a, c, n] && segs[1..][1..] == [c, n] && segs[1..][1..][1..] == [n];
    assert PathOf([n]) == "/" + n;
    assert PathOf([c, n]) == "/" + c + "/" + n;
    assert PathOf([a, c, n]) == "/" + a + "/" + c + "/" + n;
  }

  lemma ConfigQueryText(r: Bytes, i: Bytes)
    ensures QueryOf([Param(ReleaseKeyParam, r), Param(IpParam, i)]) == "releaseKey=" + r + "&ip=" + i
  {
    var ps := [Param(ReleaseKeyParam, r), Param(IpParam, i)];
    assert ps[1..] == [Param(IpParam, i)];
  }

  lemma ConfigText(ip: Bytes, a: Bytes, c: Bytes, n: Bytes, r: Bytes, i: Bytes)
    ensures ConfigFormat(ip, a, c, n, r, i)
      == Scheme + ip + PathOf([ConfigsSegment, a, c, n]) + ['?'] + QueryOf([Param(ReleaseKeyParam, r), Param(IpParam, i)])
  {
    ConfigPathText(a, c, n);
    ConfigQueryText(r, i);
  }

  lemma NotifyPathText()
    ensures PathOf([NotificationsSegment, V2Segment]) == "/notifications/v2"
  {
    var segs: seq<Bytes> := [NotificationsSegment, V2Segment];
    assert segs[1..] == [V2Segment];
    assert PathOf([V2Segment]) == "/" + V2Segment + PathOf([]);
  }

  lemma NotifyQueryText(a: Bytes, c: Bytes, n: Bytes)
    ensures QueryOf([Param(AppIdParam, a), Param(ClusterParam, c), Param(NotificationsParam, n)])
      == "appId=" + a + "&cluster=" + c + "&notifications=" + n
  {
    var ps := [Param(AppIdParam, a), Param(ClusterParam, c), Param(NotificationsParam, n)];
    assert ps[1..] == [Param(ClusterParam, c), Param(NotificationsParam, n)];
    NotifyQueryTail(c, n);
  }

  lemma NotifyQueryTail(c: Bytes, n: Bytes)
    ensures QueryOf([Param(ClusterParam, c), Param(NotificationsParam, n)]) == "cluster=" + c + "&notifications=" + n
  {
    var ps := [Param(ClusterParam, c), Param(NotificationsParam, n)];
    assert ps[1..] == [Param(NotificationsParam, n)];
  }

  lemma NotifyText(ip: Bytes, a: Bytes, c: Bytes, n: Bytes)
    ensures NotifyFormat(ip, a, c, n)
      == Scheme + ip + PathOf([NotificationsSegment, V2Segment]) + ['?']
         + QueryOf([Param(AppIdParam, a), Param(ClusterParam, c), Param(NotificationsParam, n)])
  {
    NotifyPathText();
    NotifyQueryText(a, c, n);
  }

  lemma ServicesPathText()
    ensures PathOf([ServicesSegment, ConfigSegment]) == "/services/config"
  {
    var segs: seq<Bytes> := [ServicesSegment, ConfigSegment];
    assert segs[1..] == [ConfigSegment];
    assert PathOf([ConfigSegment]) == "/" + ConfigSegment + PathOf([]);
  }

  lemma ServicesQueryText(a: Bytes, i: Bytes)
    ensures QueryOf([Param(AppIdParam, a), Param(IpParam, i)]) == "appId=" + a + "&ip=" + i
  {
    var ps := [Param(AppIdParam, a), Param(IpParam, i)];
    assert ps[1..] == [Param(IpParam, i)];
  }

  lemma ServicesText(ip: Bytes, a: Bytes, i: Bytes)
    ensures ServicesConfigFormat(ip, a, i)
      == Scheme + ip + PathOf([ServicesSegment, ConfigSegment]) + ['?'] + QueryOf([Param(AppIdParam, a), Param(IpParam, i)])
  {
    ServicesPathText();
    ServicesQueryText(a, i);
  }

  /** A split path starts with the empty text before its leading `/`. */
  lemma RootedTwo(x0: Bytes, x1: Bytes)
    ensures [[]] + [x0, x1] == [[], x0, x1]
  {
  }

  lemma RootedFour(x0: Bytes, x1: Bytes, x2: Bytes, x3: Bytes)
    ensures [[]] + [x0, x1, x2, x3] == [[], x0, x1, x2, x3]
  {
  }

  /** Parsing a target made of a host, segments and a query of fields ending in a value free of `&` and `#`. */
  lemma ParsedFromFields(ip: Bytes, segs: seq<Bytes>, ps: seq<Param>)
    requires IsHost(ip)
    requires |segs| >= 1 && |ps| >= 1
    requires forall i :: 0 <= i < |segs| ==> IsSegment(segs[i])
    requires forall i :: 0 <= i < |ps| ==> IsField(ps[i].key) && NoneOf(ps[i].value, {'&', '#'})
    ensures Parse(Scheme + ip + PathOf(segs) + ['?'] + QueryOf(ps)) == Some(Url(ip, PathOf(segs), Some(QueryOf(ps)), None))
    ensures Split(PathOf(segs), '/') == [[]] + segs
    ensures Params(QueryOf(ps)) == ps
  {
    forall i | 0 <= i < |segs|
      ensures NoneOf(segs[i], PathEnd) && NoneOf(segs[i], {'/'})
    {
    }
    forall i | 0 <= i < |ps|
      ensures NoneOf(ps[i].key, {'#'}) && NoneOf(ps[i].value, {'#'})
      ensures NoneOf(ps[i].key, {'=', '&'}) && NoneOf(ps[i].value, {'&'})
    {
    }
    PathOfNoneOf(segs, PathEnd);
    QueryOfNoneOf(ps, {'#'});
    ParseComposed(ip, PathOf(segs), QueryOf(ps));
    SplitPathOf(segs);
    ParamsQueryOf(ps);
  }

  lemma ConfigParsedUrl(ip: Bytes, a: Bytes, c: Bytes, n: Bytes, r: Bytes, i: Bytes)
    requires IsHost(ip) && IsSegment(a) && IsSegment(c) && IsSegment(n) && IsField(r)
    requires NoneOf(i, {'&', '#'})
    ensures Parse(ConfigFormat(ip, a, c, n, r, i))
      == Some(Url(ip, PathOf([ConfigsSegment, a, c, n]), Some(QueryOf([Param(ReleaseKeyParam, r), Param(IpParam, i)])), None))
    ensures Split(PathOf([ConfigsSegment, a, c, n]), '/') == [[]] + [ConfigsSegment, a, c, n]
    ensures Params(QueryOf([Param(ReleaseKeyParam, r), Param(IpParam, i)])) == [Param(ReleaseKeyParam, r), Param(IpParam, i)]
  {
    ConfigText(ip, a, c, n, r, i);
    var segs: seq<Bytes> := [ConfigsSegment, a, c, n];
    var ps := [Param(ReleaseKeyParam, r), Param(IpParam, i)];
    assert IsSegment(ConfigsSegment) && IsField(ReleaseKeyParam) && IsField(IpParam);
    assert forall k :: 0 <= k < |segs| ==> IsSegment(segs[k]);
    assert NoneOf(r, {'&', '#'});
    assert forall k :: 0 <= k < |ps| ==> IsField(ps[k].key) && NoneOf(ps[k].value, {'&', '#'});
    ParsedFromFields(ip, segs, ps);
  }

  lemma ConfigParsed(ip: Bytes, a: Bytes, c: Bytes, n: Bytes, r: Bytes, i: Bytes)
    requires IsHost(ip) && IsSegment(a) && IsSegment(c) && IsSegment(n) && IsField(r)
    requires NoneOf(i, {'&', '#'})
    ensures var url := Parse(ConfigFormat(ip, a, c, n, r, i));
      && url.Some? && url.value.host == ip && url.value.fragment.None? && url.value.query.Some?
      && Split(url.value.path, '/') == [[], ConfigsSegment, a, c, n]
      && Params(url.value.query.value) == [Param(ReleaseKeyParam, r), Param(IpParam, i)]
  {
    ConfigParsedUrl(ip, a, c, n, r, i);
    RootedFour(ConfigsSegment, a, c, n);
  }

  lemma NotifyParsedUrl(ip: Bytes, a: Bytes, c: Bytes, n: Bytes)
    requires IsHost(ip) && IsField(a) && IsField(c) && IsField(n)
    ensures Parse(NotifyFormat(ip, a, c, n))
      == Some(Url(ip, PathOf([NotificationsSegment, V2Segment]),
                  Some(QueryOf([Param(AppIdParam, a), Param(ClusterParam, c), Param(NotificationsParam, n)])), None))
    ensures Split(PathOf([NotificationsSegment, V2Segment]), '/') == [[]] + [NotificationsSegment, V2Segment]
    ensures Params(QueryOf([Param(AppIdParam, a), Param(ClusterParam, c), Param(NotificationsParam, n)]))
      == [Param(AppIdParam, a), Param(ClusterParam, c), Param(NotificationsParam, n)]
  {
    NotifyText(ip, a, c, n);
    var segs: seq<Bytes> := [NotificationsSegment, V2Segment];
    var ps := [Param(AppIdParam, a), Param(ClusterParam, c), Param(NotificationsParam, n)];
    assert IsSegment(NotificationsSegment) && IsSegment(V2Segment);
    assert IsField(AppIdParam) && IsField(ClusterParam) && IsField(NotificationsParam);
    assert forall k :: 0 <= k < |segs| ==> IsSegment(segs[k]);
    assert NoneOf(a, {'&', '#'}) && NoneOf(c, {'&', '#'}) && NoneOf(n, {'&', '#'});
    assert forall k :: 0 <= k < |ps| ==> IsField(ps[k].key) && NoneOf(ps[k].value, {'&', '#'});
    ParsedFromFields(ip, segs, ps);
  }

  lemma NotifyParsed(ip: Bytes, a: Bytes, c: Bytes, n: Bytes)
    requires IsHost(ip) && IsField(a) && IsField(c) && IsField(n)
    ensures var url := Parse(NotifyFormat(ip, a, c, n));
      && url.Some? && url.value.host == ip && url.value.fragment.None? && url.value.query.Some?
      && Split(url.value.path, '/') == [[], NotificationsSegment, V2Segment]
      && Params(url.value.query.value) == [Param(AppIdParam, a), Param(ClusterParam, c), Param(NotificationsParam, n)]
  {
    NotifyParsedUrl(ip, a, c, n);
    RootedTwo(NotificationsSegment, V2Segment);
  }

  lemma ServicesParsedUrl(ip: Bytes, a: Bytes, i: Bytes)
    requires IsHost(ip) && IsField(a)
    requires NoneOf(i, {'&', '#'})
    ensures Parse(ServicesConfigFormat(ip, a, i))
      == Some(Url(ip, PathOf([ServicesSegment, ConfigSegment]), Some(QueryOf([Param(AppIdParam, a), Param(IpParam, i)])), None))
    ensures Split(PathOf([ServicesSegment, ConfigSegment]), '/') == [[]] + [ServicesSegment, ConfigSegment]
    ensures Params(QueryOf([Param(AppIdParam, a), Param(IpParam, i)])) == [Param(AppIdParam, a), Param(IpParam, i)]
  {
    ServicesText(ip, a, i);
    var segs: seq<Bytes> := [ServicesSegment, ConfigSegment];
    var ps := [Param(AppIdParam, a), Param(IpParam, i)];
    assert IsSegment(ServicesSegment) && IsSegment(ConfigSegment) && IsField(AppIdParam) && IsField(IpParam);
    assert forall k :: 0 <= k < |segs| ==> IsSegment(segs[k]);
    assert NoneOf(a, {'&', '#'});
    assert forall k :: 0 <= k < |ps| ==> IsField(ps[k].key) && NoneOf(ps[k].value, {'&', '#'});
    ParsedFromFields(ip, segs, ps);
  }

  lemma ServicesParsed(ip: Bytes, a: Bytes, i: Bytes)
    requires IsHost(ip) && IsField(a)
    requires NoneOf(i, {'&', '#'})
    ensures var url := Parse(ServicesConfigFormat(ip, a, i));
      && url.Some? && url.value.host == ip && url.value.fragment.None? && url.value.query.Some?
      && Split(url.value.path, '/') == [[], ServicesSegment, ConfigSegment]
      && Params(url.value.query.value) == [Param(AppIdParam, a), Param(IpParam, i)]
  {
    ServicesParsedUrl(ip, a, i);
    RootedTwo(ServicesSegment, ConfigSegment);
  }

  /**
   * getConfigUrl as the server reads it: the host is the configured address;
   * the path has exactly four segments, the last three being the escaped
   * identity fields; the query has exactly the parameters releaseKey and ip,
   * in that order; there is no fragment.
   */
  lemma ConfigUrlShape(config: AppConfig, releaseKey: Bytes, internal: Bytes)
    requires IsHost(config.Ip)
    requires NoneOf(internal, {'&', '#'})
    ensures var url := Parse(ConfigUrl(config, releaseKey, internal));
      && url.Some? && url.value.host == config.Ip && url.value.fragment.None? && url.value.query.Some?
      && Split(url.value.path, '/')
         == [[], ConfigsSegment, QueryEscape(config.AppId), QueryEscape(config.Cluster), QueryEscape(config.NamespaceName)]
      && Params(url.value.query.value) == [Param(ReleaseKeyParam, QueryEscape(releaseKey)), Param(IpParam, internal)]
  {
    EscapedIsField(config.AppId);
    EscapedIsField(config.Cluster);
    EscapedIsField(config.NamespaceName);
    EscapedIsField(releaseKey);
    ConfigParsed(config.Ip, QueryEscape(config.AppId), QueryEscape(config.Cluster), QueryEscape(config.NamespaceName),
                 QueryEscape(releaseKey), internal);
  }

  /**
   * getNotifyUrl as the server reads it: path `/notifications/v2`, then
   * exactly the parameters appId, cluster and notifications, in that order,
   * whatever bytes the three values hold.
   */
  lemma NotifyUrlShape(notifications: Bytes, config: AppConfig)
    requires IsHost(config.Ip)
    ensures var url := Parse(NotifyUrl(notifications, config));
      && url.Some? && url.value.host == config.Ip && url.value.fragment.None? && url.value.query.Some?
      && Split(url.value.path, '/') == [[], NotificationsSegment, V2Segment]
      && Params(url.value.query.value)
         == [Param(AppIdParam, QueryEscape(config.AppId)), Param(ClusterParam, QueryEscape(config.Cluster)),
             Param(NotificationsParam, QueryEscape(notifications))]
  {
    EscapedIsField(config.AppId);
    EscapedIsField(config.Cluster);
    EscapedIsField(notifications);
    NotifyParsed(config.Ip, QueryEscape(config.AppId), QueryEscape(config.Cluster), QueryEscape(notifications));
  }

  /** getServicesConfigUrl as the server reads it: path `/services/config`, then exactly appId and ip, in that order. */
  lemma ServicesConfigUrlShape(config: AppConfig, internal: Bytes)
    requires IsHost(config.Ip)
    requires NoneOf(internal, {'&', '#'})
    ensures var url := Parse(ServicesConfigUrl(config, internal));
      && url.Some? && url.value.host == config.Ip && url.value.fragment.None? && url.value.query.Some?
      && Split(url.value.path, '/') == [[], ServicesSegment, ConfigSegment]
      && Params(url.value.query.value) == [Param(AppIdParam, QueryEscape(config.AppId)), Param(IpParam, internal)]
  {
    EscapedIsField(config.AppId);
    ServicesParsed(config.Ip, QueryEscape(config.AppId), internal);
  }

  lemma DecodeTwo(a: Bytes, b: Bytes, da: Bytes, db: Bytes, mode: Encoding)
    requires Unescape(a, mode) == Success(da) && Unescape(b, mode) == Success(db)
    ensures UnescapeAll([a, b], mode) == Some([da, db])
  {
    var xs, ys := [a, b], [da, db];
    forall k | 0 <= k < 2
      ensures Unescape(xs[k], mode) == Success(ys[k])
    {
      if k == 0 {} else {}
    }
    UnescapeAllOf(xs, ys, mode);
  }

  lemma DecodeThree(a: Bytes, b: Bytes, c: Bytes, da: Bytes, db: Bytes, dc: Bytes, mode: Encoding)
    requires Unescape(a, mode) == Success(da) && Unescape(b, mode) == Success(db) && Unescape(c, mode) == Success(dc)
    ensures UnescapeAll([a, b, c], mode) == Some([da, db, dc])
  {
    var xs, ys := [a, b, c], [da, db, dc];
    forall k | 0 <= k < 3
      ensures Unescape(xs[k], mode) == Success(ys[k])
    {
      if k == 0 {} else if k == 1 {} else {}
    }
    UnescapeAllOf(xs, ys, mode);
  }

  lemma ConfigTargetRead(url: Url, a: Bytes, c: Bytes, n: Bytes, r: Bytes, i: Bytes,
                         da: Bytes, dc: Bytes, dn: Bytes, dr: Bytes)
    requires url.fragment.None? && url.query.Some?
    requires Split(url.path, '/') == [[], ConfigsSegment, a, c, n]
    requires Params(url.query.value) == [Param(ReleaseKeyParam, r), Param(IpParam, i)]
    requires UnescapeAll([a, c, n], PathSegment) == Some([da, dc, dn])
    requires UnescapeAll([r, i], QueryComponent) == Some([dr, i])
    ensures ReadConfigTarget(url) == Some(ConfigRequest(url.host, da, dc, dn, dr, i))
  {
  }

  /**
   * The config template read back: path segments that decode as path
   * segments and parameter values that decode as query components are
   * read as what they decode to.
   */
  lemma ConfigFormatRead(ip: Bytes, a: Bytes, c: Bytes, n: Bytes, r: Bytes, i: Bytes,
                         da: Bytes, dc: Bytes, dn: Bytes, dr: Bytes)
    requires IsHost(ip) && IsSegment(a) && IsSegment(c) && IsSegment(n) && IsField(r)
    requires NoneOf(i, {'&', '#'})
    requires Unescape(a, PathSegment) == Success(da) && Unescape(c, PathSegment) == Success(dc)
    requires Unescape(n, PathSegment) == Success(dn)
    requires Unescape(r, QueryComponent) == Success(dr) && Unescape(i, QueryComponent) == Success(i)
    ensures ReadConfigUrl(ConfigFormat(ip, a, c, n, r, i)) == Some(ConfigRequest(ip, da, dc, dn, dr, i))
  {
    ConfigParsed(ip, a, c, n, r, i);
    var url := Parse(ConfigFormat(ip, a, c, n, r, i)).value;
    DecodeThree(a, c, n, da, dc, dn, PathSegment);
    DecodeTwo(r, i, dr, i, QueryComponent);
    ConfigTargetRead(url, a, c, n, r, i, da, dc, dn, dr);
  }

  lemma NotifyTargetRead(url: Url, a: Bytes, c: Bytes, n: Bytes, da: Bytes, dc: Bytes, dn: Bytes)
    requires url.fragment.None? && url.query.Some?
    requires Split(url.path, '/') == [[], NotificationsSegment, V2Segment]
    requires Params(url.query.value) == [Param(AppIdParam, a), Param(ClusterParam, c), Param(NotificationsParam, n)]
    requires UnescapeAll([a, c, n], QueryComponent) == Some([da, dc, dn])
    ensures ReadNotifyTarget(url) == Some(NotifyRequest(url.host, da, dc, dn))
  {
  }

  /** The notifications template read back: each parameter is read as what it decodes to. */
  lemma NotifyFormatRead(ip: Bytes, a: Bytes, c: Bytes, n: Bytes, da: Bytes, dc: Bytes, dn: Bytes)
    requires IsHost(ip) && IsField(a) && IsField(c) && IsField(n)
    requires Unescape(a, QueryComponent) == Success(da) && Unescape(c, QueryComponent) == Success(dc)
    requires Unescape(n, QueryComponent) == Success(dn)
    ensures ReadNotifyUrl(NotifyFormat(ip, a, c, n)) == Some(NotifyRequest(ip, da, dc, dn))
  {
    NotifyParsed(ip, a, c, n);
    var url := Parse(NotifyFormat(ip, a, c, n)).value;
    DecodeThree(a, c, n, da, dc, dn, QueryComponent);
    NotifyTargetRead(url, a, c, n, da, dc, dn);
  }

  lemma ServicesTargetRead(url: Url, a: Bytes, i: Bytes, da: Bytes)
    requires url.fragment.None? && url.query.Some?
    requires Split(url.path, '/') == [[], ServicesSegment, ConfigSegment]
    requires Params(url.query.value) == [Param(AppIdParam, a), Param(IpParam, i)]
    requires UnescapeAll([a, i], QueryComponent) == Some([da, i])
    ensures ReadServicesTarget(url) == Some(ServicesRequest(url.host, da, i))
  {
  }

  /** The services-config template read back: each parameter is read as what it decodes to. */
  lemma ServicesConfigFormatRead(ip: Bytes, a: Bytes, i: Bytes, da: Bytes)
    requires IsHost(ip) && IsField(a)
    requires NoneOf(i, {'&', '#'})
    requires Unescape(a, QueryComponent) == Success(da) && Unescape(i, QueryComponent) == Success(i)
    ensures ReadServicesConfigUrl(ServicesConfigFormat(ip, a, i)) == Some(ServicesRequest(ip, da, i))
  {
    ServicesParsed(ip, a, i);
    var url := Parse(ServicesConfigFormat(ip, a, i)).value;
    DecodeTwo(a, i, da, i, QueryComponent);
    ServicesTargetRead(url, a, i, da);
  }

  /**
   * What the config service reads from getConfigUrl: the host, release key
   * and client address exactly, and the identity fields with every space
   * turned into `+`, because url.QueryEscape writes space as `+` and a path
   * segment decodes `+` as itself.
   */
  lemma ConfigUrlReadBack(config: AppConfig, releaseKey: Bytes, internal: Bytes)
    requires IsHost(config.Ip)
    requires IsVerbatimValue(internal)
    ensures ReadConfigUrl(ConfigUrl(config, releaseKey, internal))
      == Some(ConfigRequest(config.Ip, SpacesAsPlus(config.AppId), SpacesAsPlus(config.Cluster),
                            SpacesAsPlus(config.NamespaceName), releaseKey, internal))
  {
    assert NoneOf(internal, {'&', '#'}) && NoneOf(internal, {'%'}) && NoneOf(internal, {'+'});
    EscapedIsField(config.AppId);
    EscapedIsField(config.Cluster);
    EscapedIsField(config.NamespaceName);
    EscapedIsField(releaseKey);
    PathUnescapeQueryEscaped(config.AppId);
    PathUnescapeQueryEscaped(config.Cluster);
    PathUnescapeQueryEscaped(config.NamespaceName);
    UnescapeEscape(releaseKey, QueryComponent);
    UnescapeVerbatim(internal, QueryComponent);
    ConfigFormatRead(config.Ip, QueryEscape(config.AppId), QueryEscape(config.Cluster), QueryEscape(config.NamespaceName),
                     QueryEscape(releaseKey), internal,
                     SpacesAsPlus(config.AppId), SpacesAsPlus(config.Cluster), SpacesAsPlus(config.NamespaceName), releaseKey);
  }

  /** For identity fields without spaces the config service recovers exactly what getConfigUrl was given. */
  lemma ConfigUrlRoundTrip(config: AppConfig, releaseKey: Bytes, internal: Bytes)
    requires IsHost(config.Ip)
    requires IsVerbatimValue(internal)
    requires NoneOf(config.AppId, {' '}) && NoneOf(config.Cluster, {' '}) && NoneOf(config.NamespaceName, {' '})
    ensures ReadConfigUrl(ConfigUrl(config, releaseKey, internal))
      == Some(ConfigRequest(config.Ip, config.AppId, config.Cluster, config.NamespaceName, releaseKey, internal))
  {
    ConfigUrlReadBack(config, releaseKey, internal);
  }

  const SpacedAppId: Bytes := "my app"
  const SpacedAppIdRead: Bytes := "my+app"

  lemma SpacedAppIdReadAsPlus()
    ensures SpacesAsPlus(SpacedAppId) == SpacedAppIdRead
    ensures SpacedAppIdRead != SpacedAppId
  {
    var r := SpacesAsPlus(SpacedAppId);
    assert r[2] == '+' && SpacedAppId[2] == ' ';
    assert forall k :: 0 <= k < 6 && k != 2 ==> r[k] == SpacedAppId[k];
    assert SpacedAppIdRead[2] != SpacedAppId[2];
  }

  /** An application id with a space is read back with `+` in its place: "my app" arrives as "my+app". */
  lemma ConfigUrlSpaceReadAsPlus(config: AppConfig, releaseKey: Bytes, internal: Bytes)
    requires IsHost(config.Ip)
    requires IsVerbatimValue(internal)
    requires config.AppId == SpacedAppId
    ensures ReadConfigUrl(ConfigUrl(config, releaseKey, internal)).Some?
    ensures ReadConfigUrl(ConfigUrl(config, releaseKey, internal)).value.appId == SpacedAppIdRead
    ensures ReadConfigUrl(ConfigUrl(config, releaseKey, internal)).value.appId != config.AppId
  {
    ConfigUrlReadBack(config, releaseKey, internal);
    SpacedAppIdReadAsPlus();
  }

  /** With url.PathEscape in the path, the config service recovers exactly every value, spaces included. */
  lemma PathEscapedConfigUrlRoundTrip(config: AppConfig, releaseKey: Bytes, internal: Bytes)
    requires IsHost(config.Ip)
    requires IsVerbatimValue(internal)
    ensures ReadConfigUrl(PathEscapedConfigUrl(config, releaseKey, internal))
      == Some(ConfigRequest(config.Ip, config.AppId, config.Cluster, config.NamespaceName, releaseKey, internal))
  {
    assert NoneOf(internal, {'&', '#'}) && NoneOf(internal, {'%'}) && NoneOf(internal, {'+'});
    PathEscapedIsSegment(config.AppId);
    PathEscapedIsSegment(config.Cluster);
    PathEscapedIsSegment(config.NamespaceName);
    EscapedIsField(releaseKey);
    UnescapeEscape(config.AppId, PathSegment);
    UnescapeEscape(config.Cluster, PathSegment);
    UnescapeEscape(config.NamespaceName, PathSegment);
    UnescapeEscape(releaseKey, QueryComponent);
    UnescapeVerbatim(internal, QueryComponent);
    ConfigFormatRead(config.Ip, PathEscape(config.AppId), PathEscape(config.Cluster), PathEscape(config.NamespaceName),
                     QueryEscape(releaseKey), internal, config.AppId, config.Cluster, config.NamespaceName, releaseKey);
  }

  /** The config service recovers exactly the identity and the notifications from getNotifyUrl, whatever bytes they hold. */
  lemma NotifyUrlRoundTrip(notifications: Bytes, config: AppConfig)
    requires IsHost(config.Ip)
    ensures ReadNotifyUrl(NotifyUrl(notifications, config))
      == Some(NotifyRequest(config.Ip, config.AppId, config.Cluster, notifications))
  {
    EscapedIsField(config.AppId);
    EscapedIsField(config.Cluster);
    EscapedIsField(notifications);
    UnescapeEscape(config.AppId, QueryComponent);
    UnescapeEscape(config.Cluster, QueryComponent);
    UnescapeEscape(notifications, QueryComponent);
    NotifyFormatRead(config.Ip, QueryEscape(config.AppId), QueryEscape(config.Cluster), QueryEscape(notifications),
                     config.AppId, config.Cluster, notifications);
  }

  /** The config service recovers exactly the application id and client address from getServicesConfigUrl. */
  lemma ServicesConfigUrlRoundTrip(config: AppConfig, internal: Bytes)
    requires IsHost(config.Ip)
    requires IsVerbatimValue(internal)
    ensures ReadServicesConfigUrl(ServicesConfigUrl(config, internal))
      == Some(ServicesRequest(config.Ip, config.AppId, internal))
  {
    assert NoneOf(internal, {'&', '#'}) && NoneOf(internal, {'%'}) && NoneOf(internal, {'+'});
    EscapedIsField(config.AppId);
    UnescapeEscape(config.AppId, QueryComponent);
    UnescapeVerbatim(internal, QueryComponent);
    ServicesConfigFormatRead(config.Ip, QueryEscape(config.AppId), internal, config.AppId);
  }
}
