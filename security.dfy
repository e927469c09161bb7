/** `validateRequestOrigin` of src/utils/security.ts: the Origin header must name
    the same host (hostname and non-default port) as the Host header. URL parsing
    follows section 4.4 of the WHATWG URL Standard; everything of the parser except
    its treatment of default ports is a parameter. */
module Security {
  import opened Js

  /** A parsed URL record, reduced to the components that matter here. */
  datatype UrlRecord = UrlRecord(scheme: string, hostname: string, port: Option<nat>, path: string, query: string)

  /** Default port of a special scheme (WHATWG URL Standard, section 4.1). */
  function DefaultPort(scheme: string): Option<nat>
  {
    if scheme == "http" || scheme == "ws" then Some(80)
    else if scheme == "https" || scheme == "wss" then Some(443)
    else if scheme == "ftp" then Some(21)
    else None
  }

  /** The parser's port state stores no port when the written port is the
      scheme's default (WHATWG URL Standard, section 4.4). */
  function ElideDefaultPort(u: UrlRecord): (r: UrlRecord)
    ensures r.port.Some? ==> r.port != DefaultPort(r.scheme)
    ensures r.(port := u.port) == u
  {
    if u.port.Some? && u.port == DefaultPort(u.scheme) then u.(port := None) else u
  }

  /** The `host` getter (WHATWG URL Standard, section 6.1): the host, then ":"
      and the port when there is one. */
  function HostOf(u: UrlRecord): (r: string)
    ensures StartsWith(r, u.hostname)
    ensures u.port.None? <==> r == u.hostname
  {
    u.hostname + (if u.port.None? then "" else ":" + DecimalString(u.port.value))
  }

  /** `new URL(origin)`. `tokenize` is the parser up to the port state, left
      abstract: it yields the record as written, or None where the constructor throws. */
  function ParseUrl(origin: string, tokenize: string -> Option<UrlRecord>): Option<UrlRecord>
  {
    match tokenize(origin)
    case None => None
    case Some(u) => Some(ElideDefaultPort(u))
  }

  /** `validateRequestOrigin`, with the two header values as parameters
      (None when the header is absent). A parse failure is caught and gives false. */
  function ValidateRequestOrigin(origin: Option<string>, host: Option<string>,
                                 tokenize: string -> Option<UrlRecord>): (r: bool)
    ensures origin.None? || origin == Some("") ==> !r
    ensures host.None? || host == Some("") ==> !r
    ensures origin.Some? && ParseUrl(origin.value, tokenize).None? ==> !r
    ensures r <==> origin.Some? && origin.value != "" && host.Some? && host.value != "" &&
                   ParseUrl(origin.value, tokenize).Some? &&
                   HostOf(ParseUrl(origin.value, tokenize).value) == host.value
  {
    if OrElse(origin, "") == "" || OrElse(host, "") == "" then false
    else
      match ParseUrl(origin.value, tokenize)
      case None => false
      case Some(u) => HostOf(u) == host.value
  }

  /** The verdict depends on the origin only through its host: two origins that
      parse to the same hostname and port get the same answer, whatever their
      scheme, path or query. */
  lemma OnlyHostMatters(o1: string, o2: string, host: Option<string>, tokenize: string -> Option<UrlRecord>)
    requires ParseUrl(o1, tokenize).Some? && ParseUrl(o2, tokenize).Some?
    requires ParseUrl(o1, tokenize).value.hostname == ParseUrl(o2, tokenize).value.hostname
    requires ParseUrl(o1, tokenize).value.port == ParseUrl(o2, tokenize).value.port
    requires o1 != "" && o2 != ""
    ensures ValidateRequestOrigin(Some(o1), host, tokenize) == ValidateRequestOrigin(Some(o2), host, tokenize)
  {
  }

  /** A Host header that names only the hostname (no ':') accepts exactly the origins on
      that hostname whose port is absent or the scheme's default one; an explicit
      default port in the origin (https://example.com:443) still matches. */
  lemma HostnameOnlyHeader(origin: string, hostname: string, tokenize: string -> Option<UrlRecord>)
    requires origin != "" && hostname != "" && ':' !in hostname
    requires tokenize(origin).Some?
    ensures var u := tokenize(origin).value;
            ValidateRequestOrigin(Some(origin), Some(hostname), tokenize) <==>
              u.hostname == hostname && (u.port.None? || u.port == DefaultPort(u.scheme))
  {
    var u := tokenize(origin).value;
    var p := ElideDefaultPort(u);
    if p.port.Some? {
      assert HostOf(p)[|p.hostname|] == ':';
      assert ':' in HostOf(p);
    }
  }
}
