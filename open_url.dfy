/**
  The link dispatch of OpenURLActivity: from the components of an incoming
  URI (scheme, host and path segments, in the sense of section 3 of RFC 3986)
  to the IPFS gateway path that is opened, or to the "Invalid link" error.
  Parsing the URI text into these components is Android's and is not part of
  this model; the components are given.
*/
module OpenUrl {
  import opened Optional

  /** The components of `android.net.Uri` the dispatch reads; each may be null. */
  datatype Uri = Uri(scheme: Option<string>, host: Option<string>, pathSegments: seq<string>)

  /** What `onResume` does with the intent's data. */
  datatype Dispatch =
    | OpenPath(path: string)   // openPath(path): wait for the service, then view the gateway URL
    | InvalidLink              // the "Invalid link" error dialog; no path is opened
    | MissingData              // no URI: finish() is requested and the following `!!` throws

  const GatewayOrigin: string := "http://localhost:8080"

  /** The texts the single-segment tests compare with (Regex.fromLiteral matches them literally). */
  const HashPatternText: string := "^[0-9a-zA-Z]{20,}$"
  const NamePatternText: string := "^[0-9a-zA-Z\\.-_].*$"

  /** A nullable string inside a Kotlin string template: null prints as "null". */
  function TemplateText(s: Option<string>): (r: string)
    ensures s.Some? ==> r == s.value
    ensures s.None? ==> r == "null"
  {
    if s.Some? then s.value else "null"
  }

  predicate IsNamespace(s: string)
  {
    s == "ipfs" || s == "ipns"
  }

  /**
    The if/else-if chain of `onResume`, tried in order: a link is opened when
    one of the four shapes matches, and every other URI is an invalid link.
  */
  function DispatchLink(data: Option<Uri>): (r: Dispatch)
    ensures r == MissingData <==> data.None?
    ensures r == InvalidLink <==>
      data.Some? &&
      !(data.value.scheme == Some("ipfs") || data.value.scheme == Some("ipns")) &&
      !(|data.value.pathSegments| >= 2 && IsNamespace(data.value.pathSegments[0])) &&
      !(|data.value.pathSegments| == 1 &&
        (data.value.pathSegments[0] == HashPatternText || data.value.pathSegments[0] == NamePatternText))
  {
    if data.None? then MissingData
    else
      var uri := data.value;
      if uri.scheme == Some("ipfs") || uri.scheme == Some("ipns") then
        OpenPath("/" + uri.scheme.value + "/" + TemplateText(uri.host))
      else if |uri.pathSegments| >= 2 && IsNamespace(uri.pathSegments[0]) then
        OpenPath("/" + uri.pathSegments[0] + "/" + uri.pathSegments[1])
      else if |uri.pathSegments| == 1 && uri.pathSegments[0] == HashPatternText then
        OpenPath("/ipfs/" + uri.pathSegments[0])
      else if |uri.pathSegments| == 1 && uri.pathSegments[0] == NamePatternText then
        OpenPath("/ipns/" + uri.pathSegments[0])
      else
        InvalidLink
  }

  /** `openPath`: the URL viewed once the service has started. */
  function GatewayUrl(path: string): (url: string)
    ensures |url| == |GatewayOrigin| + |path|
    ensures url[..|GatewayOrigin|] == GatewayOrigin && url[|GatewayOrigin|..] == path
  {
    GatewayOrigin + path
  }

  /** An ipfs: or ipns: URI opens its host under its own namespace, whatever its path. */
  lemma SchemeLinkOpensHost(scheme: string, host: Option<string>, segments: seq<string>)
    requires IsNamespace(scheme)
    ensures DispatchLink(Some(Uri(Some(scheme), host, segments))) ==
      OpenPath("/" + scheme + "/" + TemplateText(host))
  {
  }

  /**
    Any other URI whose first path segment is a namespace opens its first two
    segments; further segments are dropped.
  */
  lemma PathLinkOpensTwoSegments(uri: Uri)
    requires !(uri.scheme == Some("ipfs") || uri.scheme == Some("ipns"))
    requires |uri.pathSegments| >= 2 && IsNamespace(uri.pathSegments[0])
    ensures DispatchLink(Some(uri)) ==
      OpenPath("/" + uri.pathSegments[0] + "/" + uri.pathSegments[1])
    ensures forall rest: seq<string> ::
      DispatchLink(Some(uri.(pathSegments := uri.pathSegments + rest))) == DispatchLink(Some(uri))
  {
    forall rest: seq<string>
      ensures DispatchLink(Some(uri.(pathSegments := uri.pathSegments + rest))) == DispatchLink(Some(uri))
    {
      var longer := uri.pathSegments + rest;
      assert longer[0] == uri.pathSegments[0] && longer[1] == uri.pathSegments[1];
    }
  }

  /**
    A lone path segment is opened only when it is literally one of the two
    pattern texts: under ipfs for the hash text, under ipns for the name text.
  */
  lemma SingleSegmentOnlyLiteral(scheme: Option<string>, host: Option<string>, seg: string)
    requires !(scheme == Some("ipfs") || scheme == Some("ipns"))
    ensures DispatchLink(Some(Uri(scheme, host, [seg]))).OpenPath? <==>
      seg == HashPatternText || seg == NamePatternText
    ensures seg == HashPatternText ==> DispatchLink(Some(Uri(scheme, host, [seg]))) == OpenPath("/ipfs/" + seg)
    ensures seg == NamePatternText ==> DispatchLink(Some(Uri(scheme, host, [seg]))) == OpenPath("/ipns/" + seg)
  {
    assert HashPatternText != NamePatternText by {
      assert HashPatternText[1] != NamePatternText[1] || |HashPatternText| != |NamePatternText|;
    }
  }

  /** A bare content hash typed as a link is rejected, although it is the shape the hash test names. */
  lemma BareHashRejected()
    ensures DispatchLink(Some(Uri(None, None, ["QmYwAPJzv5CZsnA625s3Xf2nemtYgPpHdWEz79ojWnPbdG"]))) == InvalidLink
  {
    var seg := "QmYwAPJzv5CZsnA625s3Xf2nemtYgPpHdWEz79ojWnPbdG";
    assert |seg| == 46 && |HashPatternText| == 18 && |NamePatternText| == 19;
    SingleSegmentOnlyLiteral(None, None, seg);
  }

  /** Every path that is opened lies under /ipfs/ or /ipns/. */
  lemma OpenedPathHasNamespace(data: Option<Uri>)
    requires DispatchLink(data).OpenPath?
    ensures var path := DispatchLink(data).path;
      |path| >= 6 && (path[..6] == "/ipfs/" || path[..6] == "/ipns/")
  {
    var uri := data.value;
    var path := DispatchLink(data).path;
    if uri.scheme == Some("ipfs") || uri.scheme == Some("ipns") {
      assert path == "/" + uri.scheme.value + "/" + TemplateText(uri.host);
    } else if |uri.pathSegments| >= 2 && IsNamespace(uri.pathSegments[0]) {
      assert path == "/" + uri.pathSegments[0] + "/" + uri.pathSegments[1];
    }
  }

  /**
    The opened URL is the gateway origin followed by a path under /ipfs/ or
    /ipns/; every other link shape opens nothing.
  */
  lemma OpenedUrlShape(data: Option<Uri>)
    ensures DispatchLink(data).OpenPath? ==>
      var url := GatewayUrl(DispatchLink(data).path);
      url[..|GatewayOrigin|] == GatewayOrigin &&
      (url[|GatewayOrigin|..|GatewayOrigin| + 6] == "/ipfs/" || url[|GatewayOrigin|..|GatewayOrigin| + 6] == "/ipns/")
    ensures data.Some? && !DispatchLink(data).OpenPath? ==> DispatchLink(data) == InvalidLink
  {
    if DispatchLink(data).OpenPath? {
      var path := DispatchLink(data).path;
      OpenedPathHasNamespace(data);
      var url := GatewayUrl(path);
      assert url[|GatewayOrigin|..|GatewayOrigin| + 6] == path[..6];
    }
  }

  /** What the user ends up seeing after `onResume` and `openPath`. */
  datatype Outcome =
    | ViewUrl(url: string)        // the gateway URL is handed to a viewer and the activity finishes
    | ErrorDialog(title: string)  // a dialog with a Close button; dismissing it finishes the activity
    | Crash                       // the intent carried no URI

  /**
    The whole of `onResume` followed by `openPath`; `startSucceeded` is the
    outcome of waiting for the background service. The service's `start`
    never rejects its promise, so with the service as modelled the start
    always succeeds once `onCreate` has run; the failure branch is kept
    because `openPath` handles it.
  */
  function Resume(data: Option<Uri>, startSucceeded: bool): (o: Outcome)
    ensures o.ViewUrl? <==> DispatchLink(data).OpenPath? && startSucceeded
    ensures o.ViewUrl? ==> o.url == GatewayUrl(DispatchLink(data).path)
    ensures o.ViewUrl? ==> (
      |o.url| >= |GatewayOrigin| + 6 && o.url[..|GatewayOrigin|] == GatewayOrigin &&
      (o.url[|GatewayOrigin|..|GatewayOrigin| + 6] == "/ipfs/" || o.url[|GatewayOrigin|..|GatewayOrigin| + 6] == "/ipns/"))
    ensures o == Crash <==> data.None?
    ensures o.ErrorDialog? ==>
      (o.title == "Invalid link" <==> DispatchLink(data) == InvalidLink) &&
      (o.title == "Couldn't start IPFS" <==> DispatchLink(data).OpenPath?)
  {
    OpenedUrlShape(data);
    match DispatchLink(data)
    case MissingData => Crash
    case InvalidLink => ErrorDialog("Invalid link")
    case OpenPath(path) =>
      if startSucceeded then ViewUrl(GatewayUrl(path)) else ErrorDialog("Couldn't start IPFS")
  }
}
