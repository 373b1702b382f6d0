/** `urllib.parse.urlparse` as Python 3.12 computes it on ASCII text, and `parse_uri` on top of it. */
module Urls {
  import opened Outcomes
  import opened Text

  datatype UrlParts = UrlParts(scheme: string, netloc: string, path: string)

  /** What the `ipaddress` module says about a bracketed host; it is a parameter of the model. */
  type BracketRule = string -> bool

  const REMOVED: set<char> := {'\t', '\r', '\n'}

  /** The schemes whose last path segment `urlparse` cuts at the first ";". */
  const PARAM_SCHEMES: set<string> :=
    {"", "ftp", "hdl", "prospero", "http", "imap", "https", "shttp", "rtsp", "rtsps", "rtspu", "sip", "sips", "mms",
     "sftp", "tel"}

  predicate IsAlpha(c: char) { 'a' <= c <= 'z' || 'A' <= c <= 'Z' }

  predicate IsSchemeChar(c: char) { IsAlpha(c) || '0' <= c <= '9' || c == '+' || c == '-' || c == '.' }

  /** Leading control characters and spaces go, then every tab, CR and LF. */
  function LStripControl(s: string): (r: string)
    ensures r != [] ==> r[0] > ' '
    ensures s != [] && s[0] > ' ' ==> r == s
  {
    if s == [] || s[0] > ' ' then s else LStripControl(s[1..])
  }

  function Remove(s: string): (r: string)
    ensures |r| <= |s|
    ensures Avoids(r, REMOVED)
    ensures Avoids(s, REMOVED) ==> r == s
    ensures !Avoids(s, REMOVED) ==> |r| < |s|
    ensures forall c :: c in r ==> c in s
  {
    if s == [] then []
    else if s[0] in REMOVED then Remove(s[1..])
    else
      assert Avoids(s, REMOVED) <==> Avoids(s[1..], REMOVED);
      [s[0]] + Remove(s[1..])
  }

  function Clean(url: string): string {
    Remove(LStripControl(url))
  }

  /** The scheme and what follows its colon; no scheme leaves the text whole. */
  function SplitScheme(url: string): (r: (string, string)) {
    var i := FirstOf(url, {':'});
    if 0 < i < |url| && IsAlpha(url[0]) && forall k | 0 <= k < i :: IsSchemeChar(url[k])
    then (Lower(url[..i]), url[i + 1..])
    else ("", url)
  }

  const NETLOC_END: set<char> := {'/', '?', '#'}
  const PATH_END: set<char> := {'?', '#'}

  /** The authority after "//", and the rest of the text from its end on. */
  function SplitNetloc(rest: string): (r: (string, string)) {
    if StartsWith(rest, "//") then
      var n := Until(rest[2..], NETLOC_END);
      (n, rest[2 + |n|..])
    else ("", rest)
  }

  predicate NetlocOk(netloc: string, brackets: BracketRule) {
    var open, close := '[' in netloc, ']' in netloc;
    open == close && (open ==> brackets(netloc))
  }

  function LastSlash(s: string): (i: nat)
    ensures i < |s| || (s == "" && i == 0)
  {
    if s == "" then 0
    else if s[|s| - 1] == '/' then |s| - 1
    else LastSlash(s[..|s| - 1])
  }

  function DropParams(scheme: string, path: string): (r: string)
    ensures r <= path
    ensures scheme !in PARAM_SCHEMES ==> r == path
  {
    if scheme in PARAM_SCHEMES && ';' in path then
      var from := LastSlash(path);
      path[..from + FirstOf(path[from..], {';'})]
    else path
  }

  /** `None` is the ValueError of a malformed bracketed host. */
  function UrlParse(url: string, brackets: BracketRule): (r: Option<UrlParts>) {
    var (scheme, rest) := SplitScheme(Clean(url));
    var (netloc, tail) := SplitNetloc(rest);
    if !NetlocOk(netloc, brackets) then None
    else Some(UrlParts(scheme, netloc, DropParams(scheme, Until(tail, PATH_END))))
  }

  datatype ParsedUri = ParsedUri(scheme: string, host: string, path: string)

  predicate HasDoubleSlash(path: string) {
    exists i | 0 <= i < |path| - 1 :: path[i] == '/' && path[i + 1] == '/'
  }

  function Segments(path: string): seq<string> {
    NonEmpty(Split(path, '/'))
  }

  lemma SegmentsAfterSlash(t: string)
    ensures Split("/" + t, '/') == [""] + Split(t, '/')
    ensures Segments("/" + t) == Segments(t)
  {
    var s := "/" + t;
    SplitFirst(s, '/', 0);
    assert s[1..] == t && s[..0] == "";
  }

  lemma FirstSegment(folder: string, rest: string)
    requires folder != "" && forall k | 0 <= k < |folder| :: folder[k] != '/'
    requires rest == "" || rest[0] == '/'
    ensures Split(folder + rest, '/') == [folder] + (if rest == "" then [] else Split(rest[1..], '/'))
    ensures Segments(folder + rest) != [] && Segments(folder + rest)[0] == folder
  {
    var s := folder + rest;
    if rest == "" {
      assert s == folder;
      SplitWhole(s, '/');
    } else {
      SplitFirst(s, '/', |folder|);
      assert s[..|folder|] == folder && s[|folder| + 1..] == rest[1..];
    }
  }

  /** Which segment comes first, read off the text. */
  lemma FirstSegmentIs(t: string)
    requires t != "" && t[0] != '/'
    ensures Segments(t) != []
    ensures var folder, rest := Until(t, {'/'}), t[FirstOf(t, {'/'})..];
            t == folder + rest && folder == Segments(t)[0] && (rest == "" || rest[0] == '/')
  {
    var folder, rest := Until(t, {'/'}), t[FirstOf(t, {'/'})..];
    assert t == folder + rest;
    FirstSegment(folder, rest);
  }

  /** `parse_uri`: the reading every security primitive trusts. */
  function ParseUri(uri: string, brackets: BracketRule): (r: Outcome<ParsedUri>) {
    if uri == "" then Typed(UnsupportedScheme)
    else match UrlParse(uri, brackets)
      case None => Escaped(BadValue)
      case Some(p) =>
        if p.scheme == "" then Typed(UnsupportedScheme)
        else if HasDoubleSlash(p.path) then Typed(UnsupportedScheme)
        else if ".." in Segments(p.path) then Typed(UnsupportedScheme)
        else Ok(ParsedUri(Lower(p.scheme), p.netloc, p.path))
  }

  lemma SplitSchemeShape(url: string)
    requires Avoids(url, REMOVED)
    ensures
      var (scheme, rest) := SplitScheme(url);
      && Avoids(rest, REMOVED)
      && Lower(scheme) == scheme
      && forall k | 0 <= k < |scheme| :: IsSchemeChar(scheme[k])
  {
  }

  lemma SplitNetlocShape(rest: string)
    requires Avoids(rest, REMOVED)
    ensures
      var (netloc, tail) := SplitNetloc(rest);
      && Avoids(netloc, NETLOC_END) && Avoids(netloc, REMOVED)
      && Avoids(tail, REMOVED)
      && (netloc != "" && tail != "" ==> tail[0] in NETLOC_END)
  {
    if StartsWith(rest, "//") {
      var (netloc, tail) := SplitNetloc(rest);
      assert forall k | 0 <= k < |netloc| :: netloc[k] == rest[2 + k];
      assert forall k | 0 <= k < |tail| :: tail[k] == rest[2 + |netloc| + k];
    }
  }

  lemma PathShape(scheme: string, tail: string)
    requires Avoids(tail, REMOVED)
    ensures
      var path := DropParams(scheme, Until(tail, PATH_END));
      && Avoids(path, PATH_END) && Avoids(path, REMOVED)
      && path <= tail
  {
    var whole := Until(tail, PATH_END);
    var path := DropParams(scheme, whole);
    assert forall k | 0 <= k < |path| :: path[k] == whole[k] == tail[k];
  }

  /** What `urlparse` gives always is, whatever the text was. */
  lemma UrlParseShape(url: string, brackets: BracketRule)
    requires UrlParse(url, brackets).Some?
    ensures
      var p := UrlParse(url, brackets).value;
      && Lower(p.scheme) == p.scheme && (forall k | 0 <= k < |p.scheme| :: IsSchemeChar(p.scheme[k]))
      && Avoids(p.netloc, NETLOC_END) && Avoids(p.netloc, REMOVED) && NetlocOk(p.netloc, brackets)
      && Avoids(p.path, PATH_END) && Avoids(p.path, REMOVED)
      && (p.netloc != "" && p.path != "" ==> p.path[0] == '/')
  {
    var (scheme, rest) := SplitScheme(Clean(url));
    var (netloc, tail) := SplitNetloc(rest);
    SplitSchemeShape(Clean(url));
    SplitNetlocShape(rest);
    PathShape(scheme, tail);
  }

  /** And what an accepted reading is. */
  lemma AcceptedShape(uri: string, brackets: BracketRule)
    requires ParseUri(uri, brackets).Ok?
    ensures
      var p := ParseUri(uri, brackets).value;
      && p.scheme != "" && (forall k | 0 <= k < |p.scheme| :: IsSchemeChar(p.scheme[k]))
      && Avoids(p.host, NETLOC_END) && Avoids(p.host, REMOVED)
      && Avoids(p.path, PATH_END) && Avoids(p.path, REMOVED)
      && (p.host != "" && p.path != "" ==> p.path[0] == '/')
      && !HasDoubleSlash(p.path) && ".." !in Split(p.path, '/')
  {
    hide UrlParse;
    UrlParseShape(uri, brackets);
  }

  lemma RemoveConcat(a: string, b: string)
    ensures Avoids(a + b, REMOVED) <==> Avoids(a, REMOVED) && Avoids(b, REMOVED)
  {
    if Avoids(a + b, REMOVED) {
      assert forall k | 0 <= k < |a| :: (a + b)[k] == a[k];
      assert forall k | 0 <= k < |b| :: (a + b)[|a| + k] == b[k];
    }
  }

  lemma SchemeBuilt(scheme: string, rest: string)
    requires scheme != "" && IsAlpha(scheme[0]) && forall k | 0 <= k < |scheme| :: IsSchemeChar(scheme[k])
    ensures SplitScheme(scheme + ":" + rest) == (Lower(scheme), rest)
  {
    var url := scheme + ":" + rest;
    FirstOfAt(url, {':'}, |scheme|);
    assert url[..|scheme|] == scheme;
    assert url[|scheme| + 1..] == rest;
  }

  lemma NetlocBuilt(host: string, tail: string)
    requires Avoids(host, NETLOC_END)
    requires tail != "" ==> tail[0] in NETLOC_END
    ensures SplitNetloc("//" + host + tail) == (host, tail)
  {
    var rest := "//" + host + tail;
    assert rest[..2] == "//";
    assert rest[2..] == host + tail;
    FirstOfAt(host + tail, NETLOC_END, |host|);
    assert (host + tail)[..|host|] == host;
    assert rest[2 + |host|..] == tail;
  }

  lemma CleanBuilt(scheme: string, host: string, tail: string)
    requires scheme != "" && IsAlpha(scheme[0]) && forall k | 0 <= k < |scheme| :: IsSchemeChar(scheme[k])
    requires Avoids(host, REMOVED) && Avoids(tail, REMOVED)
    ensures Clean(scheme + "://" + host + tail) == scheme + "://" + host + tail
  {
    assert Avoids(scheme, REMOVED) && Avoids("://", REMOVED);
    RemoveConcat(scheme, "://");
    RemoveConcat(scheme + "://", host);
    RemoveConcat(scheme + "://" + host, tail);
  }

  /** How a text built from a scheme, a host and a tail is read back. */
  lemma ParseBuilt(scheme: string, host: string, tail: string, brackets: BracketRule)
    requires scheme != "" && IsAlpha(scheme[0]) && forall k | 0 <= k < |scheme| :: IsSchemeChar(scheme[k])
    requires Avoids(host, NETLOC_END) && Avoids(host, REMOVED) && Avoids(tail, REMOVED)
    requires tail != "" ==> tail[0] in NETLOC_END
    ensures
      UrlParse(scheme + "://" + host + tail, brackets) ==
      if NetlocOk(host, brackets)
      then Some(UrlParts(Lower(scheme), host, DropParams(Lower(scheme), Until(tail, PATH_END))))
      else None
  {
    var rest := "//" + host + tail;
    CleanBuilt(scheme, host, tail);
    assert scheme + "://" + host + tail == scheme + ":" + rest;
    SchemeBuilt(scheme, rest);
    NetlocBuilt(host, tail);
  }

  /** The schemes of the library's own URIs keep their ";" and are written in lower case. */
  lemma OpaqueSchemes()
    ensures "gs" !in PARAM_SCHEMES && "secret" !in PARAM_SCHEMES
    ensures Lower("gs") == "gs" && Lower("secret") == "secret"
  {
  }

  lemma ReadBuilt(scheme: string, host: string, path: string, brackets: BracketRule)
    requires scheme == "gs" || scheme == "secret"
    requires Avoids(host, NETLOC_END) && Avoids(host, REMOVED)
    requires Avoids(path, PATH_END) && Avoids(path, REMOVED)
    requires path != "" ==> path[0] == '/'
    ensures UrlParse(scheme + "://" + host + path, brackets) ==
            if NetlocOk(host, brackets) then Some(UrlParts(scheme, host, path)) else None
  {
    OpaqueSchemes();
    UntilAt(path, "", PATH_END);
    assert path + "" == path;
    hide UrlParse, Until, NetlocOk;
    ParseBuilt(scheme, host, path, brackets);
  }
}
