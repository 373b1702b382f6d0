/** The readings storage acts on, compared with the reading the policy decided on. */
module Addressing {
  import opened Outcomes
  import opened Text
  import opened Urls
  import opened Security

  datatype ObjectAddress = ObjectAddress(bucket: string, blob: string)

  /** `_parse_gs_uri`. */
  function ParseGsUri(uri: string): Outcome<ObjectAddress> {
    var i := FindSeparator(uri);
    var rest := if i < |uri| then uri[i + 3..] else "";
    if uri[..i] != "gs" then Typed(UnsupportedScheme)
    else
      var j := FirstOf(rest, {'/'});
      var blob := if j < |rest| then rest[j + 1..] else "";
      if j == 0 || blob == "" then Typed(UnsupportedScheme) else Ok(ObjectAddress(rest[..j], blob))
  }

  /** `_scheme_of`, the routing key of the composite store and of the in-memory store. */
  function SchemeOf(uri: string): string {
    Lower(uri[..FindSeparator(uri)])
  }

  /** Characters after which the two readings of a `gs` URI part. */
  const READ_DIFFERENTLY: set<char> := {'?', '#', '\t', '\r', '\n'}

  lemma GsUriParts(uri: string)
    requires ParseGsUri(uri).Ok?
    ensures var a := ParseGsUri(uri).value;
            && uri == "gs" + "://" + a.bucket + ("/" + a.blob)
            && a.bucket != "" && forall k | 0 <= k < |a.bucket| :: a.bucket[k] != '/'
  {
    var a := ParseGsUri(uri).value;
    var rest := uri[FindSeparator(uri) + 3..];
    SplitAtSeparator(uri);
    assert uri == "gs" + "://" + rest;
    SplitAtSlash(rest);
    assert "gs" + "://" + (a.bucket + ("/" + a.blob)) == "gs" + "://" + a.bucket + ("/" + a.blob);
  }

  lemma SplitAtSeparator(uri: string)
    requires FindSeparator(uri) < |uri|
    ensures var i := FindSeparator(uri); uri == uri[..i] + "://" + uri[i + 3..]
  {
  }

  lemma SplitAtSlash(rest: string)
    requires FirstOf(rest, {'/'}) < |rest|
    ensures var j := FirstOf(rest, {'/'}); rest == rest[..j] + ("/" + rest[j + 1..])
  {
  }

  lemma BothReadings(bucket: string, blob: string, brackets: BracketRule)
    requires bucket != "" && forall k | 0 <= k < |bucket| :: bucket[k] != '/'
    requires Avoids(bucket, READ_DIFFERENTLY) && Avoids(blob, READ_DIFFERENTLY)
    ensures UrlParse("gs" + "://" + bucket + ("/" + blob), brackets) ==
            if NetlocOk(bucket, brackets) then Some(UrlParts("gs", bucket, "/" + blob)) else None
  {
    var tail := "/" + blob;
    assert Avoids(bucket, NETLOC_END) && Avoids(bucket, REMOVED);
    assert Avoids(tail, PATH_END) && Avoids(tail, REMOVED);
    ReadBuilt("gs", bucket, tail, brackets);
  }

  /** The object storage addresses is the object the policy judged, exactly when the URI holds
      no "?", "#", tab, CR or LF. */
  lemma AuthorizedIsAddressed(uri: string, brackets: BracketRule)
    requires ParseUri(uri, brackets).Ok? && ParseGsUri(uri).Ok?
    ensures
      var p, a := ParseUri(uri, brackets).value, ParseGsUri(uri).value;
      (p.host == a.bucket && p.path == "/" + a.blob) <==> Avoids(uri, READ_DIFFERENTLY)
  {
    hide ParseGsUri, UrlParse, NetlocOk, HasDoubleSlash, Segments;
    var p, a := ParseUri(uri, brackets).value, ParseGsUri(uri).value;
    GsUriParts(uri);
    AvoidsParts(a.bucket, a.blob);
    if Avoids(uri, READ_DIFFERENTLY) {
      BothReadings(a.bucket, a.blob, brackets);
    }
    if p.host == a.bucket && p.path == "/" + a.blob {
      AcceptedShape(uri, brackets);
      assert forall k | 0 <= k < |a.blob| :: a.blob[k] == p.path[1 + k];
      assert Avoids(a.bucket, READ_DIFFERENTLY) && Avoids(a.blob, READ_DIFFERENTLY);
    }
  }

  lemma AvoidsParts(bucket: string, blob: string)
    ensures Avoids("gs" + "://" + bucket + ("/" + blob), READ_DIFFERENTLY) <==>
            Avoids(bucket, READ_DIFFERENTLY) && Avoids(blob, READ_DIFFERENTLY)
  {
    var uri := "gs" + "://" + bucket + ("/" + blob);
    assert forall k | 0 <= k < |bucket| :: uri[5 + k] == bucket[k];
    assert forall k | 0 <= k < |blob| :: uri[6 + |bucket| + k] == blob[k];
  }

  /** `Remove` works piece by piece. */
  lemma {:induction false} RemoveSplits(a: string, b: string)
    ensures Remove(a + b) == Remove(a) + Remove(b)
  {
    if a == "" {
      assert a + b == b && Remove(a) == "";
    } else {
      assert (a + b)[0] == a[0] && (a + b)[1..] == a[1..] + b;
      RemoveSplits(a[1..], b);
      if a[0] !in REMOVED { Assoc([a[0]], Remove(a[1..]), Remove(b)); }
    }
  }

  lemma RemoveKeeps(a: string, b: string)
    requires Avoids(a, REMOVED)
    ensures Remove(a + b) == a + Remove(b)
  {
    RemoveSplits(a, b);
  }

  lemma CleanedGsUri(bucket: string, blob: string)
    ensures Clean("gs" + "://" + bucket + ("/" + blob)) == "gs" + "://" + Remove(bucket) + ("/" + Remove(blob))
  {
    assert Avoids("gs" + "://", REMOVED) && Avoids("/", REMOVED);
    RemoveSplits("gs" + "://" + bucket, "/" + blob);
    RemoveSplits("gs" + "://", bucket);
    RemoveSplits("/", blob);
    assert ("gs" + "://" + bucket + ("/" + blob))[0] == 'g';
  }

  lemma {:induction false} RemoveTakes(s: string)
    ensures forall c :: c in Remove(s) ==> c in s
  {
  }

  /** What the policy reads of a `gs` URI, whatever its bucket and blob hold. */
  lemma ReadingOfGs(bucket: string, blob: string, brackets: BracketRule)
    requires forall k | 0 <= k < |bucket| :: bucket[k] != '/'
    ensures
      var host := Until(Remove(bucket), PATH_END);
      UrlParse("gs" + "://" + bucket + ("/" + blob), brackets) ==
      if !NetlocOk(host, brackets) then None
      else Some(UrlParts("gs", host, if host == Remove(bucket) then Until("/" + Remove(blob), PATH_END) else ""))
  {
    var host := Until(Remove(bucket), PATH_END);
    var cut := Remove(bucket)[|host|..];
    HostAndTail(bucket, blob, host, cut + ("/" + Remove(blob)));
    hide NetlocOk, Until, Remove, Clean, UrlParse;
    CleanedGsUri(bucket, blob);
    Regrouped(host, cut, "/" + Remove(blob));
    ParseCleaned("gs" + "://" + bucket + ("/" + blob), host, cut + ("/" + Remove(blob)), brackets);
  }

  lemma ParseCleaned(uri: string, host: string, tail: string, brackets: BracketRule)
    requires Clean(uri) == "gs" + "://" + host + tail
    requires Avoids(host, NETLOC_END) && Avoids(host, REMOVED) && Avoids(tail, REMOVED) && tail != ""
             && tail[0] in NETLOC_END
    ensures UrlParse(uri, brackets) ==
            if NetlocOk(host, brackets) then Some(UrlParts("gs", host, Until(tail, PATH_END))) else None
  {
    hide NetlocOk, Until, Remove, Clean, UrlParse, DropParams;
    var scheme := "gs";
    OpaqueSchemes();
    assert IsAlpha(scheme[0]) && forall k | 0 <= k < |scheme| :: IsSchemeChar(scheme[k]);
    CleanBuilt(scheme, host, tail);
    ParseBuilt(scheme, host, tail, brackets);
    SameCleanSameParse(scheme + "://" + host + tail, uri, brackets);
    KeepsParams(Until(tail, PATH_END));
  }

  lemma KeepsParams(path: string)
    ensures DropParams("gs", path) == path
  {
    OpaqueSchemes();
  }

  lemma Regrouped(host: string, cut: string, more: string)
    ensures "gs" + "://" + (host + cut) + more == "gs" + "://" + host + (cut + more)
  {
  }

  lemma SameCleanSameParse(a: string, b: string, brackets: BracketRule)
    requires Clean(a) == Clean(b)
    ensures UrlParse(a, brackets) == UrlParse(b, brackets)
  {
    hide Clean;
  }

  lemma HostAndTail(bucket: string, blob: string, host: string, tail: string)
    requires forall k | 0 <= k < |bucket| :: bucket[k] != '/'
    requires host == Until(Remove(bucket), PATH_END) && tail == Remove(bucket)[|host|..] + ("/" + Remove(blob))
    ensures Remove(bucket) == host + Remove(bucket)[|host|..]
    ensures Avoids(host, NETLOC_END) && Avoids(host, REMOVED) && Avoids(tail, REMOVED)
    ensures tail != "" && tail[0] in NETLOC_END
    ensures Until(tail, PATH_END) == if host == Remove(bucket) then Until("/" + Remove(blob), PATH_END) else ""
  {
    var b := Remove(bucket);
    RemoveTakes(bucket);
    hide Remove;
    forall k | 0 <= k < |b| ensures b[k] != '/' { assert b[k] in b; }
    assert forall k | 0 <= k < |host| :: host[k] == b[k];
    if host == b {
      assert tail == "/" + Remove(blob);
    } else {
      assert tail[0] == b[|host|];
      FirstOfAt(tail, PATH_END, 0);
    }
  }

  /** The addressed object lies in a bucket of the tenant and, when required, in the user's folder. */
  predicate Owned(policy: TenantPrefixPolicy, a: ObjectAddress, identity: Identity) {
    && StartsWith(a.bucket, policy.ExpectedPrefix(identity))
    && (policy.requireUser ==> Segments(a.blob) != [] && Segments(a.blob)[0] == "user_" + identity.userId)
  }

  function Head(s: string, n: nat): string { if n <= |s| then s[..n] else s }

  /** The two readings have the same start of the bucket, as far as the tenant's prefix goes, and
      the same first folder. */
  ghost predicate OwnerReadAlike(policy: TenantPrefixPolicy, a: ObjectAddress, identity: Identity) {
    && Avoids(Head(a.bucket, |policy.ExpectedPrefix(identity)|), REMOVED)
    && (policy.requireUser ==> Avoids(Until(a.blob, {'/'}), READ_DIFFERENTLY))
  }

  /** Under the policy, the addressed object is the tenant's and the user's exactly then. */
  lemma AddressedObjectIsOwned(policy: TenantPrefixPolicy, uri: string, identity: Identity, brackets: BracketRule)
    requires policy.Authorize(uri, identity, brackets).Ok? && ParseGsUri(uri).Ok?
    ensures Owned(policy, ParseGsUri(uri).value, identity) <==> OwnerReadAlike(policy, ParseGsUri(uri).value, identity)
  {
    var a, prefix := ParseGsUri(uri).value, policy.ExpectedPrefix(identity);
    hide ParseGsUri, Segments, Until, NetlocOk, FirstOf, Remove;
    GsUriParts(uri);
    ReadingOfGs(a.bucket, a.blob, brackets);
    var host := Until(Remove(a.bucket), PATH_END);
    assert UrlParse(uri, brackets).Some? && UrlParse(uri, brackets).value.netloc == host;
    AcceptedOwner(policy, uri, identity, brackets);
    AcceptedShape(uri, brackets);
    OpaqueSchemes();
    var p := ParseUri(uri, brackets).value;
    assert p.scheme == "gs" && p.host == host && prefix <= host;
    BucketOwned(a.bucket, prefix);
    if policy.requireUser {
      assert p.path == UrlParse(uri, brackets).value.path;
      FolderOwned(a.blob, p.path, "user_" + identity.userId);
    }
  }

  lemma BucketOwned(bucket: string, prefix: string)
    requires prefix <= Until(Remove(bucket), PATH_END)
    ensures StartsWith(bucket, prefix) <==> Avoids(Head(bucket, |prefix|), REMOVED)
  {
    var clean := Remove(bucket);
    assert prefix <= clean && |clean| <= |bucket| && Avoids(clean, REMOVED);
    hide Remove, Until, Avoids;
    if StartsWith(bucket, prefix) { PrefixAvoids(bucket, clean, prefix); }
    if Avoids(Head(bucket, |prefix|), REMOVED) {
      var head, rest := bucket[..|prefix|], bucket[|prefix|..];
      assert bucket == head + rest;
      PrefixStays(head, rest, prefix);
    }
  }

  lemma PrefixAvoids(bucket: string, clean: string, prefix: string)
    requires prefix <= bucket && prefix <= clean && Avoids(clean, REMOVED)
    ensures Avoids(Head(bucket, |prefix|), REMOVED)
  {
    assert Head(bucket, |prefix|) == prefix;
    assert forall k | 0 <= k < |prefix| :: prefix[k] == clean[k];
  }

  lemma PrefixStays(head: string, rest: string, prefix: string)
    requires prefix <= Remove(head + rest) && |prefix| == |head| && Avoids(head, REMOVED)
    ensures prefix == head
  {
    hide Remove, Avoids;
    RemoveKeeps(head, rest);
    SameLengthPrefixes(head, Remove(rest), prefix);
  }

  lemma SameLengthPrefixes(head: string, rest: string, prefix: string)
    requires prefix <= head + rest && |prefix| == |head|
    ensures prefix == head
  {
    assert (head + rest)[..|head|] == head;
  }

  /** The judged path starts in the folder; the blob does exactly when its first part is read as it is. */
  lemma FolderOwned(blob: string, path: string, folder: string)
    requires path == Until("/" + Remove(blob), PATH_END) || path == ""
    requires !HasDoubleSlash(path) && Segments(path) != [] && Segments(path)[0] == folder
    requires Avoids(path, PATH_END) && Avoids(path, REMOVED)
    ensures Segments(blob) != [] && Segments(blob)[0] == folder <==> Avoids(Until(blob, {'/'}), READ_DIFFERENTLY)
  {
    hide Segments, Remove, FirstOf, Until, HasDoubleSlash;
    var first, after := Until(blob, {'/'}), blob[|Until(blob, {'/'})|..];
    FirstPart(blob);
    NonEmptyPath(path);
    PathStarts(path, "/" + Remove(blob));
    var rest := FolderPath(path, folder);
    if first != "" { FirstSegment(first, after); }
    if Avoids(first, READ_DIFFERENTLY) {
      ReadFolder(first, after);
      SameFolder(first, Until(Remove(after), PATH_END), folder, rest);
    }
    if first == folder {
      forall k | 0 <= k < |first| ensures first[k] !in READ_DIFFERENTLY { assert path[1 + k] == folder[k]; }
    }
  }

  lemma FirstPart(blob: string)
    ensures var first, after := Until(blob, {'/'}), blob[|Until(blob, {'/'})|..];
      blob == first + after && (after == "" || after[0] == '/') && forall k | 0 <= k < |first| :: first[k] != '/'
  {
  }

  lemma PathStarts(path: string, text: string)
    requires path != "" && path <= text && text[0] == '/'
    ensures path[0] == '/'
  {
  }

  lemma SameFolder(first: string, more: string, folder: string, rest: string)
    requires "/" + (first + more) == "/" + folder + rest
    requires folder != "" && (forall k | 0 <= k < |folder| :: folder[k] != '/') && (rest == "" || rest[0] == '/')
    requires (forall k | 0 <= k < |first| :: first[k] != '/') && (more == "" || more[0] == '/')
    ensures first == folder
  {
    assert ("/" + (first + more))[1..] == first + more;
    assert ("/" + folder + rest)[1..] == folder + rest;
    SegmentDecides(first, more, folder, rest);
  }

  lemma ReadFolder(first: string, after: string)
    requires Avoids(first, READ_DIFFERENTLY) && (after == "" || after[0] == '/')
    ensures Until("/" + Remove(first + after), PATH_END) == "/" + (first + Until(Remove(after), PATH_END))
    ensures var more := Until(Remove(after), PATH_END); more == "" || more[0] == '/'
  {
    RemoveKeeps(first, after);
    var more := Remove(after);
    assert more == "" || more[0] == '/';
    hide Remove;
    UntilAfter("/" + first, more, PATH_END);
    Assoc("/", first, more);
    Assoc("/", first, Until(more, PATH_END));
  }

  lemma UntilAfter(head: string, tail: string, stops: set<char>)
    requires Avoids(head, stops)
    ensures Until(head + tail, stops) == head + Until(tail, stops)
  {
    var at := FirstOf(tail, stops);
    FirstOfAt(head + tail, stops, |head| + at);
  }

  // ---------------------------------------------------------------- where the readings part

  /** An accepted URI on which they part: judged on its folder, addressed with its query, and so
      an object outside the folder of the user it was accepted for. */
  lemma QueryIsAddressedNotJudged(brackets: BracketRule)
    ensures
      var policy, who, uri := TenantPrefixPolicy("p", true), Identity("1", "t"),
          "gs" + "://" + "p-t" + ("/" + "user_1?x");
      && policy.Authorize(uri, who, brackets).Ok?
      && ParseUri(uri, brackets) == Ok(ParsedUri("gs", "p-t", "/user_1"))
      && ParseGsUri(uri) == Ok(ObjectAddress("p-t", "user_1?x"))
      && !Owned(policy, ParseGsUri(uri).value, who)
  {
    hide UrlParse, ParseGsUri, Segments, HasDoubleSlash, NonEmpty, Until;
    var uri := "gs" + "://" + "p-t" + ("/" + "user_1?x");
    AddressedWithQuery(uri);
    JudgedWithoutQuery(brackets);
    UserFolder();
    OpaqueSchemes();
    FirstSegmentAlone("user_1?x");
    assert TenantPrefixPolicy("p", true).ExpectedPrefix(Identity("1", "t")) == "p-t";
    assert "user_" + "1" == "user_1";
  }

  lemma UserFolder()
    ensures Segments("/user_1") == ["user_1"] && !HasDoubleSlash("/user_1")
  {
    var folder := "user_1";
    assert "/user_1" == "/" + folder;
    FirstSegmentAlone(folder);
    hide Segments;
    SegmentsAfterSlash(folder);
  }

  lemma FirstSegmentAlone(folder: string)
    requires folder != "" && forall k | 0 <= k < |folder| :: folder[k] != '/'
    ensures Segments(folder) == [folder]
  {
    SplitWhole(folder, '/');
    assert NonEmpty([folder]) == [folder];
  }

  lemma JudgedWithoutQuery(brackets: BracketRule)
    ensures UrlParse("gs" + "://" + "p-t" + ("/" + "user_1?x"), brackets) == Some(UrlParts("gs", "p-t", "/user_1"))
  {
    var tail := "/" + "user_1?x";
    assert Avoids(tail, REMOVED) && Avoids("p-t", NETLOC_END) && Avoids("p-t", REMOVED);
    UntilAt("/user_1", "?x", PATH_END);
    assert "/user_1" + "?x" == tail;
    OpaqueSchemes();
    assert NetlocOk("p-t", brackets);
    hide UrlParse, Until, NetlocOk;
    ParseBuilt("gs", "p-t", tail, brackets);
  }

  lemma AddressedWithQuery(uri: string)
    requires uri == "gs" + "://" + "p-t" + ("/" + "user_1?x")
    ensures ParseGsUri(uri) == Ok(ObjectAddress("p-t", "user_1?x"))
  {
    assert SeparatorAt(uri, 2);
    var rest := uri[5..];
    assert FindSeparator(uri) == 2;
    assert uri[..2] == "gs" && rest == "p-t/user_1?x";
    FirstOfAt(rest, {'/'}, 3);
    assert rest[..3] == "p-t" && rest[4..] == "user_1?x";
  }

  /** The composite store routes by the scheme the policy judged, exactly when only scheme
      characters stand before the first "://". */
  lemma RoutedByJudgedScheme(uri: string, brackets: BracketRule)
    requires ParseUri(uri, brackets).Ok?
    ensures
      SchemeOf(uri) == ParseUri(uri, brackets).value.scheme <==>
      forall k | 0 <= k < FindSeparator(uri) :: IsSchemeChar(uri[k])
  {
    hide ParseUri, FindSeparator, SplitScheme, Clean, Lower, Segments, HasDoubleSlash, Avoids, Split, IsSchemeChar;
    JudgedScheme(uri, brackets);
    AcceptedShape(uri, brackets);
    var scheme, before := ParseUri(uri, brackets).value.scheme, uri[..FindSeparator(uri)];
    if Lower(before) == scheme { LowersToScheme(before, scheme); }
    if forall k | 0 <= k < FindSeparator(uri) :: IsSchemeChar(uri[k]) {
      SchemeBeforeSeparator(uri);
      LowerTwice(before);
    }
  }

  lemma JudgedScheme(uri: string, brackets: BracketRule)
    requires ParseUri(uri, brackets).Ok?
    ensures ParseUri(uri, brackets).value.scheme == Lower(SplitScheme(Clean(uri)).0) && SplitScheme(Clean(uri)).0 != ""
  {
    hide SplitScheme, Clean, SplitNetloc, NetlocOk, DropParams, Until, Lower, Segments, HasDoubleSlash;
  }

  lemma LowersToScheme(before: string, scheme: string)
    requires Lower(before) == scheme && forall k | 0 <= k < |scheme| :: IsSchemeChar(scheme[k])
    ensures forall k | 0 <= k < |before| :: IsSchemeChar(before[k])
  {
    forall k | 0 <= k < |before| ensures IsSchemeChar(before[k]) {
      assert scheme[k] == LowerChar(before[k]);
    }
  }

  lemma LowerTwice(s: string)
    ensures Lower(Lower(s)) == Lower(s)
  {
    assert forall k | 0 <= k < |s| :: Lower(Lower(s))[k] == Lower(s)[k];
  }

  /** Accepted URIs that are routed elsewhere: any accepted one with a space put before it, */
  lemma SpaceIsRouted(uri: string, brackets: BracketRule)
    requires ParseUri(uri, brackets).Ok?
    ensures ParseUri(" " + uri, brackets) == ParseUri(uri, brackets)
    ensures SchemeOf(" " + uri) != ParseUri(uri, brackets).value.scheme
  {
    NotEmptyWhenRead(uri, brackets);
    hide ParseUri, SchemeOf, IsSchemeChar;
    SpaceReadsAlike(uri, brackets);
    SpaceStays(uri);
    RoutedByJudgedScheme(" " + uri, brackets);
  }

  lemma NotEmptyWhenRead(uri: string, brackets: BracketRule)
    requires ParseUri(uri, brackets).Ok?
    ensures uri != ""
  {
    hide UrlParse;
  }

  lemma SpaceStays(uri: string)
    ensures 0 < FindSeparator(" " + uri) && !IsSchemeChar((" " + uri)[0])
  {
    assert !SeparatorAt(" " + uri, 0);
  }

  lemma SpaceReadsAlike(uri: string, brackets: BracketRule)
    requires uri != ""
    ensures ParseUri(" " + uri, brackets) == ParseUri(uri, brackets)
  {
    hide Remove, UrlParse, Segments, HasDoubleSlash;
    assert (" " + uri)[1..] == uri;
    SameCleanSameParse(" " + uri, uri, brackets);
  }

  /** and one with no "://" at all. */
  lemma NoAuthority(brackets: BracketRule)
    ensures ParseUri("gs" + ":" + "x", brackets) == Ok(ParsedUri("gs", "", "x"))
    ensures SchemeOf("gs" + ":" + "x") == "gs:x"
  {
    var uri := "gs" + ":" + "x";
    assert Avoids(uri, REMOVED) && Clean(uri) == uri;
    SchemeBuilt("gs", "x");
    OpaqueSchemes();
    UntilAt("x", "", PATH_END);
    assert "x" + "" == "x";
    assert SplitNetloc("x") == ("", "x") && NetlocOk("", brackets);
    KeepsParams("x");
    FirstSegmentAlone("x");
    assert FindSeparator(uri) == |uri| && uri[..|uri|] == "gs:x";
    hide Clean, SplitScheme, SplitNetloc, Until, Segments, DropParams, NetlocOk, FindSeparator;
  }

  lemma SchemeBeforeSeparator(uri: string)
    requires forall k | 0 <= k < FindSeparator(uri) :: IsSchemeChar(uri[k])
    requires SplitScheme(Clean(uri)).0 != ""
    ensures SplitScheme(Clean(uri)).0 == Lower(uri[..FindSeparator(uri)])
  {
    hide SplitScheme, FindSeparator, FirstOf, Clean;
    var i := FindSeparator(uri);
    var before, after := uri[..i], uri[i..];
    CleanAt(before, after);
    assert uri == before + after;
    if i == 0 {
      assert before + Remove(after) == Remove(after);
      NoScheme(Remove(after));
    } else {
      ReadScheme(before, Remove(after));
    }
  }

  lemma CleanAt(before: string, after: string)
    requires forall k | 0 <= k < |before| :: IsSchemeChar(before[k])
    requires after != "" ==> after[0] == ':'
    ensures Clean(before + after) == before + Remove(after)
    ensures Remove(after) != "" ==> Remove(after)[0] == ':'
  {
    RemoveKeeps(before, after);
    var uri := before + after;
    assert uri != "" ==> uri[0] > ' ';
  }

  lemma NoScheme(clean: string)
    requires clean != "" ==> clean[0] == ':'
    ensures SplitScheme(clean).0 == ""
  {
    FirstOfAt(clean, {':'}, 0);
  }

  lemma ReadScheme(before: string, after: string)
    requires before != "" && forall k | 0 <= k < |before| :: IsSchemeChar(before[k])
    requires after != "" ==> after[0] == ':'
    requires SplitScheme(before + after).0 != ""
    ensures SplitScheme(before + after).0 == Lower(before)
  {
    FirstOfAt(before + after, {':'}, |before|);
    assert (before + after)[..|before|] == before;
  }

}
