/** The URI checks of the request boundary: the scheme allowlist and the tenant prefix policy. */
module Security {
  import opened Outcomes
  import opened Text
  import opened Urls

  datatype Identity = Identity(userId: string, tenantId: string)

  /** `SchemeAllowlist.check`, over the lower-cased set its constructor keeps. */
  function CheckScheme(allowed: set<string>, uri: string, brackets: BracketRule): Outcome<()> {
    var p := ParseUri(uri, brackets);
    if !p.Ok? then p.Failed()
    else if p.value.scheme in allowed then Ok(()) else Typed(UnsupportedScheme)
  }

  const TENANT_AGNOSTIC: set<string> := {"secret", "inline"}
  const BUCKET_SCHEMES: set<string> := {"gs", "s3"}
  const BIGQUERY_SCHEMES: set<string> := {"bigquery"}

  datatype TenantPrefixPolicy = TenantPrefixPolicy(bucketPrefix: string, requireUser: bool) {

    function ExpectedPrefix(identity: Identity): string {
      bucketPrefix + "-" + identity.tenantId
    }

    function Authorize(uri: string, identity: Identity, brackets: BracketRule): Outcome<()> {
      var r := ParseUri(uri, brackets);
      if !r.Ok? then r.Failed()
      else
        var p := r.value;
        if p.scheme in TENANT_AGNOSTIC then Ok(())
        else if p.scheme in BUCKET_SCHEMES then CheckBucket(p.host, p.path, identity)
        else if p.scheme in BIGQUERY_SCHEMES then CheckBigQuery(p.host, identity)
        else Typed(UnauthorizedUri)
    }

    function CheckBucket(host: string, path: string, identity: Identity): Outcome<()> {
      if !StartsWith(host, ExpectedPrefix(identity)) then Typed(UnauthorizedUri)
      else if requireUser then CheckUserSegment(path, identity.userId)
      else Ok(())
    }

    function CheckBigQuery(host: string, identity: Identity): Outcome<()> {
      if StartsWith(Until(host, {'.'}), ExpectedPrefix(identity)) then Ok(()) else Typed(UnauthorizedUri)
    }

    function CheckUserSegment(path: string, userId: string): Outcome<()> {
      var segments := Segments(path);
      if segments == [] || segments[0] != "user_" + userId then Typed(UnauthorizedUri) else Ok(())
    }
  }

  predicate Comparable(a: string, b: string) { a <= b || b <= a }

  /** The name the prefix check reads: the bucket, or the project of a table. */
  function Owner(p: ParsedUri): string {
    if p.scheme in BUCKET_SCHEMES then p.host else Until(p.host, {'.'})
  }

  lemma AcceptedOwner(policy: TenantPrefixPolicy, uri: string, x: Identity, brackets: BracketRule)
    requires policy.Authorize(uri, x, brackets).Ok?
    requires ParseUri(uri, brackets).value.scheme in BUCKET_SCHEMES + BIGQUERY_SCHEMES
    ensures
      var p := ParseUri(uri, brackets).value;
      && policy.ExpectedPrefix(x) <= Owner(p)
      && (p.scheme in BUCKET_SCHEMES && policy.requireUser ==>
            Segments(p.path) != [] && Segments(p.path)[0] == "user_" + x.userId)
  {
    hide ParseUri, Segments, Until;
  }

  lemma PrefixesOfOne(whole: string, head: string, a: string, b: string)
    requires head + a <= whole && head + b <= whole
    ensures Comparable(a, b)
  {
    var n := |head|;
    assert forall k | 0 <= k < |a| :: a[k] == (head + a)[n + k] == whole[n + k];
    assert forall k | 0 <= k < |b| :: b[k] == (head + b)[n + k] == whole[n + k];
  }

  lemma SameUser(a: string, b: string)
    requires "user_" + a == "user_" + b
    ensures a == b
  {
    assert ("user_" + a)[5..] == a && ("user_" + b)[5..] == b;
  }

  /** Two identities accepted for one tenant-scoped URI have comparable tenants, and below a
      bucket with the user segment required they are the same user. */
  lemma TenantSeparation(policy: TenantPrefixPolicy, uri: string, a: Identity, b: Identity, brackets: BracketRule)
    requires policy.Authorize(uri, a, brackets).Ok? && policy.Authorize(uri, b, brackets).Ok?
    requires ParseUri(uri, brackets).value.scheme in BUCKET_SCHEMES + BIGQUERY_SCHEMES
    ensures Comparable(a.tenantId, b.tenantId)
    ensures ParseUri(uri, brackets).value.scheme in BUCKET_SCHEMES && policy.requireUser ==> a.userId == b.userId
  {
    var p := ParseUri(uri, brackets).value;
    AcceptedOwner(policy, uri, a, brackets);
    AcceptedOwner(policy, uri, b, brackets);
    PrefixesOfOne(Owner(p), policy.bucketPrefix + "-", a.tenantId, b.tenantId);
    if p.scheme in BUCKET_SCHEMES && policy.requireUser { SameUser(a.userId, b.userId); }
  }

  /** Text that a URI can carry between two slashes without being cut or changed. */
  ghost predicate PlainSegment(s: string) {
    Avoids(s, NETLOC_END) && Avoids(s, REMOVED)
  }

  lemma PlainConcat(a: string, b: string)
    requires PlainSegment(a) && PlainSegment(b)
    ensures PlainSegment(a + b)
  {
  }

  lemma ReadBucketUri(host: string, folder: string, brackets: BracketRule)
    requires PlainSegment(host) && NetlocOk(host, brackets)
    requires PlainSegment(folder) && folder != "" && folder[0] != '.'
    ensures ParseUri("gs" + "://" + host + ("/" + folder), brackets) == Ok(ParsedUri("gs", host, "/" + folder))
    ensures Segments("/" + folder) == [folder]
  {
    var path := "/" + folder;
    assert Avoids(path, PATH_END) && Avoids(path, REMOVED);
    ReadBuilt("gs", host, path, brackets);
    SegmentsAfterSlash(folder);
    SplitWhole(folder, '/');
    assert NonEmpty([folder]) == [folder];
    assert ".." != folder;
    assert !HasDoubleSlash(path);
    OpaqueSchemes();
    assert "gs" + "://" + host + path != "";
    hide UrlParse, NetlocOk, Segments, HasDoubleSlash;
  }

  /** A bucket URI accepted for both identities. */
  ghost predicate Shared(policy: TenantPrefixPolicy, uri: string, a: Identity, b: Identity, brackets: BracketRule) {
    && policy.Authorize(uri, a, brackets).Ok? && policy.Authorize(uri, b, brackets).Ok?
    && ParseUri(uri, brackets).value.scheme == "gs"
  }

  /** The separation is no finer than that: two identities share a bucket URI exactly when one tenant
      is a prefix of the other and, if the user is checked, the user is the same. */
  lemma SharedUriExists(policy: TenantPrefixPolicy, a: Identity, b: Identity, brackets: BracketRule)
    requires PlainSegment(policy.bucketPrefix) && PlainSegment(a.tenantId) && PlainSegment(b.tenantId)
    requires policy.requireUser ==> PlainSegment(a.userId)
    requires NetlocOk(policy.ExpectedPrefix(a), brackets) && NetlocOk(policy.ExpectedPrefix(b), brackets)
    ensures (exists uri :: Shared(policy, uri, a, b, brackets)) <==>
            Comparable(a.tenantId, b.tenantId) && (policy.requireUser ==> a.userId == b.userId)
  {
    hide ParseUri, TenantPrefixPolicy.Authorize, Comparable, NetlocOk, PlainSegment;
    if uri :| Shared(policy, uri, a, b, brackets) {
      TenantSeparation(policy, uri, a, b, brackets);
    }
    if Comparable(a.tenantId, b.tenantId) && (policy.requireUser ==> a.userId == b.userId) {
      var uri := SharedUri(policy, a, b, brackets);
    }
  }

  lemma SharedUri(policy: TenantPrefixPolicy, a: Identity, b: Identity, brackets: BracketRule) returns (uri: string)
    requires Comparable(a.tenantId, b.tenantId) && (policy.requireUser ==> a.userId == b.userId)
    requires PlainSegment(policy.bucketPrefix) && PlainSegment(a.tenantId) && PlainSegment(b.tenantId)
    requires policy.requireUser ==> PlainSegment(a.userId)
    requires NetlocOk(policy.ExpectedPrefix(a), brackets) && NetlocOk(policy.ExpectedPrefix(b), brackets)
    ensures Shared(policy, uri, a, b, brackets)
  {
    hide ParseUri, Segments, NetlocOk, Until;
    var longer := if a.tenantId <= b.tenantId then b else a;
    var host, folder := policy.ExpectedPrefix(longer), "user_" + if policy.requireUser then a.userId else "";
    PlainConcat(policy.bucketPrefix, "-");
    PlainConcat(policy.bucketPrefix + "-", longer.tenantId);
    PlainConcat("user_", if policy.requireUser then a.userId else "");
    ReadBucketUri(host, folder, brackets);
    uri := "gs" + "://" + host + ("/" + folder);
    assert policy.ExpectedPrefix(a) <= host && policy.ExpectedPrefix(b) <= host;
  }

  /** So an object of tenant "t2" is open to tenant "t", user check or not. */
  lemma LongerTenantIsOpen(requireUser: bool, brackets: BracketRule)
    ensures var policy, t, t2 := TenantPrefixPolicy("p", requireUser), Identity("1", "t"), Identity("1", "t2");
      exists uri :: Shared(policy, uri, t, t2, brackets) && ParseUri(uri, brackets).value.host == "p-t2"
  {
    hide ParseUri, Segments, NetlocOk, Until, HasDoubleSlash;
    var policy := TenantPrefixPolicy("p", requireUser);
    assert policy.ExpectedPrefix(Identity("1", "t")) == "p-t" && policy.ExpectedPrefix(Identity("1", "t2")) == "p-t2";
    assert PlainSegment("p-t2") && PlainSegment("user_1");
    PlainHost(brackets);
    ReadBucketUri("p-t2", "user_1", brackets);
    assert "user_" + "1" == "user_1";
    assert Shared(policy, "gs" + "://" + "p-t2" + ("/" + "user_1"), Identity("1", "t"), Identity("1", "t2"), brackets);
  }

  lemma PlainHost(brackets: BracketRule)
    ensures NetlocOk("p-t2", brackets)
  {
  }

  /** `remove_dot_segments`, section 5.2.4 of RFC 3986, from an input and an output buffer. */
  function RemoveDots(input: string, output: string): string
    decreases |input|
  {
    if input == "" then output
    else if StartsWith(input, "../") then RemoveDots(input[3..], output)
    else if StartsWith(input, "./") then RemoveDots(input[2..], output)
    else if StartsWith(input, "/./") then RemoveDots(input[2..], output)
    else if input == "/." then RemoveDots("/", output)
    else if StartsWith(input, "/../") then RemoveDots(input[3..], DropLastSegment(output))
    else if input == "/.." then RemoveDots("/", DropLastSegment(output))
    else if input == "." || input == ".." then output
    else
      var i := 1 + FirstOf(input[1..], {'/'});
      RemoveDots(input[i..], output + input[..i])
  }

  function DropLastSegment(output: string): string {
    output[..LastSlash(output)]
  }

  /** "/" + segment + rest begins with a given segment only when it is that segment. */
  lemma SegmentDecides(segment: string, rest: string, other: string, tail: string)
    requires forall k | 0 <= k < |segment| :: segment[k] != '/'
    requires forall k | 0 <= k < |other| :: other[k] != '/'
    requires rest == "" || rest[0] == '/'
    requires tail == "" || tail[0] == '/'
    requires segment + rest == other + tail
    ensures segment == other
  {
    FirstOfAt(segment + rest, {'/'}, |segment|);
    FirstOfAt(other + tail, {'/'}, |other|);
    assert segment == (segment + rest)[..|segment|];
    assert other == (other + tail)[..|other|];
  }

  lemma NotDotted(segment: string, rest: string)
    requires forall k | 0 <= k < |segment| :: segment[k] != '/'
    requires segment != "." && segment != ".." && (rest == "" || rest[0] == '/')
    ensures var input := "/" + segment + rest;
            input != "/." && input != "/.." && !("/./" <= input) && !("/../" <= input)
  {
    var input, text := "/" + segment + rest, segment + rest;
    assert input[1..] == text;
    DotAfter(input, text);
    if text == "." + "" { SegmentDecides(segment, rest, ".", ""); }
    if text == ".." + "" { SegmentDecides(segment, rest, "..", ""); }
    if "./" <= text { SegmentDecides(segment, rest, ".", text[1..]); }
    if "../" <= text { SegmentDecides(segment, rest, "..", text[2..]); }
  }

  lemma DotAfter(input: string, text: string)
    requires input == "/" + text
    ensures input == "/." ==> text == "." + ""
    ensures input == "/.." ==> text == ".." + ""
    ensures "/./" <= input ==> "./" <= text
    ensures "/../" <= input ==> "../" <= text
    ensures "./" <= text ==> text == "." + text[1..]
    ensures "../" <= text ==> text == ".." + text[2..]
  {
    assert text == input[1..];
  }

  /** The moves open to the algorithm on "/" + segment + rest, one at a time: the segment is copied, */
  lemma DotsCopy(input: string, output: string, i: nat)
    requires input != "" && input[0] == '/' && input != "/." && input != "/.." && !("/./" <= input)
             && !("/../" <= input)
    requires i == 1 + FirstOf(input[1..], {'/'})
    ensures RemoveDots(input, output) == RemoveDots(input[i..], output + input[..i])
  {
    hide FirstOf, DropLastSegment;
    assert input != "." && input != ".." && !StartsWith(input, "../") && !StartsWith(input, "./");
  }

  /** or it is a "." and is dropped, in the middle */
  lemma DotsDrop(input: string, output: string)
    requires "/./" <= input
    ensures RemoveDots(input, output) == RemoveDots(input[2..], output)
  {
    hide FirstOf, DropLastSegment;
    assert input[0] == '/' && input[1] == '.' && input[2] == '/';
  }

  /** or at the end. */
  lemma DotsDropLast(output: string)
    ensures RemoveDots("/.", output) == RemoveDots("/", output)
  {
    hide FirstOf, DropLastSegment;
    var input := "/.";
    assert |input| == 2 && input[0] == '/' && input[1] == '.';
    assert !StartsWith(input, "../") && !StartsWith(input, "./") && !StartsWith(input, "/./");
    assert RemoveDots(input, output) == RemoveDots("/", output);
  }

  lemma DotsStep(segment: string, rest: string, output: string)
    requires forall k | 0 <= k < |segment| :: segment[k] != '/'
    requires segment != ".." && (rest == "" || rest[0] == '/')
    ensures RemoveDots("/" + segment + rest, output) ==
            if segment != "." then RemoveDots(rest, output + ("/" + segment))
            else if rest == "" then output + "/"
            else RemoveDots(rest, output)
  {
    hide RemoveDots;
    var input := "/" + segment + rest;
    if segment != "." {
      NotDotted(segment, rest);
      CopiedPart(segment, rest);
      DotsCopy(input, output, 1 + |segment|);
    } else if rest == "" {
      assert input == "/.";
      DotsDropLast(output);
      DotsOnSlash(output);
    } else {
      assert "/./" <= input && input[2..] == rest;
      DotsDrop(input, output);
    }
  }

  lemma CopiedPart(segment: string, rest: string)
    requires forall k | 0 <= k < |segment| :: segment[k] != '/'
    requires rest == "" || rest[0] == '/'
    ensures var input := "/" + segment + rest;
      FirstOf(input[1..], {'/'}) == |segment| && input[..1 + |segment|] == "/" + segment
      && input[1 + |segment|..] == rest
  {
    var input := "/" + segment + rest;
    assert input[1..] == segment + rest;
    FirstOfAt(segment + rest, {'/'}, |segment|);
  }

  lemma DotsOnNothing(output: string)
    ensures RemoveDots("", output) == output
  {
  }

  lemma DotsOnSlash(output: string)
    ensures RemoveDots("/", output) == output + "/"
  {
    assert RemoveDots("", output + "/") == output + "/";
  }

  /** Without a ".." segment left to read, what is in the output buffer stays there. */
  lemma {:induction false} DotsKeepOutput(t: string, output: string)
    requires ".." !in Split(t, '/')
    ensures output <= RemoveDots("/" + t, output)
    ensures var rest := RemoveDots("/" + t, output)[|output|..]; rest == "" || rest[0] == '/'
    decreases |t|
  {
    hide RemoveDots;
    var j := FirstOf(t, {'/'});
    var segment, rest := t[..j], t[j..];
    assert Split(t, '/')[0] == segment;
    assert "/" + t == "/" + segment + rest;
    DotsStep(segment, rest, output);
    DotsOnNothing(output + ("/" + segment));
    if j < |t| {
      assert Split(t, '/') == [segment] + Split(t[j + 1..], '/');
      assert rest == "/" + t[j + 1..];
      DotsKeepOutput(t[j + 1..], if segment == "." then output else output + ("/" + segment));
    }
  }

  /** A path accepted for a user still starts in that user's folder once its dot segments are gone. */
  lemma DotSegmentsStayInside(policy: TenantPrefixPolicy, uri: string, identity: Identity, brackets: BracketRule)
    requires policy.requireUser && policy.Authorize(uri, identity, brackets).Ok?
    requires ParseUri(uri, brackets).value.scheme in BUCKET_SCHEMES
    ensures
      var clean := RemoveDots(ParseUri(uri, brackets).value.path, "");
      Segments(clean) != [] && Segments(clean)[0] == "user_" + identity.userId
  {
    var p := ParseUri(uri, brackets).value;
    var folder := "user_" + identity.userId;
    AcceptedShape(uri, brackets);
    AcceptedOwner(policy, uri, identity, brackets);
    assert p.host != "";
    NonEmptyPath(p.path);
    CleanedPathStarts(p.path, folder);
  }

  lemma NonEmptyPath(path: string)
    requires Segments(path) != []
    ensures path != ""
  {
    SplitWhole("", '/');
  }

  lemma FolderPath(path: string, folder: string) returns (rest: string)
    requires path != "" && path[0] == '/' && !HasDoubleSlash(path)
    requires Segments(path) != [] && Segments(path)[0] == folder
    ensures path == "/" + folder + rest && (rest == "" || rest[0] == '/')
    ensures folder != "" && forall k | 0 <= k < |folder| :: folder[k] != '/'
  {
    var t := path[1..];
    assert path == "/" + t;
    SegmentsAfterSlash(t);
    NonEmptyPath(t);
    assert t[0] == path[0 + 1];
    hide Segments;
    FirstSegmentIs(t);
    rest := t[FirstOf(t, {'/'})..];
    assert "/" + (folder + rest) == "/" + folder + rest;
  }

  lemma CleanedPathStarts(path: string, folder: string)
    requires path != "" && path[0] == '/' && !HasDoubleSlash(path) && ".." !in Split(path, '/')
    requires Segments(path) != [] && Segments(path)[0] == folder && folder != "."
    ensures Segments(RemoveDots(path, "")) != [] && Segments(RemoveDots(path, ""))[0] == folder
  {
    hide RemoveDots, Segments, Split, HasDoubleSlash;
    var rest := FolderPath(path, folder);
    NoDotsInside(folder, rest);
    DotsStep(folder, rest, "");
    CleanedTail(folder, rest);
    assert "" + ("/" + folder) == "/" + folder;
    var clean := RemoveDots(path, "");
    var after := clean[1 + |folder|..];
    assert clean == "/" + folder + after;
    Assoc("/", folder, after);
    SegmentsAfterSlash(folder + after);
    FirstSegment(folder, after);
  }

  lemma NoDotsInside(folder: string, rest: string)
    requires folder != "" && (forall k | 0 <= k < |folder| :: folder[k] != '/') && (rest == "" || rest[0] == '/')
    requires ".." !in Split("/" + folder + rest, '/')
    ensures folder != ".." && (rest != "" ==> ".." !in Split(rest[1..], '/'))
  {
    hide Split;
    Assoc("/", folder, rest);
    SegmentsAfterSlash(folder + rest);
    FirstSegment(folder, rest);
    var parts := Split(folder + rest, '/');
    assert forall x :: x in parts ==> x in [""] + parts;
    assert parts[0] == folder;
    if rest != "" { assert parts[1..] == Split(rest[1..], '/'); }
  }

  lemma CleanedTail(folder: string, rest: string)
    requires rest == "" || (rest[0] == '/' && ".." !in Split(rest[1..], '/'))
    ensures "/" + folder <= RemoveDots(rest, "/" + folder)
    ensures var after := RemoveDots(rest, "/" + folder)[1 + |folder|..]; after == "" || after[0] == '/'
  {
    if rest != "" {
      assert rest == "/" + rest[1..];
      DotsKeepOutput(rest[1..], "/" + folder);
    }
  }
}
