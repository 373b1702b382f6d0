/** The parser and the printer of secret references, and exactly when the one undoes the other. */
module SecretRefs {
  import opened Outcomes
  import opened Text
  import opened Urls

  datatype SecretRef = SecretRef(provider: string, name: string, version: string) {
    /** The length bounds every reference satisfies, however it was built. */
    predicate Bounded() {
      1 <= |provider| <= 64 && 1 <= |name| <= 128 && 1 <= |version| <= 32
    }

    function ToUri(): string {
      if version == "latest" then "secret" + "://" + provider + ("/" + name)
      else "secret" + "://" + provider + ("/" + name + "/" + version)
    }

    /** The characters a reference may hold if its text is to read back: none that ends a URI part
        or is removed from a URI, and a host the URL parser lets pass. */
    predicate Printable(brackets: BracketRule) {
      && (forall c | c in provider :: c !in NETLOC_END + REMOVED)
      && (forall c | c in name :: c !in NETLOC_END + REMOVED)
      && (forall c | c in version :: c !in PATH_END + REMOVED)
      && NetlocOk(provider, brackets)
    }
  }

  /** `lstrip("/")`. */
  function StripSlashes(path: string): (r: string)
    ensures r != "" ==> r[0] != '/'
    ensures |r| <= |path| && r == path[|path| - |r|..]
  {
    if path == "" || path[0] != '/' then path else StripSlashes(path[1..])
  }

  /** The text form of a reference; every failure is a validation error. */
  function ParseSecretUri(uri: string, brackets: BracketRule): (r: Option<SecretRef>)
    ensures r.Some? ==> r.value.Bounded()
  {
    match UrlParse(uri, brackets)
    case None => None
    case Some(p) =>
      if p.scheme != "secret" || p.netloc == "" then None
      else SecretFromPath(p.netloc, StripSlashes(p.path))
  }

  function SecretFromPath(provider: string, path: string): (r: Option<SecretRef>)
    ensures r.Some? ==> r.value.Bounded()
  {
    if path == "" then None
    else
      var i := FirstOf(path, {'/'});
      var ref := SecretRef(provider, path[..i], if i < |path| then path[i + 1..] else "latest");
      if ref.Bounded() then Some(ref) else None
  }

  lemma ReadBack(ref: SecretRef, brackets: BracketRule)
    requires ref.Bounded() && ref.Printable(brackets)
    ensures ParseSecretUri(ref.ToUri(), brackets) == Some(ref)
  {
    hide UrlParse, Avoids, SecretFromPath, StripSlashes, SecretRef.ToUri;
    var rest := if ref.version == "latest" then "" else "/" + ref.version;
    var path := "/" + ref.name + rest;
    TextParts(ref, rest);
    AvoidsPath(ref, rest);
    AvoidsBoth(ref.provider);
    ReadBuilt("secret", ref.provider, path, brackets);
    assert ref.name[0] in ref.name;
    StripOne(ref.name, rest);
    ReadName(ref, rest);
  }

  lemma TextParts(ref: SecretRef, rest: string)
    requires rest == if ref.version == "latest" then "" else "/" + ref.version
    ensures ref.ToUri() == "secret" + "://" + ref.provider + ("/" + ref.name + rest)
  {
    assert "/" + ref.name + "" == "/" + ref.name;
    Assoc("/" + ref.name, "/", ref.version);
  }

  lemma AvoidsBoth(provider: string)
    requires forall c | c in provider :: c !in NETLOC_END + REMOVED
    ensures Avoids(provider, NETLOC_END) && Avoids(provider, REMOVED)
  {
    forall k | 0 <= k < |provider| ensures provider[k] !in NETLOC_END && provider[k] !in REMOVED {
      assert provider[k] in provider;
    }
  }

  lemma AvoidsPath(ref: SecretRef, rest: string)
    requires forall c | c in ref.name :: c !in NETLOC_END + REMOVED
    requires forall c | c in ref.version :: c !in PATH_END + REMOVED
    requires rest == "" || rest == "/" + ref.version
    ensures Avoids("/" + ref.name + rest, PATH_END) && Avoids("/" + ref.name + rest, REMOVED)
  {
    var path := "/" + ref.name + rest;
    forall k | 0 <= k < |path| ensures path[k] !in PATH_END && path[k] !in REMOVED {
      if 1 <= k < 1 + |ref.name| { assert path[k] == ref.name[k - 1] && path[k] in ref.name; }
      else if 2 + |ref.name| <= k { assert path[k] == ref.version[k - 2 - |ref.name|] && path[k] in ref.version; }
      else { assert path[k] == '/'; }
    }
  }

  lemma StripOne(name: string, rest: string)
    requires name != "" && name[0] != '/'
    ensures StripSlashes("/" + name + rest) == name + rest
  {
    assert ("/" + name + rest)[1..] == name + rest;
  }

  lemma ReadName(ref: SecretRef, rest: string)
    requires ref.Bounded() && forall c | c in ref.name :: c != '/'
    requires rest == if ref.version == "latest" then "" else "/" + ref.version
    ensures SecretFromPath(ref.provider, ref.name + rest) == Some(ref)
  {
    var path := ref.name + rest;
    assert forall k | 0 <= k < |ref.name| :: path[k] == ref.name[k] && ref.name[k] in ref.name;
    FirstOfAt(path, {'/'}, |ref.name|);
    assert path[..|ref.name|] == ref.name;
    if rest != "" { assert path[|ref.name| + 1..] == ref.version; }
  }

  /** What parsing gives always prints back: parse-print-parse is stable, with `latest` implicit. */
  lemma ParsedIsPrintable(uri: string, brackets: BracketRule)
    requires ParseSecretUri(uri, brackets).Some?
    ensures ParseSecretUri(uri, brackets).value.Printable(brackets)
  {
    hide UrlParse, SecretFromPath;
    UrlParseShape(uri, brackets);
    var p := UrlParse(uri, brackets).value;
    var stripped := StripSlashes(p.path);
    assert forall k | 0 <= k < |stripped| :: stripped[k] == p.path[|p.path| - |stripped| + k];
    PartsAvoid(p.netloc, stripped);
  }

  lemma PartsAvoid(provider: string, path: string)
    requires SecretFromPath(provider, path).Some?
    requires Avoids(path, PATH_END) && Avoids(path, REMOVED)
    ensures var ref := SecretFromPath(provider, path).value;
            && ref.provider == provider
            && (forall c | c in ref.name :: c !in NETLOC_END + REMOVED)
            && (forall c | c in ref.version :: c !in PATH_END + REMOVED)
  {
    var ref := SecretFromPath(provider, path).value;
    var i := FirstOf(path, {'/'});
    assert forall k | 0 <= k < |ref.name| :: ref.name[k] == path[k];
    if i < |path| {
      assert forall k | 0 <= k < |ref.version| :: ref.version[k] == path[i + 1 + k];
    }
  }

  /** The printed text reads back as the reference exactly when the reference is printable. */
  lemma RoundTripExactly(ref: SecretRef, brackets: BracketRule)
    requires ref.Bounded()
    ensures ParseSecretUri(ref.ToUri(), brackets) == Some(ref) <==> ref.Printable(brackets)
  {
    hide ParseSecretUri;
    if ref.Printable(brackets) {
      ReadBack(ref, brackets);
    }
    if ParseSecretUri(ref.ToUri(), brackets) == Some(ref) {
      ParsedIsPrintable(ref.ToUri(), brackets);
    }
  }

  /** A reference given by its fields, whose text is read back as another secret. */
  lemma SlashInNameReadsAsVersion(brackets: BracketRule)
    ensures
      var ref := SecretRef("p", "a/b", "latest");
      ref.Bounded() && ParseSecretUri(ref.ToUri(), brackets) == Some(SecretRef("p", "a", "b"))
  {
    var ref, other := SecretRef("p", "a/b", "latest"), SecretRef("p", "a", "b");
    assert "/" + "a/b" == "/" + "a" + "/" + "b";
    assert ref.ToUri() == other.ToUri();
    assert other.Printable(brackets);
    ReadBack(other, brackets);
  }
}
