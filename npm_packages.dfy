/** The npm package coordinate model: an optional scope plus a name, and a
    dependency that pairs a package with a version. Grammar, parsers, printers,
    structural equality, JSON validation and the dependency sort order. */
module NpmPackages {
  import opened Results
  import opened Text

  // ---------------------------------------------------------------------------
  // Grammar. Go's `\w` is the ASCII class [0-9A-Za-z_].
  // ---------------------------------------------------------------------------

  predicate IsWordChar(c: char)
  {
    ('0' <= c <= '9') || ('a' <= c <= 'z') || ('A' <= c <= 'Z') || c == '_'
  }

  /** The character class `[\w\-\.]`. */
  predicate IsScopeChar(c: char)
  {
    IsWordChar(c) || c == '-' || c == '.'
  }

  /** `^[\w\-\.]+$`: the scope grammar. */
  predicate IsScope(s: string)
  {
    |s| > 0 && forall i :: 0 <= i < |s| ==> IsScopeChar(s[i])
  }

  /** `^[\w\-]+(\.[\w\-]+)*$`: the grammar shared by package names and versions,
      written character-wise: non-empty, only `[\w\-\.]`, no leading or trailing
      dot and no two dots in a row. `DottedNameBySegments` relates it to the
      segment-wise reading of the regex. */
  predicate IsDottedName(s: string)
  {
    && |s| > 0
    && s[0] != '.'
    && s[|s| - 1] != '.'
    && (forall i :: 0 <= i < |s| ==> IsScopeChar(s[i]))
    && (forall i :: 0 <= i < |s| - 1 ==> !(s[i] == '.' && s[i + 1] == '.'))
  }

  /** One `[\w\-]+` segment of a dotted name. */
  predicate IsSegment(s: string)
  {
    |s| > 0 && forall i :: 0 <= i < |s| ==> IsScopeChar(s[i]) && s[i] != '.'
  }

  // ---------------------------------------------------------------------------
  // Entities
  // ---------------------------------------------------------------------------

  /** An npm package `(@scope/)?name`; an empty scope means "unscoped". */
  datatype NpmPackage = NpmPackage(scope: string, name: string)

  /** A versioned package, as `npm install` takes it. The embedded package
      pointer is never nil in this model. */
  datatype NpmDependency = NpmDependency(pkg: NpmPackage, version: string)

  /** What `NewNpmPackage` admits. */
  predicate ValidPackage(p: NpmPackage)
  {
    (p.scope == "" || IsScope(p.scope)) && IsDottedName(p.name)
  }

  /** What `ParseNpmDependency` can produce. */
  predicate ValidDependency(d: NpmDependency)
  {
    ValidPackage(d.pkg) && IsDottedName(d.version)
  }

  /** Validating constructor: the scope may be empty, otherwise both parts
      must match their grammar. */
  function NewNpmPackage(scope: string, name: string): (r: Result<NpmPackage, string>)
    ensures r.Ok? <==> ValidPackage(NpmPackage(scope, name))
    ensures r.Ok? ==> r.value == NpmPackage(scope, name)
    ensures r.Err? && scope != "" && !IsScope(scope) ==> HasPrefix(r.error, "illegal scope ")
    ensures r.Err? && (scope == "" || IsScope(scope)) ==> HasPrefix(r.error, "illegal package name ")
  {
    if scope != "" && !IsScope(scope) then
      Err("illegal scope " + scope + " (allowed characters: 0-9, a-z, A-Z, _, -)")
    else if !IsDottedName(name) then
      Err("illegal package name " + name + " (allowed characters: 0-9, a-z, A-Z, _, -)")
    else
      Ok(NpmPackage(scope, name))
  }

  /** `(*NpmPackage).Equal`: the same pointer, or two non-nil pointers to equal
      values. A nil pointer is `None`. */
  function EqualPackage(a: Option<NpmPackage>, b: Option<NpmPackage>): (r: bool)
    ensures r <==> a == b
  {
    a == b || (a.Some? && b.Some? && a.value == b.value)
  }

  /** `(*NpmDependency).Equal`: packages `Equal` and versions identical. */
  function EqualDependency(a: Option<NpmDependency>, b: Option<NpmDependency>): (r: bool)
    ensures r <==> a == b
  {
    a == b || (a.Some? && b.Some? &&
               EqualPackage(Some(a.value.pkg), Some(b.value.pkg)) &&
               a.value.version == b.value.version)
  }

  // ---------------------------------------------------------------------------
  // Printers
  // ---------------------------------------------------------------------------

  /** `(@scope/)?name`. For a valid package it is non-empty, and `@` can only
      be its first character, which is `@` exactly for a scoped package. */
  function PackageSyntax(p: NpmPackage): (r: string)
    ensures ValidPackage(p) ==> |r| >= 1 && (r[0] == '@' <==> p.scope != "")
    ensures ValidPackage(p) ==> forall i :: 1 <= i < |r| ==> r[i] != '@'
  {
    if !ValidPackage(p) then
      if p.scope != "" then "@" + p.scope + "/" + p.name else p.name
    else if p.scope != "" then
      ScopedPackageShape(p.scope, p.name);
      "@" + p.scope + "/" + p.name
    else
      DottedNameExcludes(p.name);
      p.name
  }

  /** The globally unique repository name: `npm/scope/name` or `npm/name`
      (no `@` before the scope). For a valid package it holds no `@`, and
      its part after `npm/` parses back to the package. */
  function RepoName(p: NpmPackage): (r: string)
    ensures |r| >= 4 && r[..4] == "npm/"
    ensures ValidPackage(p) ==> '@' !in r && ParseRepoPath(r[4..]) == Some(p)
  {
    var path := RepoPath(p);
    var r := "npm/" + path;
    assert r[4..] == path;
    if ValidPackage(p) then
      RepoPathRoundTrip(p);
      assert '@' !in path;
      r
    else
      r
  }

  /** The part of the repository name after `npm/`. */
  function RepoPath(p: NpmPackage): string
  {
    if p.scope != "" then p.scope + "/" + p.name else p.name
  }

  /** The clone "URL" is the repository name. */
  function CloneURL(p: NpmPackage): (r: string)
    ensures ValidPackage(p) ==> ParseNpmPackageFromRepoURL(r) == Ok(p)
  {
    assert ValidPackage(p) ==> ParseNpmPackageFromRepoURL(RepoName(p)) == Ok(p) by {
      if ValidPackage(p) {
        RepoNameRoundTrip(p);
      }
    }
    RepoName(p)
  }

  /** `(@scope/)?name@version`, as the package manager takes it: the package
      syntax and `@`, then the version. */
  function PackageManagerSyntax(d: NpmDependency): (r: string)
    ensures HasPrefix(r, PackageSyntax(d.pkg) + "@")
    ensures r[|PackageSyntax(d.pkg)| + 1..] == d.version
  {
    var r := PackageSyntax(d.pkg) + "@" + d.version;
    assert r[..|PackageSyntax(d.pkg)| + 1] == PackageSyntax(d.pkg) + "@";
    r
  }

  /** The scheme, which is also the first component of every repository name. */
  function Scheme(d: NpmDependency): (r: string)
    ensures r == "npm"
    ensures HasPrefix(RepoName(d.pkg), r + "/")
  {
    "npm"
  }

  /** The version, which is what the package-manager syntax carries after
      the package and `@`, and what the git tag carries after `v`. */
  function PackageVersion(d: NpmDependency): (r: string)
    ensures r == d.version
    ensures r == PackageManagerSyntax(d)[|PackageSyntax(d.pkg)| + 1..]
    ensures GitTagFromVersion(d) == "v" + r
  {
    d.version
  }

  /** The tag under which a version is stored: `v` followed by the version. */
  function GitTagFromVersion(d: NpmDependency): (r: string)
    ensures |r| == |d.version| + 1 && r[0] == 'v' && r[1..] == d.version
  {
    "v" + d.version
  }

  /** Two dependencies get the same tag exactly when their versions coincide. */
  lemma GitTagInjective(d: NpmDependency, e: NpmDependency)
    ensures GitTagFromVersion(d) == GitTagFromVersion(e) <==> d.version == e.version
  {
    if GitTagFromVersion(d) == GitTagFromVersion(e) {
      assert GitTagFromVersion(d)[1..] == GitTagFromVersion(e)[1..];
    }
  }

  /** Whether a `(@scope/)?name@version` string refers to this package: for a
      valid package and a string that parses as a dependency, exactly when the
      dependency is on this package. */
  predicate MatchesDependencyString(p: NpmPackage, depPackageSyntax: string): (b: bool)
    ensures ValidPackage(p) && ParseNpmDependency(depPackageSyntax).Ok? ==>
              (b <==> ParseNpmDependency(depPackageSyntax).value.pkg == p)
  {
    if ValidPackage(p) && ParseNpmDependency(depPackageSyntax).Ok? then
      PackagePrefixIff(p, ParseNpmDependency(depPackageSyntax).value);
      HasPrefix(depPackageSyntax, PackageSyntax(p) + "@")
    else
      HasPrefix(depPackageSyntax, PackageSyntax(p) + "@")
  }

  // ---------------------------------------------------------------------------
  // Parsers
  // ---------------------------------------------------------------------------

  /** Index of the first `c` in `s`, or `|s|` when there is none. */
  function IndexOf(s: string, c: char): (r: nat)
    ensures r <= |s|
    ensures c !in s[..r]
    ensures r < |s| ==> s[r] == c
  {
    if s == [] then 0
    else if s[0] == c then 0
    else
      var k := IndexOf(s[1..], c);
      assert s[..k + 1] == [s[0]] + s[1..][..k];
      k + 1
  }

  function DependencyFormatError(dependency: string): string
  {
    "expected dependency in (@scope/)?name@version format but found " + dependency
  }

  /** Splits `name@version` at its only possible `@`; what it accepts is a
      valid name and version around that `@`. */
  function ParseNameAtVersion(scope: string, rest: string, dependency: string): (r: Result<NpmDependency, string>)
    ensures r.Ok? ==> r.value.pkg.scope == scope && IsDottedName(r.value.pkg.name) && IsDottedName(r.value.version) &&
                      rest == r.value.pkg.name + "@" + r.value.version
  {
    var j := IndexOf(rest, '@');
    if j == |rest| then Err(DependencyFormatError(dependency))
    else
      assert rest == rest[..j] + "@" + rest[j + 1..];
      var name, version := rest[..j], rest[j + 1..];
      if IsDottedName(name) && IsDottedName(version) then
        Ok(NpmDependency(NpmPackage(scope, name), version))
      else
        Err(DependencyFormatError(dependency))
  }

  /** `ParseNpmDependency`: matches `^(@scope/)?name@version$`. Neither a scope
      nor a name nor a version contains `/` or `@`, so when the string starts
      with `@` the scope runs to the first `/`, and `name@version` splits at
      its first `@`. Everything it accepts is the package-manager syntax of
      the valid dependency it returns; `ParseDependencyComplete` gives the
      converse. */
  function ParseNpmDependency(dependency: string): (r: Result<NpmDependency, string>)
    ensures r.Ok? ==> ValidDependency(r.value) && PackageManagerSyntax(r.value) == dependency
  {
    if |dependency| > 0 && dependency[0] == '@' then
      var k := IndexOf(dependency, '/');
      if k == |dependency| then Err(DependencyFormatError(dependency))
      else if IsScope(dependency[1..k]) then
        var r := ParseNameAtVersion(dependency[1..k], dependency[k + 1..], dependency);
        if r.Ok? then
          ScopedSyntax(dependency, k, r.value.pkg.name, r.value.version);
          r
        else
          r
      else
        Err(DependencyFormatError(dependency))
    else
      ParseNameAtVersion("", dependency, dependency)
  }

  /** `ParseNpmPackageFromRepoURL`: matches `^npm/(scope/)?name$`. Everything
      it accepts is the repository name of the valid package it returns. */
  function ParseNpmPackageFromRepoURL(urlPath: string): (r: Result<NpmPackage, string>)
    ensures r.Ok? ==> ValidPackage(r.value) && RepoName(r.value) == urlPath
  {
    var err := Err("expected path in npm/(scope/)?name format but found " + urlPath);
    if !HasPrefix(urlPath, "npm/") then err
    else
      assert urlPath == "npm/" + urlPath[4..];
      match ParseRepoPath(urlPath[4..])
      case Some(p) => Ok(p)
      case None => err
  }

  /** Matches `(scope/)?name`, the part of a repository name after `npm/`. */
  function ParseRepoPath(rest: string): (r: Option<NpmPackage>)
    ensures r.Some? ==> ValidPackage(r.value) && RepoPath(r.value) == rest
  {
    var k := IndexOf(rest, '/');
    if k < |rest| then
      SplitAround(rest, k);
      if IsScope(rest[..k]) && IsDottedName(rest[k + 1..]) then Some(NpmPackage(rest[..k], rest[k + 1..]))
      else None
    else if IsDottedName(rest) then Some(NpmPackage("", rest))
    else None
  }

  /** `ParseNpmPackageFromPackageSyntax`: parses `pkg@0` as a dependency and
      keeps its package. Everything it accepts is the package syntax of the
      valid package it returns. */
  function ParseNpmPackageFromPackageSyntax(pkg: string): (r: Result<NpmPackage, string>)
    ensures r.Ok? ==> ValidPackage(r.value) && PackageSyntax(r.value) == pkg
  {
    match ParseNpmDependency(pkg + "@0")
    case Ok(d) =>
      DottedNameExcludes(d.version);
      assert PackageSyntax(d.pkg) + ['@'] + d.version == pkg + ['@'] + "0";
      SplitAtLastSeparator(PackageSyntax(d.pkg), d.version, pkg, "0", '@');
      Ok(d.pkg)
    case Err(e) => Err(e)
  }

  // ---------------------------------------------------------------------------
  // Facts about the grammar
  // ---------------------------------------------------------------------------

  lemma ScopeExcludes(s: string)
    requires IsScope(s)
    ensures '/' !in s && '@' !in s
  {
    forall i | 0 <= i < |s| ensures s[i] != '/' && s[i] != '@' {
      assert IsScopeChar(s[i]);
    }
  }

  lemma DottedNameExcludes(s: string)
    requires IsDottedName(s)
    ensures '/' !in s && '@' !in s && s[0] != '@'
  {
    forall i | 0 <= i < |s| ensures s[i] != '/' && s[i] != '@' {
      assert IsScopeChar(s[i]);
    }
  }

  lemma IndexOfAfter(a: string, c: char, b: string)
    requires c !in a
    ensures IndexOf(a + [c] + b, c) == |a|
  {
    var s := a + [c] + b;
    var k := IndexOf(s, c);
    forall j | 0 <= j < |a| ensures s[j] != c {
      assert s[j] == a[j];
    }
    assert s[|a|] == c;
    assert forall j :: |a| < j <= |s| ==> s[..j][|a|] == c;
  }

  /** A dotted name that starts with a dot-free run splits into a segment
      and a dotted name. */
  lemma DottedNameTail(a: string, b: string)
    requires '.' !in a
    requires IsDottedName(a + ['.'] + b)
    ensures IsSegment(a) && IsDottedName(b)
  {
    var s := a + ['.'] + b;
    var k := |a|;
    assert s[k] == '.';
    assert k > 0;
    forall i | 0 <= i < |a| ensures IsScopeChar(a[i]) && a[i] != '.' {
      assert a[i] == s[i];
    }
    assert k + 1 < |s|;
    assert b[0] == s[k + 1];
    forall i | 0 <= i < |b| ensures IsScopeChar(b[i]) {
      assert b[i] == s[k + 1 + i];
    }
    forall i | 0 <= i < |b| - 1 ensures !(b[i] == '.' && b[i + 1] == '.') {
      assert b[i] == s[k + 1 + i] && b[i + 1] == s[k + 2 + i];
    }
    assert b[|b| - 1] == s[|s| - 1];
  }

  /** A segment, a dot and a dotted name make a dotted name. */
  lemma DottedNameJoin(a: string, b: string)
    requires IsSegment(a) && IsDottedName(b)
    ensures IsDottedName(a + ['.'] + b)
  {
    var s := a + ['.'] + b;
    var k := |a|;
    forall i | 0 <= i < |s| ensures IsScopeChar(s[i]) {
      if i > k {
        assert s[i] == b[i - k - 1];
      } else if i < k {
        assert s[i] == a[i];
      }
    }
    forall i | 0 <= i < |s| - 1 ensures !(s[i] == '.' && s[i + 1] == '.') {
      if i > k {
        assert s[i] == b[i - k - 1] && s[i + 1] == b[i - k];
      } else if i == k {
        assert s[i + 1] == b[0];
      } else if i + 1 < k {
        assert s[i + 1] == a[i + 1];
      } else {
        assert s[i] == a[i];
      }
    }
    assert s[0] == a[0];
    assert s[|s| - 1] == b[|b| - 1];
  }

  lemma AllSegmentsCons(a: string, rest: seq<string>)
    ensures (forall i :: 0 <= i < |[a] + rest| ==> IsSegment(([a] + rest)[i])) <==>
            IsSegment(a) && forall i :: 0 <= i < |rest| ==> IsSegment(rest[i])
  {
    var pieces := [a] + rest;
    assert pieces[0] == a;
    assert forall i :: 0 <= i < |rest| ==> pieces[i + 1] == rest[i];
  }

  /** The segment-wise reading of `[\w\-]+(\.[\w\-]+)*`: every piece between
      dots is a non-empty run of `[\w\-]`. */
  lemma {:induction false} DottedNameBySegments(s: string)
    ensures IsDottedName(s) <==> forall i :: 0 <= i < |Split(s, '.')| ==> IsSegment(Split(s, '.')[i])
  {
    var pieces := Split(s, '.');
    if s == [] {
      assert pieces == [""];
      assert !IsSegment(pieces[0]);
    } else if '.' !in s {
      SplitNoSeparator(s, '.');
      assert forall i :: 0 <= i < |s| ==> s[i] != '.';
      assert pieces[0] == s;
    } else {
      var k := IndexOf(s, '.');
      var a, b := s[..k], s[k + 1..];
      assert s == a + ['.'] + b;
      SplitAppend(a, b, '.');
      SplitNoSeparator(a, '.');
      assert pieces == [a] + Split(b, '.');
      DottedNameBySegments(b);
      AllSegmentsCons(a, Split(b, '.'));
      if IsDottedName(s) {
        DottedNameTail(a, b);
      }
      if IsSegment(a) && IsDottedName(b) {
        DottedNameJoin(a, b);
      }
    }
  }

  // ---------------------------------------------------------------------------
  // Round trips between parsers and printers
  // ---------------------------------------------------------------------------

  /** `@scope/name@version`, reassembled around the first `/`. */
  lemma ScopedSyntax(s: string, k: int, name: string, version: string)
    requires 0 < k < |s| && s[0] == '@' && s[k] == '/'
    requires s[k + 1..] == name + "@" + version
    ensures "@" + s[1..k] + "/" + name + "@" + version == s
  {
    SplitAround(s, k);
    assert s[..k] == "@" + s[1..k];
    ConcatAssociative("@" + s[1..k] + "/", name, "@" + version);
  }

  /** A string is its prefix before `k`, the character at `k` and the rest. */
  lemma SplitAround(s: string, k: int)
    requires 0 <= k < |s|
    ensures s == s[..k] + [s[k]] + s[k + 1..]
  {
  }

  lemma ConcatAssociative(a: string, b: string, c: string)
    ensures a + b + c == a + (b + c)
  {
  }

  /** Every valid dependency is parsed back from its package-manager syntax. */
  lemma ParseDependencyComplete(d: NpmDependency)
    requires ValidDependency(d)
    ensures ParseNpmDependency(PackageManagerSyntax(d)) == Ok(d)
  {
    var name, version := d.pkg.name, d.version;
    DottedNameExcludes(name);
    DottedNameExcludes(version);
    IndexOfAfter(name, '@', version);
    assert (name + "@" + version)[..|name|] == name;
    assert (name + "@" + version)[|name| + 1..] == version;
    assert ParseNameAtVersion(d.pkg.scope, name + "@" + version, PackageManagerSyntax(d)) == Ok(d);
    if d.pkg.scope != "" {
      ParseScopedComplete(d);
    } else {
      var s := PackageManagerSyntax(d);
      assert s == name + "@" + version;
      assert s[0] == name[0];
    }
  }

  /** The scoped case of `ParseDependencyComplete`: the first `/` closes the scope. */
  lemma ParseScopedComplete(d: NpmDependency)
    requires ValidDependency(d) && d.pkg.scope != ""
    requires ParseNameAtVersion(d.pkg.scope, d.pkg.name + "@" + d.version, PackageManagerSyntax(d)) == Ok(d)
    ensures ParseNpmDependency(PackageManagerSyntax(d)) == Ok(d)
  {
    var s := PackageManagerSyntax(d);
    var scope, rest := d.pkg.scope, d.pkg.name + "@" + d.version;
    ScopeExcludes(scope);
    assert s == ("@" + scope) + ['/'] + rest;
    assert '/' !in "@" + scope;
    IndexOfAfter("@" + scope, '/', rest);
    assert s[1..|scope| + 1] == scope;
    assert s[|scope| + 2..] == rest;
  }

  /** Parsing the package-manager syntax of a valid dependency yields an
      `Equal` dependency. */
  lemma ParsePrintedDependencyIsEqual(d: NpmDependency)
    requires ValidDependency(d)
    ensures ParseNpmDependency(PackageManagerSyntax(d)).Ok?
    ensures EqualDependency(Some(d), Some(ParseNpmDependency(PackageManagerSyntax(d)).value))
  {
    ParseDependencyComplete(d);
  }

  /** `ParseNpmPackageFromRepoURL` inverts `RepoName` on valid packages. */
  lemma RepoNameRoundTrip(p: NpmPackage)
    requires ValidPackage(p)
    ensures ParseNpmPackageFromRepoURL(RepoName(p)) == Ok(p)
  {
    var s := RepoName(p);
    assert HasPrefix(s, "npm/");
  }

  /** `ParseRepoPath` inverts `RepoPath` on valid packages. */
  lemma RepoPathRoundTrip(p: NpmPackage)
    requires ValidPackage(p)
    ensures ParseRepoPath(RepoPath(p)) == Some(p)
    ensures '@' !in RepoPath(p)
  {
    DottedNameExcludes(p.name);
    if p.scope != "" {
      ScopeExcludes(p.scope);
      assert '@' !in p.scope + "/";
      IndexOfAfter(p.scope, '/', p.name);
      assert RepoPath(p) == p.scope + ['/'] + p.name;
      assert RepoPath(p)[..|p.scope|] == p.scope;
      assert RepoPath(p)[|p.scope| + 1..] == p.name;
    }
  }

  lemma SplitAtLastSeparator(a: string, b: string, c: string, e: string, sep: char)
    requires a + [sep] + b == c + [sep] + e
    requires sep !in b && sep !in e
    ensures a == c && b == e
  {
    var s := a + [sep] + b;
    assert s[|s| - |b| - 1] == sep && s[|s| - |e| - 1] == sep;
    forall j | |s| - |e| <= j < |s| ensures s[j] != sep {
      assert s[j] == e[j - (|s| - |e|)];
    }
    forall j | |s| - |b| <= j < |s| ensures s[j] != sep {
      assert s[j] == b[j - (|s| - |b|)];
    }
    assert |a| == |c|;
    assert a == s[..|a|] && c == s[..|c|];
    assert b == s[|a| + 1..] && e == s[|c| + 1..];
  }

  /** `ParseNpmPackageFromPackageSyntax` inverts `PackageSyntax` on valid packages. */
  lemma PackageSyntaxRoundTrip(p: NpmPackage)
    requires ValidPackage(p)
    ensures ParseNpmPackageFromPackageSyntax(PackageSyntax(p)) == Ok(p)
  {
    var d := NpmDependency(p, "0");
    assert IsDottedName("0");
    ParseDependencyComplete(d);
    assert PackageSyntax(p) + "@0" == PackageManagerSyntax(d);
  }

  lemma PackageSyntaxInjective(p: NpmPackage, q: NpmPackage)
    requires ValidPackage(p) && ValidPackage(q)
    requires PackageSyntax(p) == PackageSyntax(q)
    ensures p == q
  {
    PackageSyntaxRoundTrip(p);
    PackageSyntaxRoundTrip(q);
  }

  /** `@scope/name` of a valid scope and name has `@` only at index 0. */
  lemma ScopedPackageShape(scope: string, name: string)
    requires IsScope(scope) && IsDottedName(name)
    ensures forall i :: 1 <= i < |"@" + scope + "/" + name| ==> ("@" + scope + "/" + name)[i] != '@'
  {
    DottedNameExcludes(name);
    ScopeExcludes(scope);
    var ps := "@" + scope + "/" + name;
    forall i | 1 <= i < |ps| ensures ps[i] != '@' {
      if i <= |scope| {
        assert ps[i] == scope[i - 1];
      } else if i > |scope| + 1 {
        assert ps[i] == name[i - |scope| - 2];
      }
    }
  }

  /** A valid package matches the package-manager syntax of a valid dependency
      exactly when the dependency is on that package. */
  lemma MatchesDependencyStringIff(p: NpmPackage, d: NpmDependency)
    requires ValidPackage(p) && ValidDependency(d)
    ensures MatchesDependencyString(p, PackageManagerSyntax(d)) <==> d.pkg == p
  {
    ParseDependencyComplete(d);
  }

  /** The prefix test behind `MatchesDependencyString`, on printed dependencies. */
  lemma PackagePrefixIff(p: NpmPackage, d: NpmDependency)
    requires ValidPackage(p) && ValidDependency(d)
    ensures HasPrefix(PackageSyntax(d.pkg) + "@" + d.version, PackageSyntax(p) + "@") <==> d.pkg == p
  {
    var ps, qs := PackageSyntax(p), PackageSyntax(d.pkg);
    var s := PackageSyntax(d.pkg) + "@" + d.version;
    if d.pkg == p {
      assert s[..|ps + "@"|] == ps + "@";
    }
    if HasPrefix(s, ps + "@") {
      var n, m := |ps|, |qs|;
      assert s[..n + 1] == ps + "@";
      assert s[n] == '@';
      assert s[m] == '@';
      forall i | 1 <= i < n ensures s[i] != '@' {
        assert s[i] == s[..n + 1][i] == ps[i];
      }
      forall i | 1 <= i < m ensures s[i] != '@' {
        assert s[i] == qs[i];
      }
      assert ps == s[..n] == qs;
      PackageSyntaxInjective(p, d.pkg);
    }
  }

  // ---------------------------------------------------------------------------
  // JSON validation
  // ---------------------------------------------------------------------------

  /** The JSON shape `{"Scope": ..., "Name": ...}`. */
  datatype NpmPackageSerializationHelper = NpmPackageSerializationHelper(Scope: string, Name: string)

  /** `MarshalJSON` before byte encoding: a valid package is rebuilt from the
      helper it produces. */
  function MarshalJSON(p: NpmPackage): (h: NpmPackageSerializationHelper)
    ensures ValidPackage(p) ==> NewNpmPackage(h.Scope, h.Name) == Ok(p)
    ensures !ValidPackage(p) ==> NewNpmPackage(h.Scope, h.Name).Err?
  {
    NpmPackageSerializationHelper(p.scope, p.name)
  }

  /** The memory a `*NpmPackage` receiver points to. */
  class NpmPackageCell {
    var value: NpmPackage

    constructor (p: NpmPackage)
      ensures value == p
    {
      value := p;
    }

    /** `UnmarshalJSON`: `decoded` is the outcome of decoding the bytes into the
        helper struct. The receiver is overwritten only when the decoded scope
        and name pass `NewNpmPackage`. */
    method UnmarshalJSON(decoded: Result<NpmPackageSerializationHelper, string>) returns (err: Option<string>)
      modifies this
      ensures decoded.Err? ==> err == Some(decoded.error) && value == old(value)
      ensures decoded.Ok? ==> match NewNpmPackage(decoded.value.Scope, decoded.value.Name)
                              case Ok(p) => err == None && value == p
                              case Err(e) => err == Some(e) && value == old(value)
      ensures err == None <==> decoded.Ok? && ValidPackage(NpmPackage(decoded.value.Scope, decoded.value.Name))
    {
      match decoded {
        case Err(e) =>
          return Some(e);
        case Ok(wrapper) =>
          var newPkg := NewNpmPackage(wrapper.Scope, wrapper.Name);
          match newPkg {
            case Err(e) =>
              return Some(e);
            case Ok(p) =>
              value := p;
              return None;
          }
      }
    }
  }

  // ---------------------------------------------------------------------------
  // Sort order
  // ---------------------------------------------------------------------------

  /** A strict weak order: irreflexive, transitive, and with a transitive
      incomparability relation. `sort.Slice` needs its comparator to be one. */
  ghost predicate StrictWeakOrder<T(!new)>(lt: (T, T) -> bool)
  {
    && (forall a :: !lt(a, a))
    && (forall a, b, c :: lt(a, b) && lt(b, c) ==> lt(a, c))
    && (forall a, b, c :: !lt(a, b) && !lt(b, c) ==> !lt(a, c))
  }

  /** Go's `a > b` on strings. */
  predicate StringGreater(a: string, b: string)
  {
    StringLess(b, a)
  }

  /** Package order of the sort: scope descending, then name descending. */
  predicate PackageBefore(p: NpmPackage, q: NpmPackage)
  {
    if p.scope == q.scope then StringGreater(p.name, q.name) else StringGreater(p.scope, q.scope)
  }

  /** The comparator of `SortNpmDependencies`: within one package newer
      versions (by `versionGreaterThan`) come first, otherwise `PackageBefore`. */
  predicate SortLess(versionGreaterThan: (string, string) -> bool, x: NpmDependency, y: NpmDependency)
  {
    if EqualPackage(Some(x.pkg), Some(y.pkg)) then versionGreaterThan(x.version, y.version)
    else PackageBefore(x.pkg, y.pkg)
  }

  /** `PackageBefore` is a strict total order on packages. */
  lemma PackageBeforeTotalOrder(p: NpmPackage, q: NpmPackage, r: NpmPackage)
    ensures !PackageBefore(p, p)
    ensures p != q ==> PackageBefore(p, q) || PackageBefore(q, p)
    ensures PackageBefore(p, q) && PackageBefore(q, r) ==> PackageBefore(p, r)
  {
    StringLessIrreflexive(p.name);
    if p != q {
      if p.scope == q.scope {
        StringLessTotal(p.name, q.name);
      } else {
        StringLessTotal(p.scope, q.scope);
      }
    }
    if PackageBefore(p, q) && PackageBefore(q, r) {
      if p.scope == q.scope && q.scope == r.scope {
        StringLessTransitive(r.name, q.name, p.name);
      } else if p.scope == q.scope {
        assert StringGreater(q.scope, r.scope);
      } else if q.scope == r.scope {
        assert StringGreater(p.scope, q.scope);
      } else {
        StringLessTransitive(r.scope, q.scope, p.scope);
        if p.scope == r.scope {
          StringLessIrreflexive(p.scope);
        }
      }
    }
  }

  lemma PackageBeforeAsymmetric(p: NpmPackage, q: NpmPackage)
    ensures !(PackageBefore(p, q) && PackageBefore(q, p))
  {
    PackageBeforeTotalOrder(p, q, p);
    PackageBeforeTotalOrder(p, p, p);
  }

  /** The dependency comparator is a strict weak order whenever the version
      comparator is: the order `sort.Slice` requires. */
  lemma SortLessIsStrictWeakOrder(gt: (string, string) -> bool)
    requires StrictWeakOrder(gt)
    ensures StrictWeakOrder((x, y) => SortLess(gt, x, y))
  {
    var lt := (x, y) => SortLess(gt, x, y);
    forall x ensures !lt(x, x) {
      assert !gt(x.version, x.version);
    }
    forall x, y, z | lt(x, y) && lt(y, z) ensures lt(x, z) {
      SortLessTransitive(gt, x, y, z);
    }
    forall x, y, z | !lt(x, y) && !lt(y, z) ensures !lt(x, z) {
      SortLessNegativelyTransitive(gt, x, y, z);
    }
  }

  lemma SortLessAsymmetric(gt: (string, string) -> bool, x: NpmDependency, y: NpmDependency)
    requires StrictWeakOrder(gt)
    ensures !(SortLess(gt, x, y) && SortLess(gt, y, x))
  {
    if x.pkg == y.pkg {
      assert gt(x.version, y.version) && gt(y.version, x.version) ==> gt(x.version, x.version);
    } else {
      PackageBeforeAsymmetric(x.pkg, y.pkg);
    }
  }

  lemma SortLessTransitive(gt: (string, string) -> bool, x: NpmDependency, y: NpmDependency, z: NpmDependency)
    requires StrictWeakOrder(gt)
    requires SortLess(gt, x, y) && SortLess(gt, y, z)
    ensures SortLess(gt, x, z)
  {
    PackageBeforeTotalOrder(x.pkg, y.pkg, z.pkg);
    if x.pkg == z.pkg && x.pkg != y.pkg {
      PackageBeforeAsymmetric(x.pkg, y.pkg);
    }
  }

  lemma SortLessNegativelyTransitive(gt: (string, string) -> bool, x: NpmDependency, y: NpmDependency, z: NpmDependency)
    requires StrictWeakOrder(gt)
    requires !SortLess(gt, x, y) && !SortLess(gt, y, z)
    ensures !SortLess(gt, x, z)
  {
    PackageBeforeTotalOrder(x.pkg, y.pkg, z.pkg);
    PackageBeforeTotalOrder(z.pkg, y.pkg, x.pkg);
    PackageBeforeTotalOrder(y.pkg, z.pkg, x.pkg);
    PackageBeforeAsymmetric(x.pkg, z.pkg);
    PackageBeforeAsymmetric(x.pkg, y.pkg);
  }

  /** No later element compares before an earlier one. */
  ghost predicate SortedBy(gt: (string, string) -> bool, s: seq<NpmDependency>)
  {
    forall i, j :: 0 <= i < j < |s| ==> !SortLess(gt, s[j], s[i])
  }

  /** `SortNpmDependencies`: sorts the slice in place. The result is a
      permutation of the input in which no element compares before an earlier
      one: scope descending, then name descending, then newest version first. */
  method SortNpmDependencies(dependencies: array<NpmDependency>, versionGreaterThan: (string, string) -> bool)
    requires StrictWeakOrder(versionGreaterThan)
    modifies dependencies
    ensures SortedBy(versionGreaterThan, dependencies[..])
    ensures multiset(dependencies[..]) == multiset(old(dependencies[..]))
  {
    var a, gt := dependencies, versionGreaterThan;
    var i := 0;
    while i < a.Length
      invariant 0 <= i <= a.Length
      invariant forall k, m :: 0 <= k < m < i ==> !SortLess(gt, a[m], a[k])
      invariant multiset(a[..]) == multiset(old(a[..]))
    {
      InsertAt(a, gt, i);
      i := i + 1;
    }
  }

  /** One pass of the insertion sort: moves the element at `i` left past every
      element it compares before, so that the prefix up to `i` is sorted. */
  method InsertAt(a: array<NpmDependency>, gt: (string, string) -> bool, i: int)
    requires StrictWeakOrder(gt)
    requires 0 <= i < a.Length
    requires forall k, m :: 0 <= k < m < i ==> !SortLess(gt, a[m], a[k])
    modifies a
    ensures forall k, m :: 0 <= k < m <= i ==> !SortLess(gt, a[m], a[k])
    ensures multiset(a[..]) == multiset(old(a[..]))
  {
    var j := i;
    while j > 0 && SortLess(gt, a[j], a[j - 1])
      invariant 0 <= j <= i
      invariant forall k, m :: 0 <= k < m <= i && k != j && m != j ==> !SortLess(gt, a[m], a[k])
      invariant forall m :: j < m <= i ==> SortLess(gt, a[j], a[m])
      invariant multiset(a[..]) == multiset(old(a[..]))
    {
      Swap(a, j - 1, j);
      j := j - 1;
    }
    InsertedSorted(gt, a[..], j, i);
  }

  /** Exchanges two elements of the array. */
  method Swap(a: array<NpmDependency>, x: int, y: int)
    requires 0 <= x < a.Length && 0 <= y < a.Length
    modifies a
    ensures a[..] == old(a[..])[x := old(a[y])][y := old(a[x])]
    ensures multiset(a[..]) == multiset(old(a[..]))
  {
    a[x], a[y] := a[y], a[x];
  }

  /** One insertion step: once the element at `j` no longer compares before
      its left neighbour, the prefix up to `i` is sorted. */
  lemma InsertedSorted(gt: (string, string) -> bool, s: seq<NpmDependency>, j: int, i: int)
    requires StrictWeakOrder(gt)
    requires 0 <= j <= i < |s|
    requires forall k, m :: 0 <= k < m <= i && k != j && m != j ==> !SortLess(gt, s[m], s[k])
    requires forall m :: j < m <= i ==> SortLess(gt, s[j], s[m])
    requires j == 0 || !SortLess(gt, s[j], s[j - 1])
    ensures forall k, m :: 0 <= k < m <= i ==> !SortLess(gt, s[m], s[k])
  {
    forall k | 0 <= k < j ensures !SortLess(gt, s[j], s[k]) {
      if k < j - 1 {
        SortLessNegativelyTransitive(gt, s[j], s[j - 1], s[k]);
      }
    }
    forall m | j < m <= i ensures !SortLess(gt, s[m], s[j]) {
      SortLessAsymmetric(gt, s[j], s[m]);
    }
  }

  /** In a sorted slice the dependencies of one package are contiguous, and
      within a package a later version is never greater than an earlier one. */
  lemma SortedGroupsByPackage(gt: (string, string) -> bool, s: seq<NpmDependency>, i: int, k: int, j: int)
    requires StrictWeakOrder(gt)
    requires SortedBy(gt, s)
    requires 0 <= i < k < j < |s| && s[i].pkg == s[j].pkg
    ensures s[k].pkg == s[i].pkg
    ensures !gt(s[j].version, s[i].version)
  {
    assert !SortLess(gt, s[k], s[i]) && !SortLess(gt, s[j], s[k]) && !SortLess(gt, s[j], s[i]);
    PackageBeforeTotalOrder(s[k].pkg, s[i].pkg, s[k].pkg);
  }
}
