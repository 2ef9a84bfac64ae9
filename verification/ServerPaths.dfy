/**
 * The server's scan-path rules (agent_config_limits.go): the base rules every route
 * enforces, the full rules that also refuse whole-profile parents, and path warnings.
 */
module ServerPaths {
  import opened ScanPaths

  predicate IsAbsoluteScanPath(p: string) {
    if IsNetwork(p) then false
    else if |p| >= 1 && p[0] == '/' then true
    else |p| >= 3 && IsLetter(p[0]) && p[1] == ':' && (p[2] == '\\' || p[2] == '/')
  }

  predicate IsRootScanPath(p: string) {
    if IsNetwork(p) then false
    else
      var s := Slashes(p);
      if HasDrive(s) then OnlySlashes(s[2..]) else |s| > 0 && s[0] == '/' && OnlySlashes(s)
  }

  /** ASCII lower-casing. */
  function Lower(s: string): (r: string)
    ensures |r| == |s|
    ensures forall i | 0 <= i < |s| :: r[i] as int - s[i] as int == if 65 <= s[i] as int <= 90 then 32 else 0
  {
    seq(|s|, i requires 0 <= i < |s| => if 'A' <= s[i] <= 'Z' then s[i] - 'A' + 'a' else s[i])
  }

  predicate HasDoubleSlash(s: string) {
    exists i | 0 <= i < |s| - 1 :: s[i] == '/' && s[i + 1] == '/'
  }

  /** strings.ReplaceAll(s, "//", "/") */
  function HalveSlashes(s: string): string {
    if |s| < 2 then s
    else if s[0] == '/' && s[1] == '/' then "/" + HalveSlashes(s[2..])
    else [s[0]] + HalveSlashes(s[1..])
  }

  /** strings.TrimRight(s, "/") */
  function TrimRight(s: string): string {
    if OnlySlashes(s) then "" else [s[0]] + TrimRight(s[1..])
  }

  method IsProfileParentScanPath(p: string) returns (r: bool)
    ensures r <==> IsProfileParent(p)
  {
    var s := Lower(Slashes(p));
    LowerSlashes(p);
    var lead, cs := p != "" && IsSep(p[0]), Components(Lower(p));
    while HasDoubleSlash(s)
      invariant '\\' !in s && Leads(s) == lead && Components(s) == cs
      decreases |s|
    {
      HalvingKeepsComponents(s);
      HalvingShrinks(s);
      s := HalveSlashes(s);
    }
    TrimKeepsComponents(s);
    s := TrimRight(s);
    NormalFormIsRendered(s);
    ComparedNames(s);
    return NamesProfileParent(s);
  }

  /** The comparison with the fixed names. */
  predicate NamesProfileParent(s: string) {
    if HasDrive(s) then s[2..] == "/users" || s[2..] == "/documents and settings"
    else s == "/home" || s == "/users" || s == "/system/volumes/data/users" || s == "/var/home"
  }

  /** `ValidateModelScanPaths` returns the agent's code on every list. */
  method ValidateModelScanPaths(paths: seq<string>) returns (code: Code)
    ensures code == PathsCode(paths)
  {
    if |paths| > MAX_MODEL_SCAN_PATHS {
      return TooManyPaths;
    }
    for i := 0 to |paths|
      invariant FirstCode(paths) == FirstCode(paths[i..])
    {
      var p := paths[i];
      assert paths[i..][0] == p && paths[i..][1..] == paths[i + 1..];
      if p == "" {
        return PathEmpty;
      }
      if |p| > MAX_MODEL_SCAN_PATH_BYTES {
        return PathTooLong;
      }
      var control := FindsControl(p);
      if control {
        return PathInvalidChars;
      }
      if IsNetwork(p) {
        return PathNetwork;
      }
      if HasStrayColon(p) {
        return PathInvalidChars;
      }
      var normal := IsNormalized(p);
      if !normal {
        return PathNotNormalized;
      }
      if IsRootScanPath(p) {
        return PathRoot;
      }
      if !IsAbsoluteScanPath(p) {
        return PathNotAbsolute;
      }
    }
    return Ok;
  }

  method ValidateModelScanPathsFull(paths: seq<string>) returns (code: Code)
    ensures code == FullCode(paths)
  {
    code := ValidateModelScanPaths(paths);
    if code != Ok {
      return;
    }
    for i := 0 to |paths|
      invariant !AnyProfileParent(paths[..i])
    {
      var parent := IsProfileParentScanPath(paths[i]);
      AnyProfileParentSnoc(paths, i);
      if parent {
        return PathProfileParent;
      }
    }
    assert paths[..|paths|] == paths;
  }

  lemma AnyProfileParentSnoc(paths: seq<string>, i: nat)
    requires i < |paths|
    ensures AnyProfileParent(paths[..i + 1]) <==> AnyProfileParent(paths[..i]) || IsProfileParent(paths[i])
    ensures IsProfileParent(paths[i]) ==> AnyProfileParent(paths)
  {
    assert paths[..i + 1] == paths[..i] + [paths[i]];
  }

  /** The code one path contributes to the warnings, or Ok. */
  method WarningFor(p: string) returns (code: Code)
    ensures code == WarningCode(p)
  {
    if IsRootScanPath(p) {
      return PathRoot;
    }
    var parent := IsProfileParentScanPath(p);
    return if parent then PathProfileParent else Ok;
  }

  /** `PathWarnings`: the full-rule codes a stored list would fail, sorted, each once. */
  method PathWarnings(paths: seq<string>) returns (out: seq<Code>)
    ensures out == Warnings(paths)
  {
    out := [];
    var seen: set<Code> := {};
    ghost var root, parent := false, false;
    for i := 0 to |paths|
      invariant Arranged(out, root, parent)
      invariant seen == (if root then {PathRoot} else {}) + (if parent then {PathProfileParent} else {})
      invariant root <==> Warned(paths[..i], PathRoot)
      invariant parent <==> Warned(paths[..i], PathProfileParent)
    {
      var code := WarningFor(paths[i]);
      root, parent := root || code == PathRoot, parent || code == PathProfileParent;
      if code != Ok && code !in seen {
        seen := seen + {code};
        out := out + [code];
      }
    }
    assert paths[..|paths|] == paths;
    if |out| == 2 && out[0] == PathRoot {
      out := [out[1], out[0]];
    }
  }

  ghost predicate Arranged(out: seq<Code>, root: bool, parent: bool) {
    if root && parent then out == [PathRoot, PathProfileParent] || out == [PathProfileParent, PathRoot]
    else if root then out == [PathRoot]
    else if parent then out == [PathProfileParent]
    else out == []
  }

  // ---------------------------------------------------------------- specification

  predicate ProfileParentParts(rooted: bool, cs: seq<string>) {
    if rooted then
      cs == ["home"] || cs == ["users"] || cs == ["var", "home"] || cs == ["system", "volumes", "data", "users"]
    else
      |cs| == 2 && |cs[0]| == 2 && HasDrive(cs[0]) && (cs[1] == "users" || cs[1] == "documents and settings")
  }

  /** A whole-profile parent, by drive, leading separator and lower-cased components. */
  predicate IsProfileParent(p: string) {
    ProfileParentParts(p != "" && IsSep(p[0]), Components(Lower(p)))
  }

  predicate AnyProfileParent(paths: seq<string>) {
    exists p | p in paths :: IsProfileParent(p)
  }

  function FullCode(paths: seq<string>): Code {
    if PathsCode(paths) != Ok then PathsCode(paths)
    else if AnyProfileParent(paths) then PathProfileParent
    else Ok
  }

  function WarningCode(p: string): (c: Code)
    ensures c == Ok || c == PathRoot || c == PathProfileParent
  {
    if IsRootScanPath(p) then PathRoot else if IsProfileParent(p) then PathProfileParent else Ok
  }

  /** A stored path is flagged as a root exactly when it is local and has no component. */
  lemma RootWarningIff(p: string)
    ensures WarningCode(p) == PathRoot <==>
            p != "" && !(|p| >= 2 && IsSep(p[0]) && IsSep(p[1])) && Components(Below(p)) == []
  {
    if p != "" && !IsNetwork(p) { RootIffNoComponents(p); }
    assert Below(p) == Body(p);
  }

  predicate Warned(paths: seq<string>, c: Code) {
    exists p | p in paths :: WarningCode(p) == c
  }

  function Warnings(paths: seq<string>): seq<Code> {
    (if Warned(paths, PathProfileParent) then [PathProfileParent] else [])
    + (if Warned(paths, PathRoot) then [PathRoot] else [])
  }

  /** On lists the base rules accept, there are no warnings exactly when the full rules accept. */
  lemma WarningsAgreeWithFullRules(paths: seq<string>)
    requires PathsCode(paths) == Ok
    ensures Warnings(paths) == [] <==> FullCode(paths) == Ok
  {
    AcceptedListMembers(paths);
    forall i | 0 <= i < |paths| ensures WarningCode(paths[i]) == Ok <==> !IsProfileParent(paths[i]) {
      assert PathCode(paths[i]) == Ok;
    }
    assert Warnings(paths) == [] <==> forall i | 0 <= i < |paths| :: WarningCode(paths[i]) == Ok;
  }

  // ---------------------------------------------------------------- the rewriting loop

  predicate Leads(s: string) { s != "" && s[0] == '/' }

  lemma {:induction false} ComponentsOfMapped(s: string, t: string)
    requires |s| == |t|
    requires forall i | 0 <= i < |s| :: s[i] == t[i] || (IsSep(s[i]) && IsSep(t[i]))
    ensures Components(s) == Components(t)
  {
    if s != [] {
      ComponentsOfMapped(s[1..], t[1..]);
    }
  }

  lemma LowerSlashes(p: string)
    ensures var s := Lower(Slashes(p));
            '\\' !in s && Leads(s) == (p != "" && IsSep(p[0])) && Components(s) == Components(Lower(p))
  {
    ComponentsOfMapped(Lower(Slashes(p)), Lower(p));
  }

  lemma {:induction false} HalvingKeepsComponents(s: string)
    requires '\\' !in s
    ensures '\\' !in HalveSlashes(s) && Leads(HalveSlashes(s)) == Leads(s)
    ensures HalveSlashes(s) == "" <==> s == ""
    ensures Components(HalveSlashes(s)) == Components(s)
  {
    if |s| >= 2 {
      if s[0] == '/' && s[1] == '/' {
        HalvingKeepsComponents(s[2..]);
        assert HalveSlashes(s)[1..] == HalveSlashes(s[2..]);
        assert s[1..][1..] == s[2..];
      } else {
        HalvingKeepsComponents(s[1..]);
        assert HalveSlashes(s)[1..] == HalveSlashes(s[1..]);
      }
    }
  }

  lemma {:induction false} HalvingShrinks(s: string)
    ensures |HalveSlashes(s)| <= |s|
    ensures HasDoubleSlash(s) ==> |HalveSlashes(s)| < |s|
  {
    if |s| >= 2 {
      if s[0] == '/' && s[1] == '/' {
        HalvingShrinks(s[2..]);
      } else {
        HalvingShrinks(s[1..]);
        if HasDoubleSlash(s) {
          var i :| 0 <= i < |s| - 1 && s[i] == '/' && s[i + 1] == '/';
          assert s[1..][i - 1] == '/' && s[1..][i] == '/';
        }
      }
    }
  }

  predicate NormalForm(s: string) {
    '\\' !in s && !HasDoubleSlash(s) && (s == "" || s[|s| - 1] != '/')
  }

  lemma NoDoubleSlashInTail(s: string)
    requires s != "" && !HasDoubleSlash(s)
    ensures !HasDoubleSlash(s[1..])
  {
    var t := s[1..];
    forall i | 0 <= i < |t| - 1 ensures !(t[i] == '/' && t[i + 1] == '/') {
      assert t[i] == s[i + 1] && t[i + 1] == s[(i + 1) + 1];
    }
  }

  lemma {:induction false} OnlySlashesHasNoComponents(s: string)
    requires OnlySlashes(s)
    ensures Components(s) == []
  {
    if s != [] { OnlySlashesHasNoComponents(s[1..]); }
  }

  lemma {:induction false} TrimIsNormal(s: string)
    requires '\\' !in s && !HasDoubleSlash(s)
    ensures NormalForm(TrimRight(s)) && (TrimRight(s) == "" <==> OnlySlashes(s))
    ensures TrimRight(s) != "" ==> TrimRight(s)[0] == s[0]
  {
    if !OnlySlashes(s) {
      var u := TrimRight(s[1..]);
      NoDoubleSlashInTail(s);
      TrimIsNormal(s[1..]);
      assert TrimRight(s) == [s[0]] + u;
      NormalCons(s[0], u, s[1..]);
    }
  }

  /** One more character in front of a normal form, unless that makes a double or a last slash. */
  lemma NormalCons(ch: char, u: string, t: string)
    requires NormalForm(u) && ch != '\\' && !HasDoubleSlash([ch] + t) && (u != "" ==> t != "" && u[0] == t[0])
    requires u == "" ==> ch != '/'
    ensures NormalForm([ch] + u)
  {
    var s := [ch] + u;
    forall i | 0 <= i < |s| - 1 ensures !(s[i] == '/' && s[i + 1] == '/') {
      if i == 0 {
        assert ([ch] + t)[0] == ch && ([ch] + t)[1] == t[0];
      } else {
        assert s[i] == u[i - 1] && s[i + 1] == u[(i - 1) + 1];
      }
    }
  }

  predicate AtBreak(s: string) { s == "" || IsSep(s[0]) }

  lemma {:induction false} TrimKeepsComponents(s: string)
    requires '\\' !in s && !HasDoubleSlash(s)
    ensures NormalForm(TrimRight(s))
    ensures Components(TrimRight(s)) == Components(s)
    ensures TrimRight(s) != "" ==> Leads(TrimRight(s)) == Leads(s)
    ensures TrimRight(s) == "" <==> OnlySlashes(s)
  {
    TrimIsNormal(s);
    if OnlySlashes(s) {
      OnlySlashesHasNoComponents(s);
    } else {
      NoDoubleSlashInTail(s);
      TrimKeepsComponents(s[1..]);
      TrimIsNormal(s[1..]);
      assert s == [s[0]] + s[1..];
    }
  }

  /** A separator before every component but an unrooted first one. */
  function Render(rooted: bool, cs: seq<string>): string
    decreases cs
  {
    if cs == [] then ""
    else (if rooted then "/" else "") + cs[0] + Render(true, cs[1..])
  }

  ghost predicate Plain(c: string) { c != "" && forall i | 0 <= i < |c| :: !IsSep(c[i]) }

  lemma {:induction false} NormalFormIsRendered(s: string)
    requires NormalForm(s)
    ensures s == Render(Leads(s), Components(s))
    ensures s != "" ==> Components(s) != []
  {
    if s != "" {
      var t := s[1..];
      NoDoubleSlashInTail(s);
      NormalFormIsRendered(t);
      assert s == [s[0]] + t;
      var cs, ct := Components(s), Components(t);
      if s[0] == '/' {
        assert t != "" && t[0] != '/';
        assert Render(true, ct) == "/" + Render(false, ct);
      } else if t == "" || t[0] == '/' {
        assert cs[1..] == ct;
      } else {
        assert cs[1..] == ct[1..];
      }
    }
  }

  lemma {:induction false} ComponentsOfPlain(c: string, rest: string)
    requires Plain(c) && (rest == "" || rest[0] == '/')
    ensures Components(c + rest) == [c] + Components(rest)
  {
    assert (c + rest)[1..] == c[1..] + rest;
    if |c| > 1 {
      ComponentsOfPlain(c[1..], rest);
      assert c == [c[0]] + c[1..];
    } else {
      assert c == [c[0]] && c[1..] + rest == rest;
    }
  }

  lemma {:induction false} ComponentsOfRendered(rooted: bool, cs: seq<string>)
    requires forall c | c in cs :: Plain(c)
    ensures Components(Render(rooted, cs)) == cs
    ensures cs != [] ==> Leads(Render(rooted, cs)) == rooted
    decreases cs
  {
    if cs != [] {
      ComponentsOfRendered(true, cs[1..]);
      assert Plain(cs[0]);
      RenderedCons(rooted, cs[0], Render(true, cs[1..]));
      assert cs == [cs[0]] + cs[1..];
    }
  }

  lemma RenderedCons(rooted: bool, c: string, rest: string)
    requires Plain(c) && (rest == "" || rest[0] == '/')
    ensures var s := (if rooted then "/" else "") + c + rest;
            Components(s) == [c] + Components(rest) && Leads(s) == rooted
  {
    ComponentsOfPlain(c, rest);
    var s := (if rooted then "/" else "") + c + rest;
    if rooted { assert s[1..] == c + rest; } else { assert s == c + rest; }
  }

  /** `s` in normal form equals a rendered name exactly when root and components agree. */
  lemma RenderedEquals(s: string, rooted: bool, cs: seq<string>)
    requires s == Render(Leads(s), Components(s))
    requires cs != [] && forall c | c in cs :: Plain(c)
    ensures s == Render(rooted, cs) <==> Leads(s) == rooted && Components(s) == cs
  {
    ComponentsOfRendered(rooted, cs);
  }

  lemma RenderOne(rooted: bool, a: string)
    ensures Render(rooted, [a]) == (if rooted then "/" else "") + a
  {
    assert [a][1..] == [];
  }

  lemma RenderTwo(rooted: bool, a: string, b: string)
    ensures Render(rooted, [a, b]) == (if rooted then "/" else "") + a + ("/" + b)
  {
    assert [a, b][1..] == [b];
    RenderOne(true, b);
  }

  lemma RenderFour(a: string, b: string, c: string, d: string)
    ensures Render(true, [a, b, c, d]) == "/" + a + ("/" + b + ("/" + c + ("/" + d)))
  {
    assert [a, b, c, d][1..] == [b, c, d] && [b, c, d][1..] == [c, d];
    RenderTwo(true, c, d);
  }

  lemma OneName(s: string, a: string)
    requires s == Render(Leads(s), Components(s)) && Plain(a)
    ensures s == "/" + a <==> Leads(s) && Components(s) == [a]
  {
    RenderOne(true, a);
    RenderedEquals(s, true, [a]);
  }

  lemma TwoNames(s: string, a: string, b: string)
    requires s == Render(Leads(s), Components(s)) && Plain(a) && Plain(b)
    ensures s == "/" + a + ("/" + b) <==> Leads(s) && Components(s) == [a, b]
  {
    RenderTwo(true, a, b);
    RenderedEquals(s, true, [a, b]);
  }

  lemma FourNames(s: string, a: string, b: string, c: string, d: string)
    requires s == Render(Leads(s), Components(s)) && Plain(a) && Plain(b) && Plain(c) && Plain(d)
    ensures s == "/" + a + ("/" + b + ("/" + c + ("/" + d))) <==> Leads(s) && Components(s) == [a, b, c, d]
  {
    RenderFour(a, b, c, d);
    RenderedEquals(s, true, [a, b, c, d]);
  }

  lemma MacLiteral()
    ensures Plain("system") && Plain("volumes") && Plain("data") && Plain("users")
    ensures "/" + "system" + ("/" + "volumes" + ("/" + "data" + ("/" + "users"))) == "/system/volumes/data/users"
  {
  }

  lemma MacName(s: string)
    requires s == Render(Leads(s), Components(s))
    ensures s == "/system/volumes/data/users" <==> Leads(s) && Components(s) == ["system", "volumes", "data", "users"]
  {
    MacLiteral();
    FourNames(s, "system", "volumes", "data", "users");
  }

  lemma SilverblueName(s: string)
    requires s == Render(Leads(s), Components(s))
    ensures s == "/var/home" <==> Leads(s) && Components(s) == ["var", "home"]
  {
    TwoNames(s, "var", "home");
    assert "/" + "var" + ("/" + "home") == "/var/home";
  }

  lemma LinuxName(s: string)
    requires s == Render(Leads(s), Components(s))
    ensures s == "/home" <==> Leads(s) && Components(s) == ["home"]
  {
    OneName(s, "home");
  }

  lemma UsersName(s: string)
    requires s == Render(Leads(s), Components(s))
    ensures s == "/users" <==> Leads(s) && Components(s) == ["users"]
  {
    OneName(s, "users");
  }

  lemma WindowsUsersName(s: string)
    requires s == Render(Leads(s), Components(s))
    ensures HasDrive(s) && s[2..] == "/users" <==> DriveParts(s, "users")
  {
    DriveName(s, "users");
  }

  lemma AliasLiteral()
    ensures Plain("documents and settings") && "/" + "documents and settings" == "/documents and settings"
  {
  }

  lemma WindowsAliasName(s: string)
    requires s == Render(Leads(s), Components(s))
    ensures HasDrive(s) && s[2..] == "/documents and settings" <==> DriveParts(s, "documents and settings")
  {
    AliasLiteral();
    DriveName(s, "documents and settings");
  }

  ghost predicate DriveParts(s: string, name: string) {
    var cs := Components(s);
    !Leads(s) && |cs| == 2 && |cs[0]| == 2 && HasDrive(cs[0]) && cs[1] == name
  }

  /** The final comparison of the code, as component lists. */
  lemma ComparedNames(s: string)
    requires s == Render(Leads(s), Components(s))
    ensures NamesProfileParent(s) <==> ProfileParentParts(Leads(s), Components(s))
  {
    WindowsAliasName(s);
    WindowsUsersName(s);
    LinuxName(s);
    UsersName(s);
    SilverblueName(s);
    MacName(s);
  }

  lemma DriveName(s: string, name: string)
    requires s == Render(Leads(s), Components(s))
    requires Plain(name)
    ensures HasDrive(s) && s[2..] == "/" + name <==> DriveParts(s, name)
  {
    if HasDrive(s) && s[2..] == "/" + name {
      RenderTwo(false, s[..2], name);
      assert s == s[..2] + s[2..];
      assert s == Render(false, [s[..2], name]);
      RenderedEquals(s, false, [s[..2], name]);
    }
    var cs := Components(s);
    if !Leads(s) && |cs| == 2 && |cs[0]| == 2 && HasDrive(cs[0]) && cs[1] == name {
      assert cs == [cs[0], name];
      RenderTwo(false, cs[0], name);
      assert s == cs[0] + ("/" + name);
    }
  }
}
