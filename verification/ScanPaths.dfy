/**
 * Path-shape rules for model scan paths: the agent's `scanpath` package and `checkPaths`,
 * and the server's copy in `agent_config_limits.go`. A string holds one byte per `char`.
 *
 * The code splits, trims and rewrites strings; the specification speaks only of a path's
 * drive, its leading separator and its non-empty components.
 */
module ScanPaths {

  /** The reason codes of `checkPaths`, with the server-only `PathProfileParent`. */
  datatype Code =
    | Ok | TooManyPaths | PathEmpty | PathTooLong | PathInvalidChars | PathNetwork
    | PathNotNormalized | PathRoot | PathNotAbsolute | PathProfileParent

  const MAX_MODEL_SCAN_PATHS := 32
  const MAX_MODEL_SCAN_PATH_BYTES := 1024

  predicate IsSep(c: char) { c == '/' || c == '\\' }

  predicate IsLetter(c: char) { 'a' <= c <= 'z' || 'A' <= c <= 'Z' }

  predicate IsControl(c: char) { c < ' ' || c == '\U{7f}' }

  // ---------------------------------------------------------------- the agent's predicates

  predicate IsNetwork(p: string) { |p| >= 2 && IsSep(p[0]) && IsSep(p[1]) }

  predicate HasDrive(p: string) { |p| >= 2 && IsLetter(p[0]) && p[1] == ':' }

  function Body(p: string): string { if HasDrive(p) then p[2..] else p }

  predicate IsAbsolute(p: string) {
    !IsNetwork(p) && ((|p| >= 1 && p[0] == '/') || (|p| >= 3 && HasDrive(p) && IsSep(p[2])))
  }

  predicate HasStrayColon(p: string) { ':' in Body(p) }

  /** strings.ReplaceAll(p, "\\", "/") */
  function Slashes(p: string): (s: string)
    ensures |s| == |p|
    ensures forall i | 0 <= i < |p| :: s[i] == if p[i] == '\\' then '/' else p[i]
  {
    seq(|p|, i requires 0 <= i < |p| => if p[i] == '\\' then '/' else p[i])
  }

  /** strings.Trim(s, "/") == "" */
  predicate OnlySlashes(s: string) { forall i | 0 <= i < |s| :: s[i] == '/' }

  predicate IsRoot(p: string) {
    var s := Slashes(p);
    !IsNetwork(p) &&
    if HasDrive(s) then OnlySlashes(s[2..]) else |s| > 0 && s[0] == '/' && OnlySlashes(s)
  }

  /** strings.Split(s, "/") */
  function Split(s: string): (r: seq<string>)
    ensures |r| >= 1
  {
    if s == [] then [""]
    else
      var r := Split(s[1..]);
      if s[0] == '/' then [""] + r else [[s[0]] + r[0]] + r[1..]
  }

  predicate EndsBadly(c: string) { |c| > 0 && (c[|c| - 1] == '.' || c[|c| - 1] == ' ') }

  predicate GoodComponent(c: string) { c != "." && c != ".." && !EndsBadly(c) }

  method IsNormalized(p: string) returns (ok: bool)
    ensures ok <==> Normalized(p)
  {
    var s := Slashes(p);
    if HasDrive(s) {
      s := s[2..];
    }
    assert s == Slashes(Body(p));
    SplitGivesComponents(Body(p));
    var parts := Split(s);
    for i := 0 to |parts|
      invariant forall k | 0 <= k < i :: parts[k] == "" || GoodComponent(parts[k])
    {
      if parts[i] != "" && !GoodComponent(parts[i]) {
        NonEmptyMembers(parts);
        return false;
      }
    }
    NonEmptyMembers(parts);
    return true;
  }

  /** The loop over a path's bytes. */
  method FindsControl(p: string) returns (found: bool)
    ensures found <==> exists i | 0 <= i < |p| :: IsControl(p[i])
  {
    for k := 0 to |p|
      invariant forall q | 0 <= q < k :: !IsControl(p[q])
    {
      if IsControl(p[k]) {
        return true;
      }
    }
    return false;
  }

  /** `checkPaths`: the code of the first bad path, or Ok. */
  method CheckPaths(paths: seq<string>) returns (code: Code)
    ensures code == PathsCode(paths)
  {
    if |paths| > MAX_MODEL_SCAN_PATHS {
      return TooManyPaths;
    }
    for i := 0 to |paths|
      invariant FirstCode(paths) == FirstCode(paths[i..])
    {
      var p := paths[i];
      assert paths[i..][0] == p && paths[i..][1..] == paths[i + 1..];
      if p == "" {
        return PathEmpty;
      }
      if |p| > MAX_MODEL_SCAN_PATH_BYTES {
        return PathTooLong;
      }
      var control := FindsControl(p);
      if control {
        return PathInvalidChars;
      }
      if IsNetwork(p) {
        return PathNetwork;
      }
      if HasStrayColon(p) {
        return PathInvalidChars;
      }
      var normal := IsNormalized(p);
      if !normal {
        return PathNotNormalized;
      }
      if IsRoot(p) {
        return PathRoot;
      }
      if !IsAbsolute(p) {
        return PathNotAbsolute;
      }
    }
    return Ok;
  }

  // ---------------------------------------------------------------- specification

  /** The non-empty components of a path, in order, for either separator. */
  function Components(s: string): (r: seq<string>)
    ensures s != [] && !IsSep(s[0]) ==> r != []
  {
    if s == [] then []
    else
      var r := Components(s[1..]);
      if IsSep(s[0]) then r
      else if |s| == 1 || IsSep(s[1]) then [[s[0]]] + r
      else [[s[0]] + r[0]] + r[1..]
  }

  /** A maximal separator-free stretch of `s`. */
  ghost predicate IsComponentAt(s: string, i: int, j: int) {
    && 0 <= i < j <= |s|
    && (i == 0 || IsSep(s[i - 1]))
    && (j == |s| || IsSep(s[j]))
    && forall k | i <= k < j :: !IsSep(s[k])
  }

  /** `Components` lists exactly the maximal separator-free stretches. */
  lemma ComponentsAreMaximalRuns(s: string, c: string)
    ensures c in Components(s) <==> exists i, j :: IsComponentAt(s, i, j) && s[i..j] == c
  {
    if c in Components(s) {
      var k :| 0 <= k < |Components(s)| && Components(s)[k] == c;
      var i, j := RunOfComponent(s, k);
    }
    if i, j :| IsComponentAt(s, i, j) && s[i..j] == c {
      var k := ComponentOfRun(s, i, j);
    }
  }

  lemma ShiftRun(s: string, i: nat, j: nat)
    requires s != [] && (i > 0 || IsSep(s[0]))
    ensures IsComponentAt(s[1..], i, j) <==> IsComponentAt(s, i + 1, j + 1)
    ensures i <= j < |s| ==> s[i + 1..j + 1] == s[1..][i..j]
  {
    var t := s[1..];
    assert forall k | 0 <= k < |t| :: t[k] == s[k + 1];
    assert forall k | 1 <= k < |s| :: s[k] == t[k - 1];
  }

  lemma {:induction false} RunOfComponent(s: string, k: nat) returns (i: nat, j: nat)
    requires k < |Components(s)|
    ensures IsComponentAt(s, i, j) && s[i..j] == Components(s)[k]
    ensures i == 0 <==> k == 0 && !IsSep(s[0])
  {
    var single := !IsSep(s[0]) && (|s| == 1 || IsSep(s[1]));
    if single && k == 0 {
      i, j := 0, 1;
    } else {
      i, j := RunOfComponent(s[1..], if single then k - 1 else k);
      if i == 0 && !IsSep(s[0]) {
        j := j + 1;
      } else {
        ShiftRun(s, i, j);
        i, j := i + 1, j + 1;
      }
    }
  }

  lemma {:induction false} ComponentOfRun(s: string, i: nat, j: nat) returns (k: nat)
    requires IsComponentAt(s, i, j)
    ensures k < |Components(s)| && Components(s)[k] == s[i..j]
    ensures !IsSep(s[0]) ==> (k == 0 <==> i == 0)
  {
    var single := !IsSep(s[0]) && (|s| == 1 || IsSep(s[1]));
    if i == 0 && single {
      assert j == 1 && s[0..1] == [s[0]];
      k := 0;
    } else if i == 0 {
      k := ComponentOfRun(s[1..], 0, j - 1);
    } else {
      UnshiftRun(s, i, j);
      k := ComponentOfRun(s[1..], i - 1, j - 1);
      k := if single then k + 1 else k;
    }
  }

  lemma UnshiftRun(s: string, i: nat, j: nat)
    requires i > 0 && IsComponentAt(s, i, j)
    ensures IsComponentAt(s[1..], i - 1, j - 1) && s[i..j] == s[1..][i - 1..j - 1]
    ensures i == 1 ==> IsSep(s[0])
  {
    var t := s[1..];
    assert forall k | 0 <= k < |t| :: t[k] == s[k + 1];
  }

  function NonEmpty(parts: seq<string>): seq<string> {
    if parts == [] then []
    else (if parts[0] == "" then [] else [parts[0]]) + NonEmpty(parts[1..])
  }

  lemma NonEmptyMembers(parts: seq<string>)
    ensures forall c :: c in NonEmpty(parts) <==> c in parts && c != ""
  {
  }

  /** Splitting the slash form and skipping empty parts gives the components. */
  lemma {:induction false} SplitGivesComponents(s: string)
    ensures NonEmpty(Split(Slashes(s))) == Components(s)
    ensures Split(Slashes(s))[0] == "" <==> s == [] || IsSep(s[0])
  {
    if s != [] {
      var t := s[1..];
      SplitGivesComponents(t);
      assert Slashes(s)[1..] == Slashes(t);
      var r := Split(Slashes(t));
      assert r == [r[0]] + r[1..];
      if !IsSep(s[0]) {
        if t == [] || IsSep(t[0]) {
          assert [s[0]] + r[0] == [s[0]];
        } else {
          assert Components(t) == [r[0]] + NonEmpty(r[1..]);
        }
      }
    }
  }

  predicate Normalized(p: string) {
    forall c | c in Components(Body(p)) :: GoodComponent(c)
  }

  function PathCode(p: string): Code {
    if p == "" then PathEmpty
    else if |p| > MAX_MODEL_SCAN_PATH_BYTES then PathTooLong
    else if exists i | 0 <= i < |p| :: IsControl(p[i]) then PathInvalidChars
    else if IsNetwork(p) then PathNetwork
    else if HasStrayColon(p) then PathInvalidChars
    else if !Normalized(p) then PathNotNormalized
    else if IsRoot(p) then PathRoot
    else if !IsAbsolute(p) then PathNotAbsolute
    else Ok
  }

  function FirstCode(paths: seq<string>): (code: Code)
    ensures code != PathProfileParent && code != TooManyPaths
  {
    if paths == [] then Ok
    else if PathCode(paths[0]) != Ok then PathCode(paths[0])
    else FirstCode(paths[1..])
  }

  function PathsCode(paths: seq<string>): Code {
    if |paths| > MAX_MODEL_SCAN_PATHS then TooManyPaths else FirstCode(paths)
  }

  lemma {:induction false} AcceptedListMembers(paths: seq<string>)
    ensures PathsCode(paths) == Ok <==>
              |paths| <= MAX_MODEL_SCAN_PATHS && forall i | 0 <= i < |paths| :: PathCode(paths[i]) == Ok
  {
    FirstCodeMembers(paths);
  }

  lemma {:induction false} FirstCodeMembers(paths: seq<string>)
    ensures FirstCode(paths) == Ok <==> forall i | 0 <= i < |paths| :: PathCode(paths[i]) == Ok
  {
    if paths != [] {
      FirstCodeMembers(paths[1..]);
      assert forall i | 1 <= i < |paths| :: paths[i] == paths[1..][i - 1];
    }
  }

  /** The accepted paths, described without any of the code's predicates. */
  ghost predicate LocalFolderShape(p: string) {
    && 1 <= |p| <= MAX_MODEL_SCAN_PATH_BYTES
    && (forall i | 0 <= i < |p| :: !IsControl(p[i]))
    && (|| (p[0] == '/' && (|p| == 1 || !IsSep(p[1])) && ':' !in p)
        || (|p| >= 3 && IsLetter(p[0]) && p[1] == ':' && IsSep(p[2]) && ':' !in p[2..]))
    && var below := Components(if p[0] == '/' then p else p[2..]);
    && below != []
    && forall c | c in below :: GoodComponent(c)
  }

  lemma {:induction false} NoComponentsIffOnlySeparators(s: string)
    ensures Components(s) == [] <==> OnlySlashes(Slashes(s))
  {
    if s != [] {
      NoComponentsIffOnlySeparators(s[1..]);
      assert Slashes(s)[1..] == Slashes(s[1..]);
      assert Slashes(s) == [Slashes(s)[0]] + Slashes(s[1..]);
    }
  }

  /** A path is accepted exactly when it names a folder below a local root in normal form. */
  lemma AcceptedIffLocalFolder(p: string)
    ensures PathCode(p) == Ok <==> LocalFolderShape(p)
  {
    NoComponentsIffOnlySeparators(Body(p));
    if p != "" {
      assert HasDrive(p) == HasDrive(Slashes(p));
      if HasDrive(p) {
        assert Slashes(p)[2..] == Slashes(p[2..]);
      }
    }
  }

  predicate HasControl(p: string) { exists i | 0 <= i < |p| :: p[i] < ' ' || p[i] == '\U{7f}' }

  /** What follows the drive letter and its colon, if there is one. */
  function Below(p: string): string {
    if |p| >= 2 && ('a' <= p[0] <= 'z' || 'A' <= p[0] <= 'Z') && p[1] == ':' then p[2..] else p
  }

  /** Of a printable, bounded, local path: its components say whether it is normal, and whether it is a root. */
  predicate Clear(p: string) {
    && 1 <= |p| <= 1024 && !HasControl(p) && ':' !in Below(p)
    && !(|p| >= 2 && (p[0] == '/' || p[0] == '\\') && (p[1] == '/' || p[1] == '\\'))
  }

  predicate BadName(c: string) { c == "." || c == ".." || (c != "" && (c[|c| - 1] == '.' || c[|c| - 1] == ' ')) }

  /** Which paths get each refusal. */
  lemma RefusedIff(p: string)
    ensures PathCode(p) == PathEmpty <==> p == ""
    ensures PathCode(p) == PathTooLong <==> |p| > 1024
    ensures PathCode(p) == PathInvalidChars <==>
            1 <= |p| <= 1024 && (HasControl(p) || (':' in Below(p) && !(|p| >= 2 && IsSep(p[0]) && IsSep(p[1]))))
    ensures PathCode(p) == PathNetwork <==> 2 <= |p| <= 1024 && !HasControl(p) && IsSep(p[0]) && IsSep(p[1])
    ensures PathCode(p) == PathNotNormalized <==> Clear(p) && exists c | c in Components(Below(p)) :: BadName(c)
    ensures PathCode(p) == PathRoot <==> Clear(p) && Components(Below(p)) == []
    ensures PathCode(p) == PathNotAbsolute <==>
            && Clear(p) && Components(Below(p)) != [] && (forall c | c in Components(Below(p)) :: !BadName(c))
            && p[0] != '/' && (Below(p) == p || !IsSep(p[2]))
  {
    assert Below(p) == Body(p);
    assert HasControl(p) <==> exists i | 0 <= i < |p| :: IsControl(p[i]);
    if p != "" && !IsNetwork(p) { RootIffNoComponents(p); }
  }

  lemma RootIffNoComponents(p: string)
    requires p != "" && !IsNetwork(p)
    ensures IsRoot(p) <==> Components(Body(p)) == []
  {
    NoComponentsIffOnlySeparators(Body(p));
    assert HasDrive(p) == HasDrive(Slashes(p));
    if HasDrive(p) { assert Slashes(p)[2..] == Slashes(p[2..]); }
  }

  /** A list gets the code of its first bad path. */
  lemma {:induction false} FirstBadDecides(paths: seq<string>, i: nat)
    requires i < |paths| <= 32 && PathCode(paths[i]) != Ok && forall j | 0 <= j < i :: PathCode(paths[j]) == Ok
    ensures PathsCode(paths) == PathCode(paths[i])
    decreases i
  {
    if i > 0 { FirstBadDecides(paths[1..], i - 1); }
  }

  /** Lexical cleaning of a rooted component list: "." is skipped, ".." removes its parent. */
  function Clean(cs: seq<string>): seq<string> {
    if cs == [] then []
    else
      var before, c := Clean(cs[..|cs| - 1]), cs[|cs| - 1];
      if c == "." then before
      else if c == ".." then if before == [] then [] else before[..|before| - 1]
      else before + [c]
  }

  /** Windows drops trailing dots and spaces of every component. */
  function WindowsName(c: string): string {
    if EndsBadly(c) then WindowsName(c[..|c| - 1]) else c
  }

  function WindowsNames(cs: seq<string>): seq<string> {
    seq(|cs|, i requires 0 <= i < |cs| => WindowsName(cs[i]))
  }

  /** What cleaning does to other components, and why they are refused: one may undo its parent. */
  lemma CleaningUndoes(cs: seq<string>, c: string)
    ensures Clean(cs + ["."]) == Clean(cs) && Clean([".."]) == []
    ensures GoodComponent(c) ==> Clean(cs + [c]) == Clean(cs) + [c] && Clean(cs + [c] + [".."]) == Clean(cs)
    ensures WindowsName(c + ".") == WindowsName(c) && WindowsName(c + " ") == WindowsName(c)
  {
    assert (cs + ["."])[..|cs|] == cs && (cs + [c])[..|cs|] == cs && (cs + [c] + [".."])[..|cs| + 1] == cs + [c];
    assert (c + ".")[..|c|] == c && (c + " ")[..|c|] == c;
  }

  lemma {:induction false} CleanKeepsGood(cs: seq<string>)
    requires forall c | c in cs :: GoodComponent(c)
    ensures Clean(cs) == cs
  {
    if cs != [] {
      var n := |cs| - 1;
      CleanKeepsGood(cs[..n]);
      assert GoodComponent(cs[n]);
      assert cs == cs[..n] + [cs[n]];
    }
  }

  /** No accepted path cleans to a root, nor to anything but itself, on any platform. */
  lemma AcceptedNeverCleansToRoot(p: string)
    requires PathCode(p) == Ok
    ensures var cs := Components(Body(p));
            cs != [] && Clean(cs) == cs && Clean(WindowsNames(cs)) == cs
  {
    AcceptedIffLocalFolder(p);
    var cs := Components(Body(p));
    CleanKeepsGood(cs);
    forall i | 0 <= i < |cs| ensures WindowsName(cs[i]) == cs[i] {
      assert cs[i] in cs;
    }
    assert WindowsNames(cs) == cs;
  }
}
