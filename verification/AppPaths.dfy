/** Base-path handling of appPaths.ts. The base path is a parameter; in the source it is a build constant. */
module AppPaths {

  predicate StartsWith(s: string, prefix: string) {
    prefix <= s
  }

  // path.startsWith('/') ? path : `/${path}`
  function Slashed(path: string): string {
    if path != "" && path[0] == '/' then path else "/" + path
  }

  // replace(/\/+$/, '')
  function WithoutTrailingSlashes(s: string): string {
    if s != "" && s[|s| - 1] == '/' then WithoutTrailingSlashes(s[..|s| - 1]) else s
  }

  function NormalizeBasePath(value: string): string {
    if value == "" || value == "/" then "" else WithoutTrailingSlashes(Slashed(value))
  }

  function Lower(c: char): char {
    if 'A' <= c <= 'Z' then (c as int + 32) as char else c
  }

  predicate StartsWithIgnoringCase(s: string, prefix: string) {
    |prefix| <= |s| && forall i :: 0 <= i < |prefix| ==> Lower(s[i]) == prefix[i]
  }

  // /^https?:\/\//i
  predicate Absolute(path: string) {
    StartsWithIgnoringCase(path, "http://") || StartsWithIgnoringCase(path, "https://")
  }

  /** An absolute URL starts with http:// or https://, in any letter case. */
  lemma AbsoluteIff(path: string)
    ensures Absolute(path) <==>
            && |path| >= 7 && path[0] in "hH" && path[1] in "tT" && path[2] in "tT" && path[3] in "pP"
            && (path[4..7] == "://" || (path[4] in "sS" && |path| >= 8 && path[5..8] == "://"))
  {
    if |path| >= 7 {
      assert path[4..7] == [path[4], path[5], path[6]];
      LettersAre();
      var http := "http://";
      assert StartsWithIgnoringCase(path, http) <==>
        Lower(path[0]) == http[0] && Lower(path[1]) == http[1] && Lower(path[2]) == http[2] && Lower(path[3]) == http[3]
        && Lower(path[4]) == http[4] && Lower(path[5]) == http[5] && Lower(path[6]) == http[6];
    }
    if |path| >= 8 {
      assert path[5..8] == [path[5], path[6], path[7]];
      var https := "https://";
      assert StartsWithIgnoringCase(path, https) <==>
        Lower(path[0]) == https[0] && Lower(path[1]) == https[1] && Lower(path[2]) == https[2] && Lower(path[3]) == https[3]
        && Lower(path[4]) == https[4] && Lower(path[5]) == https[5] && Lower(path[6]) == https[6] && Lower(path[7]) == https[7];
    }
    hide StartsWithIgnoringCase, Lower;
  }

  lemma LettersAre()
    ensures forall c :: (Lower(c) == 'h' <==> c in "hH") && (Lower(c) == 't' <==> c in "tT") && (Lower(c) == 'p' <==> c in "pP")
    ensures forall c :: (Lower(c) == 's' <==> c in "sS") && (Lower(c) == ':' <==> c == ':') && (Lower(c) == '/' <==> c == '/')
  {}

  function AppPath(base: string, path: string): string {
    if Absolute(path) then path
    else
      var normalized := Slashed(path);
      if base == "" then normalized
      else if normalized == "/" then base + "/"
      else base + normalized
  }

  function RouterPath(base: string, path: string): string {
    var normalized := Slashed(path);
    if base == "" then normalized
    else if normalized == base || normalized == base + "/" then "/"
    else if StartsWith(normalized, base + "/") then normalized[|base|..]
    else normalized
  }

  /** What the configured base path always is: nothing, or a rooted path that does not end in a slash. */
  predicate Normal(base: string) {
    base == "" || (base[0] == '/' && base[|base| - 1] != '/')
  }

  lemma {:induction false} TrailingSlashesGone(s: string)
    ensures var t := WithoutTrailingSlashes(s);
            && t <= s && (t == "" || t[|t| - 1] != '/')
            && (forall i :: |t| <= i < |s| ==> s[i] == '/')
  {
    if s != "" && s[|s| - 1] == '/' {
      TrailingSlashesGone(s[..|s| - 1]);
    }
  }

  lemma NormalizeIsNormal(value: string)
    ensures Normal(NormalizeBasePath(value))
  {
    TrailingSlashesGone(Slashed(value));
  }

  /** The result is the longest prefix of the rooted value that does not end in a slash. */
  lemma NormalizeIsLongestPrefix(value: string)
    ensures var rooted := if value != "" && value[0] == '/' then value else "/" + value;
            var n := |NormalizeBasePath(value)|;
            && NormalizeBasePath(value) <= rooted
            && n <= |rooted| && forall i :: n <= i < |rooted| ==> rooted[i] == '/'
  {
    TrailingSlashesGone(Slashed(value));
  }

  /** Normalizing changes nothing exactly on normal base paths, so it is idempotent. */
  lemma NormalizeFixedIff(value: string)
    ensures NormalizeBasePath(value) == value <==> Normal(value)
    ensures NormalizeBasePath(NormalizeBasePath(value)) == NormalizeBasePath(value)
  {
    NormalizeIsNormal(value);
    TrailingSlashesGone(Slashed(value));
    TrailingSlashesGone(Slashed(NormalizeBasePath(value)));
  }

  function AppPathTimes(base: string, path: string, n: nat): string {
    if n == 0 then path else AppPath(base, AppPathTimes(base, path, n - 1))
  }

  function RouterPathTimes(base: string, path: string, n: nat): string
    decreases n
  {
    if n == 0 then path else RouterPathTimes(base, RouterPath(base, path), n - 1)
  }

  function Repeated(base: string, n: nat): string {
    if n == 0 then "" else base + Repeated(base, n - 1)
  }

  /** Prefixing is not idempotent: n applications put the base in front n times. */
  lemma {:induction false} AppPathTimesPrefixes(base: string, path: string, n: nat)
    requires Normal(base) && !Absolute(path) && n > 0
    ensures AppPathTimes(base, path, n) == Repeated(base, n) + Slashed(path)
    ensures AppPathTimes(base, path, n)[0] == '/'
  {
    if n == 1 {
      AppPathPrefixes(base, path);
      assert AppPathTimes(base, path, 0) == path;
      assert Repeated(base, 1) == base + Repeated(base, 0) == base;
    } else {
      AppPathTimesPrefixes(base, path, n - 1);
      var before := AppPathTimes(base, path, n - 1);
      hide AppPath, Absolute, Normal, Slashed;
      RootedIsSlashed(before);
      AppPathPrefixes(base, before);
      assert base + (Repeated(base, n - 1) + Slashed(path)) == Repeated(base, n) + Slashed(path);
    }
  }

  lemma AppPathPrefixes(base: string, path: string)
    requires Normal(base) && !Absolute(path)
    ensures AppPath(base, path) == base + Slashed(path) && AppPath(base, path)[0] == '/'
  {}

  lemma RootedIsSlashed(path: string)
    requires path != "" && path[0] == '/'
    ensures Slashed(path) == path && !Absolute(path)
  {
    assert Lower(path[0]) == '/';
  }

  /** The router strips one base path off. */
  lemma RouterUndoes(base: string, rest: string)
    requires Normal(base) && rest != "" && rest[0] == '/'
    ensures RouterPath(base, base + rest) == rest
  {
    var full := base + rest;
    assert Slashed(full) == full;
    if base != "" {
      assert full[|base|] == rest[0] && full[|base|..] == rest;
      assert base + "/" <= full;
    }
  }

  lemma {:induction false} RouterTimesUndoes(base: string, rest: string, n: nat)
    requires Normal(base) && rest != "" && rest[0] == '/'
    ensures RouterPathTimes(base, Repeated(base, n) + rest, n) == rest
  {
    if n > 0 {
      var inner := Repeated(base, n - 1) + rest;
      assert inner[0] == '/' by { RepeatedIsRooted(base, n - 1); }
      assert Repeated(base, n) + rest == base + inner;
      RouterUndoes(base, inner);
      RouterTimesUndoes(base, rest, n - 1);
    } else {
      assert "" + rest == rest;
    }
  }

  lemma {:induction false} RepeatedIsRooted(base: string, n: nat)
    requires Normal(base)
    ensures Repeated(base, n) == "" || Repeated(base, n)[0] == '/'
  {
    if n > 0 {
      RepeatedIsRooted(base, n - 1);
    }
  }

  /** However often a path was prefixed, stripping it as often gives it back with a leading slash. */
  lemma RoundTrip(base: string, path: string, n: nat)
    requires Normal(base) && !Absolute(path) && n > 0
    ensures RouterPathTimes(base, AppPathTimes(base, path, n), n) == Slashed(path)
  {
    AppPathTimesPrefixes(base, path, n);
    RouterTimesUndoes(base, Slashed(path), n);
  }

  /** An absolute URL is passed through, and so stripped of a base path it happens to look like. */
  lemma SingleRoundTripIff(base: string, path: string)
    requires Normal(base)
    ensures RouterPath(base, AppPath(base, path)) == Slashed(path)
       <==> !(Absolute(path) && base != "" && StartsWith(Slashed(path) + "/", base + "/"))
  {
    if !Absolute(path) {
      assert AppPath(base, path) == base + Slashed(path);
      RouterUndoes(base, Slashed(path));
    } else if base != "" {
      var s := Slashed(path);
      assert s == "/" + path;
      if base + "/" <= s + "/" {
        assert |base| <= |s| && s[..|base|] == (s + "/")[..|base|] == base;
        assert RouterPath(base, path) == "/" || |RouterPath(base, path)| < |s|;
      }
    }
  }
}
