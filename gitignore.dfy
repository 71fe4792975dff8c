/**
 * The path filter: `.gitignore` lines become rules, and a path is ignored
 * when it lies in `.git` or some rule matches all of it. Each rule is kept
 * as a small glob (literal character, `*`, `?`) with an anchoring flag and
 * a directory flag, instead of the Java regular expression the source
 * builds; `GlobMatch` and `RuleMatches` give that expression's meaning.
 */
module GitIgnore {
  import opened Wrappers
  import opened Text

  datatype GlobAtom = Lit(c: char) | AnyRun | AnyOne

  /** A compiled rule. `anchored`: it came with a leading `/` and matches only
      from the root. `dirRule`: it came with a trailing `/` and also matches
      anything beneath what it names. */
  datatype Rule = Rule(glob: seq<GlobAtom>, anchored: bool, dirRule: bool)

  /** The characters Java's `.` does not match (no DOTALL flag is given). */
  predicate IsLineTerminator(c: char) {
    c == '\n' || c == '\r' || c == '\U{85}' || c == '\U{2028}' || c == '\U{2029}'
  }

  predicate NoLineTerminator(s: string) {
    forall k :: 0 <= k < |s| ==> !IsLineTerminator(s[k])
  }

  // ---------------------------------------------------------------------
  // Compilation (`convertGitIgnorePatternToRegex`)

  /** `*` becomes "any run", `?` "any one character"; every other character,
      the regex metacharacters `. + ^ $ ( ) [ ] { } |` included, is literal. */
  function ToGlob(p: string): (g: seq<GlobAtom>)
    ensures |g| == |p|
  {
    if p == [] then []
    else [if p[0] == '*' then AnyRun else if p[0] == '?' then AnyOne else Lit(p[0])] + ToGlob(p[1..])
  }

  function Compile(pattern: string): Rule {
    var dirRule := EndsWith(pattern, "/");
    var body := if dirRule then pattern[..|pattern| - 1] else pattern;
    var anchored := StartsWith(body, "/");
    Rule(ToGlob(if anchored then body[1..] else body), anchored, dirRule)
  }

  /** The pattern text a rule stands for. */
  function RenderGlob(g: seq<GlobAtom>): string {
    if g == [] then []
    else (match g[0] case Lit(c) => [c] case AnyRun => "*" case AnyOne => "?") + RenderGlob(g[1..])
  }

  function Render(r: Rule): string {
    (if r.anchored then "/" else "") + RenderGlob(r.glob) + (if r.dirRule then "/" else "")
  }

  lemma {:induction false} RenderToGlob(p: string)
    ensures RenderGlob(ToGlob(p)) == p
  {
    if p != [] {
      RenderToGlob(p[1..]);
    }
  }

  /** Compilation loses nothing: the pattern can be read back from its rule,
      so different patterns give different rules. */
  lemma CompileRoundTrip(pattern: string)
    ensures Render(Compile(pattern)) == pattern
  {
    var dirRule := EndsWith(pattern, "/");
    var body := if dirRule then pattern[..|pattern| - 1] else pattern;
    var anchored := StartsWith(body, "/");
    var rest := if anchored then body[1..] else body;
    RenderToGlob(rest);
    if anchored { assert body == "/" + rest; }
    if dirRule { assert pattern == body + "/"; }
  }

  /** The flags record the leading and trailing slash. */
  lemma CompileFlags(pattern: string)
    ensures Compile(pattern).dirRule <==> EndsWith(pattern, "/")
    ensures Compile(pattern).anchored <==> (|pattern| >= 1 && pattern[0] == '/' && pattern != "/")
  {
  }

  // ---------------------------------------------------------------------
  // Matching (`Pattern.matcher(path).matches()`)

  /** The glob matches all of `s`. */
  function GlobMatch(g: seq<GlobAtom>, s: string): bool
    decreases |g| + |s|
  {
    if g == [] then s == []
    else match g[0]
      case Lit(c) => s != [] && s[0] == c && GlobMatch(g[1..], s[1..])
      case AnyOne => s != [] && !IsLineTerminator(s[0]) && GlobMatch(g[1..], s[1..])
      case AnyRun =>
        GlobMatch(g[1..], s) || (s != [] && !IsLineTerminator(s[0]) && GlobMatch(g, s[1..]))
  }

  /** What may follow the glob: nothing, or for a directory rule `/` and any text. */
  predicate TailOk(r: Rule, u: string) {
    u == [] || (r.dirRule && u[0] == '/' && NoLineTerminator(u[1..]))
  }

  /** The part after the optional directory prefix: glob, then the tail. */
  predicate BodyMatches(r: Rule, t: string) {
    exists j :: 0 <= j <= |t| && GlobMatch(r.glob, t[..j]) && TailOk(r, t[j..])
  }

  /** The optional directory prefix of an unanchored rule: empty, or any run ending in `/`. */
  predicate DirPrefix(x: string) {
    x == [] || (x[|x| - 1] == '/' && NoLineTerminator(x))
  }

  predicate RuleMatches(r: Rule, path: string) {
    if r.anchored then BodyMatches(r, path)
    else exists i :: 0 <= i <= |path| && DirPrefix(path[..i]) && BodyMatches(r, path[i..])
  }

  /** `.git` and everything in it, whatever the rules. */
  predicate IsGitPath(path: string) {
    StartsWith(path, ".git/") || path == ".git"
  }

  /** `ignorePatterns.any { ... }`, in list order. */
  function AnyRuleMatches(rules: seq<Rule>, path: string): (r: bool)
    ensures r <==> exists k :: 0 <= k < |rules| && RuleMatches(rules[k], path)
  {
    if rules == [] then false
    else
      assert forall k :: 1 <= k < |rules| ==> rules[k] == rules[1..][k - 1];
      RuleMatches(rules[0], path) || AnyRuleMatches(rules[1..], path)
  }

  /** `isIgnored`: the built-in `.git` rule first, then the compiled rules. */
  function IsIgnored(rules: seq<Rule>, path: string): (r: bool)
    ensures IsGitPath(path) ==> r
    ensures !IsGitPath(path) ==> (r <==> exists k :: 0 <= k < |rules| && RuleMatches(rules[k], path))
  {
    IsGitPath(path) || AnyRuleMatches(rules, path)
  }

  /** With no rules only `.git` paths are ignored. */
  lemma NoRulesOnlyGit(path: string)
    ensures IsIgnored([], path) <==> IsGitPath(path)
  {
  }

  /** The built-in rule covers neither `.gitignore` nor `.github`. */
  lemma BuiltinRuleIsExact(p: string, q: string)
    requires p == ".gitignore"
    requires q == ".github/workflows/build.yml"
    ensures !IsIgnored([], p) && !IsIgnored([], q)
  {
    assert p[4] != '/';
    assert q[4] != '/';
  }

  // ---------------------------------------------------------------------
  // Wildcards

  /** `*` matches any run of characters, `/` included (but no line terminator). */
  lemma {:induction false} StarMatchesAnyRun(s: string)
    ensures GlobMatch([AnyRun], s) <==> NoLineTerminator(s)
    decreases |s|
  {
    assert [AnyRun][1..] == [];
    if s != [] {
      StarMatchesAnyRun(s[1..]);
      if NoLineTerminator(s) {
        assert NoLineTerminator(s[1..]) by {
          forall k | 0 <= k < |s[1..]| ensures !IsLineTerminator(s[1..][k]) { assert s[1..][k] == s[k + 1]; }
        }
      } else {
        var k :| 0 <= k < |s| && IsLineTerminator(s[k]);
        if k > 0 { assert s[1..][k - 1] == s[k]; }
      }
    }
  }

  /** `?` matches exactly one character. */
  lemma QuestionMatchesOne(s: string)
    ensures GlobMatch([AnyOne], s) <==> |s| == 1 && !IsLineTerminator(s[0])
  {
    assert [AnyOne][1..] == [];
  }

  predicate HasNoWildcard(p: string) {
    forall k :: 0 <= k < |p| ==> p[k] != '*' && p[k] != '?'
  }

  /** A pattern without wildcards matches exactly its own text, so regex
      metacharacters in it are plain characters. */
  lemma {:induction false} LiteralGlobExact(p: string, s: string)
    requires HasNoWildcard(p)
    ensures GlobMatch(ToGlob(p), s) <==> s == p
    decreases |p|
  {
    if p != [] {
      assert ToGlob(p)[0] == Lit(p[0]) && ToGlob(p)[1..] == ToGlob(p[1..]);
      assert HasNoWildcard(p[1..]) by {
        forall k | 0 <= k < |p[1..]| ensures p[1..][k] != '*' && p[1..][k] != '?' { assert p[1..][k] == p[k + 1]; }
      }
      if s != [] {
        LiteralGlobExact(p[1..], s[1..]);
        if s[0] == p[0] && s[1..] == p[1..] { assert s == [s[0]] + s[1..] && p == [p[0]] + p[1..]; }
      }
    }
  }

  /** A glob that ends in a literal only matches text ending in that character. */
  lemma {:induction false} GlobEndsWithLiteral(g: seq<GlobAtom>, s: string, c: char)
    requires g != [] && g[|g| - 1] == Lit(c)
    requires GlobMatch(g, s)
    ensures s != [] && s[|s| - 1] == c
    decreases |g| + |s|
  {
    match g[0]
    case Lit(c0) =>
      if |g| > 1 {
        GlobEndsWithLiteral(g[1..], s[1..], c);
      } else {
        assert s[1..] == [];
      }
    case AnyOne =>
      GlobEndsWithLiteral(g[1..], s[1..], c);
    case AnyRun =>
      if GlobMatch(g[1..], s) {
        GlobEndsWithLiteral(g[1..], s, c);
      } else {
        GlobEndsWithLiteral(g, s[1..], c);
      }
  }

  // ---------------------------------------------------------------------
  // Anchoring and directory rules

  /** A rule without a trailing `/` must match the whole (remaining) text. */
  lemma FileRuleExact(r: Rule, t: string)
    requires !r.dirRule
    ensures BodyMatches(r, t) <==> GlobMatch(r.glob, t)
  {
    if GlobMatch(r.glob, t) {
      assert t[..|t|] == t && t[|t|..] == [];
    }
    if BodyMatches(r, t) {
      var j :| 0 <= j <= |t| && GlobMatch(r.glob, t[..j]) && TailOk(r, t[j..]);
      assert |t[j..]| == 0;
      assert t[..j] == t;
    }
  }

  /** A directory rule matches what it names and everything beneath it. */
  lemma DirRuleCoversBeneath(r: Rule, t: string, q: string)
    requires r.dirRule && GlobMatch(r.glob, t) && NoLineTerminator(q)
    ensures BodyMatches(r, t)
    ensures BodyMatches(r, t + "/" + q)
  {
    assert t[..|t|] == t && t[|t|..] == [];
    var u := t + "/" + q;
    assert u[..|t|] == t;
    assert u[|t|..] == "/" + q && u[|t|..][1..] == q;
  }

  lemma NoLineTerminatorJoin(a: string, b: string)
    requires NoLineTerminator(a) && NoLineTerminator(b)
    ensures NoLineTerminator(a + b)
  {
    forall k | 0 <= k < |a + b| ensures !IsLineTerminator((a + b)[k]) {
      if k < |a| { assert (a + b)[k] == a[k]; } else { assert (a + b)[k] == b[k - |a|]; }
    }
  }

  /** A directory prefix stays one below another directory. */
  lemma DirPrefixBelow(d: string, x: string)
    requires NoLineTerminator(d) && DirPrefix(x)
    ensures DirPrefix(d + "/" + x)
  {
    var y := d + "/" + x;
    assert NoLineTerminator("/");
    NoLineTerminatorJoin(d, "/");
    NoLineTerminatorJoin(d + "/", x);
    assert y == (d + "/") + x;
    if x == [] {
      assert y[|y| - 1] == '/';
    } else {
      assert y[|y| - 1] == x[|x| - 1];
    }
  }

  /** An unanchored rule matches at any depth: below any directory prefix. */
  lemma UnanchoredAnyDepth(r: Rule, d: string, path: string)
    requires !r.anchored && RuleMatches(r, path)
    requires NoLineTerminator(d)
    ensures RuleMatches(r, d + "/" + path)
  {
    var i :| 0 <= i <= |path| && DirPrefix(path[..i]) && BodyMatches(r, path[i..]);
    var p := d + "/" + path;
    var n := |d| + 1;
    assert p[n + i..] == path[i..];
    assert p[..n + i] == d + "/" + path[..i];
    DirPrefixBelow(d, path[..i]);
    assert 0 <= n + i <= |p| && DirPrefix(p[..n + i]) && BodyMatches(r, p[n + i..]);
  }

  /** An anchored rule matches only from the root. */
  lemma AnchoredFromRoot(r: Rule, path: string)
    requires r.anchored
    ensures RuleMatches(r, path) <==> BodyMatches(r, path)
  {
  }

  // ---------------------------------------------------------------------
  // Loading (`loadGitIgnore`)

  /** A trimmed line that yields a rule: not blank, not a `#` comment. */
  predicate KeepLine(t: string) {
    t != [] && t[0] != '#'
  }

  /** The rule texts of a file: every line trimmed, blank and comment lines dropped. */
  function PatternLines(lines: seq<string>): (r: seq<string>)
    ensures |r| <= |lines|
    ensures forall k :: 0 <= k < |r| ==> KeepLine(r[k])
  {
    if lines == [] then []
    else
      var t := Trim(lines[0]);
      (if KeepLine(t) then [t] else []) + PatternLines(lines[1..])
  }

  /** Lines are processed independently and in order. */
  lemma {:induction false} PatternLinesAppend(a: seq<string>, b: seq<string>)
    ensures PatternLines(a + b) == PatternLines(a) + PatternLines(b)
    decreases |a|
  {
    if a == [] {
      assert a + b == b;
    } else {
      assert (a + b)[1..] == a[1..] + b;
      PatternLinesAppend(a[1..], b);
    }
  }

  /** A text is a rule text exactly when it is a kept trimmed line of the file. */
  lemma {:induction false} PatternLinesMembers(lines: seq<string>, x: string)
    ensures x in PatternLines(lines) <==> KeepLine(x) && exists l :: l in lines && Trim(l) == x
    decreases |lines|
  {
    if lines != [] {
      PatternLinesMembers(lines[1..], x);
      if exists l :: l in lines && Trim(l) == x {
        var l :| l in lines && Trim(l) == x;
        if l != lines[0] { assert l in lines[1..]; }
      }
    }
  }

  /** Blank and `#` lines contribute no rule. */
  lemma SkippedLines(l: string)
    requires IsBlank(l) || StartsWith(Trim(l), "#")
    ensures PatternLines([l]) == []
  {
    assert [l][1..] == [];
  }

  function LoadRules(lines: seq<string>): (rules: seq<Rule>)
    ensures |rules| == |PatternLines(lines)|
    ensures forall k :: 0 <= k < |rules| ==> rules[k] == Compile(PatternLines(lines)[k])
  {
    var ps := PatternLines(lines);
    seq(|ps|, k requires 0 <= k < |ps| => Compile(ps[k]))
  }

  /** What reading `.gitignore` gave. */
  datatype IgnoreFile = Missing | Unreadable | Lines(lines: seq<string>)

  /** `GitIgnoreManager`: holds the compiled rules and replaces them wholesale. */
  class GitIgnoreManager {
    var ignorePatterns: seq<Rule>

    /** The rule set a load produces; without a base path the old set stays. */
    static function Reloaded(old_: seq<Rule>, basePath: Option<string>, file: IgnoreFile): seq<Rule> {
      if basePath.None? then old_
      else match file
        case Missing => []
        case Unreadable => []
        case Lines(ls) => LoadRules(ls)
    }

    constructor (basePath: Option<string>, file: IgnoreFile)
      ensures ignorePatterns == Reloaded([], basePath, file)
    {
      ignorePatterns := [];
      new;
      LoadGitIgnore(basePath, file);
    }

    method LoadGitIgnore(basePath: Option<string>, file: IgnoreFile)
      modifies this
      ensures ignorePatterns == Reloaded(old(ignorePatterns), basePath, file)
    {
      if basePath.None? {
        return;
      }
      match file
      case Missing => ignorePatterns := [];
      case Unreadable => ignorePatterns := [];
      case Lines(ls) => ignorePatterns := LoadRules(ls);
    }

    /** `isIgnored(relativePath)` against the current rules. */
    function Ignores(relativePath: string): (r: bool)
      reads this
      ensures r <==> IsGitPath(relativePath)
                     || exists k :: 0 <= k < |ignorePatterns| && RuleMatches(ignorePatterns[k], relativePath)
    {
      IsIgnored(ignorePatterns, relativePath)
    }
  }

  // ---------------------------------------------------------------------
  // Examples

  /** The rule `*.log` compiles to: any run, then the literal `.log`. */
  lemma CompileStarLog(pattern: string)
    requires pattern == "*.log"
    ensures Compile(pattern) == Rule([AnyRun] + ToGlob(".log"), false, false)
  {
    assert pattern == "*" + ".log";
    assert ToGlob(pattern)[1..] == ToGlob(".log");
  }

  /** `*.log` ignores `build/output.log` but not `output.log.txt`. */
  lemma StarLogExample(pattern: string, hit: string, miss: string)
    requires pattern == "*.log" && hit == "build/output.log" && miss == "output.log.txt"
    ensures IsIgnored([Compile(pattern)], hit)
    ensures !IsIgnored([Compile(pattern)], miss)
  {
    CompileStarLog(pattern);
    var r := Compile(pattern);
    assert hit == "build/output" + ".log";
    assert NoLineTerminator("build/output");
    StarLogHit(r, "build/output");
    assert [r][0] == r;
    assert RuleMatches([r][0], hit);
    StarLogMiss(r, miss);
    assert miss[0] != '.' && |miss| != 4;
    assert !IsGitPath(miss);
  }

  /** `*.log` matches every name ending in `.log`, whatever directories precede it. */
  lemma StarLogHit(r: Rule, a: string)
    requires r == Rule([AnyRun] + ToGlob(".log"), false, false)
    requires NoLineTerminator(a)
    ensures RuleMatches(r, a + ".log")
  {
    var hit := a + ".log";
    assert HasNoWildcard(".log");
    LiteralGlobExact(".log", ".log");
    GlobStarThen(ToGlob(".log"), a, ".log");
    FileRuleExact(r, hit);
    assert hit[..0] == [] && hit[0..] == hit;
    assert DirPrefix(hit[..0]);
  }

  lemma StarLogMiss(r: Rule, miss: string)
    requires r == Rule([AnyRun] + ToGlob(".log"), false, false)
    requires miss == "output.log.txt"
    ensures !RuleMatches(r, miss)
  {
    assert r.glob[|r.glob| - 1] == Lit('g');
    forall i | 0 <= i <= |miss| ensures !BodyMatches(r, miss[i..]) {
      FileRuleExact(r, miss[i..]);
      if GlobMatch(r.glob, miss[i..]) {
        GlobEndsWithLiteral(r.glob, miss[i..], 'g');
      }
    }
  }

  /** `*` followed by a literal tail: any run, then the tail. */
  lemma {:induction false} GlobStarThen(g: seq<GlobAtom>, a: string, b: string)
    requires NoLineTerminator(a) && GlobMatch(g, b)
    ensures GlobMatch([AnyRun] + g, a + b)
    decreases |a|
  {
    assert ([AnyRun] + g)[1..] == g;
    if a == [] {
      assert a + b == b;
    } else {
      assert NoLineTerminator(a[1..]) by {
        forall k | 0 <= k < |a[1..]| ensures !IsLineTerminator(a[1..][k]) { assert a[1..][k] == a[k + 1]; }
      }
      GlobStarThen(g, a[1..], b);
      assert (a + b)[1..] == a[1..] + b;
    }
  }

  /** `/build` ignores `build` but not `src/build`. */
  lemma AnchoredExample(pattern: string, hit: string, miss: string)
    requires pattern == "/build" && hit == "build" && miss == "src/build"
    ensures IsIgnored([Compile(pattern)], hit)
    ensures !IsIgnored([Compile(pattern)], miss)
  {
    var r := Compile(pattern);
    assert pattern[1..] == "build";
    assert r == Rule(ToGlob("build"), true, false);
    assert HasNoWildcard("build");
    LiteralGlobExact("build", hit);
    LiteralGlobExact("build", miss);
    FileRuleExact(r, hit);
    FileRuleExact(r, miss);
  }
}
