/** The two commit-message linters: the pre-flight one and the format layer of the commit-msg hook. */
module CommitLint {
  import opened GoStrings
  import opened Regex

  // ---------------------------------------------------------------- the expressions

  const TYPES := ["feat", "fix", "docs", "refactor", "test", "chore", "perf", "build", "ci", "style", "revert"]

  function AnyOf(words: seq<string>): Regex
    requires words != []
  {
    if |words| == 1 then Word(words[0]) else Alt(Word(words[0]), AnyOf(words[1..]))
  }

  function Lower(): char -> bool { c => 'a' <= c <= 'z' }

  function StrictScope(): char -> bool { c => 'a' <= c <= 'z' || '0' <= c <= '9' || c == '_' || c == '-' }

  function HookScope(): char -> bool { c => 'a' <= c <= 'z' || 'A' <= c <= 'Z' || '0' <= c <= '9' || c == '_' || c == '-' }

  /** `.` matches everything but a line break, `\S` everything but the five ASCII spaces. */
  function Dot(): char -> bool { c => c != '\n' }

  function NonSpace(): char -> bool { c => c != ' ' && c != '\t' && c != '\n' && c != '\U{0C}' && c != '\r' }

  function Scope(accepts: char -> bool): Regex { Cat(Word("("), Cat(Plus(OneOf(accepts)), Word(")"))) }

  function Header(kind: Regex, scope: char -> bool, subject: Regex): Regex {
    Cat(kind, Cat(Maybe(Scope(scope)), Cat(Word(": "), subject)))
  }

  /** strictConventionalCommit, anchored at both ends. */
  function Strict(): Regex { Header(AnyOf(TYPES), StrictScope(), Cat(OneOf(NonSpace()), Star(OneOf(Dot())))) }

  /** conventionalFormat, anchored at the start. */
  function Conventional(): Regex { Header(Plus(OneOf(Lower())), HookScope(), Plus(OneOf(Dot()))) }

  // ---------------------------------------------------------------- the linters

  /** Everything before the first line break. */
  function FirstLine(msg: string): string { Split(msg, '\n')[0] }

  /** Trailing blanks and tabs cut off. */
  function TrimBlanks(s: string): (r: string)
    ensures |r| <= |s| && r == s[..|r|]
  {
    if s != "" && (s[|s| - 1] == ' ' || s[|s| - 1] == '\t') then TrimBlanks(s[..|s| - 1]) else s
  }

  const BYPASS_PREFIXES := ["Merge ", "auto: "]

  predicate Bypasses(line: string) {
    exists i :: 0 <= i < |BYPASS_PREFIXES| && HasPrefix(line, BYPASS_PREFIXES[i])
  }

  predicate IsConventionalCommitInvalid(msg: string) {
    var first := TrimBlanks(FirstLine(msg));
    if first == "" then true
    else if Bypasses(first) then false
    else !Matches(Strict(), first)
  }

  /** The format layer of the hook, which does not trim. */
  predicate HookAccepts(msg: string) {
    var first := FirstLine(msg);
    HasPrefix(first, "Merge ") || HasPrefix(first, "auto: ") || MatchesPrefix(Conventional(), first)
  }

  // ---------------------------------------------------------------- what the expressions say

  lemma {:induction false} AnyOfMeans(words: seq<string>, s: string)
    requires words != []
    ensures Matches(AnyOf(words), s) <==> s in words
  {
    if |words| > 1 {
      AnyOfMeans(words[1..], s);
      assert words == [words[0]] + words[1..];
    }
  }

  /** No scope, or one non-empty token in parentheses. */
  predicate IsScope(s: string, accepts: char -> bool) {
    s == "" || (|s| > 2 && s[0] == '(' && s[|s| - 1] == ')' && AllIn(s[1..|s| - 1], accepts))
  }

  lemma ScopeMeans(accepts: char -> bool, s: string)
    ensures Matches(Maybe(Scope(accepts)), s) <==> IsScope(s, accepts)
  {
    hide Matches;
    var inner := Cat(Plus(OneOf(accepts)), Word(")"));
    assert Matches(Maybe(Scope(accepts)), s) <==> s == "" || Matches(Scope(accepts), s) by { MaybeMeans(Scope(accepts), s); }
    if Matches(Scope(accepts), s) {
      var open, rest := CatSplits(Word("("), inner, s);
      var token, close := CatSplits(Plus(OneOf(accepts)), Word(")"), rest);
      WordMeans("(", open);
      WordMeans(")", close);
      PlusOfClass(accepts, token);
      assert s == "(" + token + ")";
      assert s[1..|s| - 1] == token;
    }
    if IsScope(s, accepts) && s != "" {
      var token := s[1..|s| - 1];
      assert s == "(" + (token + ")");
      PlusOfClass(accepts, token);
      WordMeans("(", "(");
      WordMeans(")", ")");
      CatMatches(Plus(OneOf(accepts)), Word(")"), token, ")");
      CatMatches(Word("("), inner, "(", token + ")");
    }
  }

  lemma WordMeans(w: string, s: string)
    ensures Matches(Word(w), s) <==> s == w
  {
  }

  lemma MaybeMeans(r: Regex, s: string)
    ensures Matches(Maybe(r), s) <==> s == "" || Matches(r, s)
  {
  }

  /** The line is a type, an optional scope, a colon and a blank, and a subject. */
  predicate Parts(line: string, kind: string, scope: string, subject: string) {
    line == kind + (scope + (": " + subject))
  }

  lemma HeaderSplits(k: Regex, accepts: char -> bool, s: Regex, line: string) returns (kind: string, scope: string, subject: string)
    requires Matches(Header(k, accepts, s), line)
    ensures Parts(line, kind, scope, subject) && Matches(k, kind) && IsScope(scope, accepts) && Matches(s, subject)
  {
    hide Matches;
    var rest, more, colon;
    kind, rest := CatSplits(k, Cat(Maybe(Scope(accepts)), Cat(Word(": "), s)), line);
    scope, more := CatSplits(Maybe(Scope(accepts)), Cat(Word(": "), s), rest);
    colon, subject := CatSplits(Word(": "), s, more);
    WordMeans(": ", colon);
    ScopeMeans(accepts, scope);
  }

  lemma HeaderJoins(k: Regex, accepts: char -> bool, s: Regex, line: string, kind: string, scope: string, subject: string)
    requires Parts(line, kind, scope, subject) && Matches(k, kind) && IsScope(scope, accepts) && Matches(s, subject)
    ensures Matches(Header(k, accepts, s), line)
  {
    hide Matches;
    WordMeans(": ", ": ");
    ScopeMeans(accepts, scope);
    CatMatches(Word(": "), s, ": ", subject);
    CatMatches(Maybe(Scope(accepts)), Cat(Word(": "), s), scope, ": " + subject);
    CatMatches(k, Cat(Maybe(Scope(accepts)), Cat(Word(": "), s)), kind, scope + (": " + subject));
  }

  /** A subject of one line that does not start with a space. */
  predicate IsSubject(s: string) { s != "" && NonSpace()(s[0]) && AllIn(s, Dot()) }

  lemma StrictSubject(s: string)
    ensures Matches(Cat(OneOf(NonSpace()), Star(OneOf(Dot()))), s) <==> IsSubject(s)
  {
    var a, b := OneOf(NonSpace()), Star(OneOf(Dot()));
    if s != "" {
      StarOfClass(Dot(), s[1..]);
      assert s == s[..1] + s[1..] && s[..1] == [s[0]];
      assert forall k :: 1 <= k < |s| ==> s[k] == s[1..][k - 1];
      if IsSubject(s) { CatMatches(a, b, s[..1], s[1..]); }
    }
    if Matches(Cat(a, b), s) {
      var x, y := CatSplits(a, b, s);
      StarOfClass(Dot(), y);
      assert |x| == 1 && s[1..] == y;
    }
  }

  ghost predicate StrictLine(line: string, kind: string, scope: string, subject: string) {
    Parts(line, kind, scope, subject) && kind in TYPES && IsScope(scope, StrictScope()) && IsSubject(subject)
  }

  /** The pre-flight expression enforces exactly the documented rules. */
  lemma StrictMeans(line: string)
    ensures Matches(Strict(), line) <==> exists kind, scope, subject :: StrictLine(line, kind, scope, subject)
  {
    hide Matches, IsScope, IsSubject;
    var s := Cat(OneOf(NonSpace()), Star(OneOf(Dot())));
    if Matches(Strict(), line) {
      var kind, scope, subject := HeaderSplits(AnyOf(TYPES), StrictScope(), s, line);
      AnyOfMeans(TYPES, kind);
      StrictSubject(subject);
      assert StrictLine(line, kind, scope, subject);
    }
    if kind, scope, subject :| StrictLine(line, kind, scope, subject) {
      AnyOfMeans(TYPES, kind);
      StrictSubject(subject);
      HeaderJoins(AnyOf(TYPES), StrictScope(), s, line, kind, scope, subject);
    }
  }

  /** What the hook asks of a line: lower-case letters, an optional scope, and something on the line after the colon. */
  ghost predicate HookLine(line: string, kind: string, scope: string, subject: string) {
    && Parts(line, kind, scope, subject) && kind != "" && AllIn(kind, Lower())
    && IsScope(scope, HookScope()) && subject != "" && Dot()(subject[0])
  }

  /** The hook's expression, which need not reach the end of the line. */
  lemma ConventionalMeans(line: string)
    ensures MatchesPrefix(Conventional(), line) <==> exists kind, scope, subject :: HookLine(line, kind, scope, subject)
  {
    hide Matches, IsScope;
    var k, s := Plus(OneOf(Lower())), Plus(OneOf(Dot()));
    if MatchesPrefix(Conventional(), line) {
      var n :| 0 <= n <= |line| && Matches(Conventional(), line[..n]);
      var kind, scope, subject := HeaderSplits(k, HookScope(), s, line[..n]);
      PlusOfClass(Lower(), kind);
      PlusOfClass(Dot(), subject);
      assert line == line[..n] + line[n..];
      assert HookLine(line, kind, scope, subject + line[n..]);
    }
    if kind, scope, subject :| HookLine(line, kind, scope, subject) {
      var n := |line| - |subject| + 1;
      var part := kind + (scope + (": " + subject[..1]));
      assert line[..n] == part;
      PlusOfClass(Lower(), kind);
      PlusOfClass(Dot(), subject[..1]);
      HeaderJoins(k, HookScope(), s, part, kind, scope, subject[..1]);
    }
  }

  // ---------------------------------------------------------------- inclusion

  lemma TypesLower(kind: string)
    requires kind in TYPES
    ensures kind != "" && AllIn(kind, Lower())
  {
  }

  lemma ScopeWidens(scope: string)
    requires IsScope(scope, StrictScope())
    ensures IsScope(scope, HookScope())
  {
  }

  lemma PrefixHolds(s: string, k: nat, prefix: string)
    requires k <= |s| && HasPrefix(s[..k], prefix)
    ensures HasPrefix(s, prefix)
  {
    assert s[..k][..|prefix|] == s[..|prefix|];
  }

  /** Every message the pre-flight linter accepts passes the format layer of the hook. */
  lemma PreflightImpliesHook(msg: string)
    requires !IsConventionalCommitInvalid(msg)
    ensures HookAccepts(msg)
  {
    hide Matches, MatchesPrefix, IsScope, AllIn, Parts, HasPrefix, Split, Strict, Conventional;
    var line := FirstLine(msg);
    var first := TrimBlanks(line);
    if Bypasses(first) {
      var i :| 0 <= i < |BYPASS_PREFIXES| && HasPrefix(first, BYPASS_PREFIXES[i]);
      PrefixHolds(line, |first|, BYPASS_PREFIXES[i]);
      assert BYPASS_PREFIXES[i] == "Merge " || BYPASS_PREFIXES[i] == "auto: ";
    } else {
      StrictMeans(first);
      var kind, scope, subject :| StrictLine(first, kind, scope, subject);
      TypesLower(kind);
      ScopeWidens(scope);
      SubjectLine(subject);
      PartsExtend(first, kind, scope, subject, line[|first|..]);
      assert line == first + line[|first|..];
      assert HookLine(line, kind, scope, subject + line[|first|..]);
      ConventionalMeans(line);
    }
  }

  lemma SubjectLine(subject: string)
    requires IsSubject(subject)
    ensures subject != "" && Dot()(subject[0])
  {
  }

  lemma PartsExtend(line: string, kind: string, scope: string, subject: string, tail: string)
    requires Parts(line, kind, scope, subject)
    ensures Parts(line + tail, kind, scope, subject + tail)
  {
    assert line + tail == kind + (scope + (": " + (subject + tail)));
  }

  // ---------------------------------------------------------------- exactly how much stricter

  /** A line splits in at most one way. */
  lemma OneSplit(line: string, kind: string, scope: string, subject: string, kind': string, scope': string, subject': string)
    requires Parts(line, kind, scope, subject) && AllIn(kind, Lower()) && IsScope(scope, HookScope())
    requires Parts(line, kind', scope', subject') && AllIn(kind', Lower()) && IsScope(scope', HookScope())
    ensures kind == kind' && scope == scope' && subject == subject'
  {
    KindBound(line, kind, scope, subject, kind', scope', subject');
    KindBound(line, kind', scope', subject', kind, scope, subject);
    assert kind == line[..|kind|] && kind' == line[..|kind'|];
    var rest := line[|kind|..];
    assert rest == scope + (": " + subject) && rest == scope' + (": " + subject');
    ScopeBound(rest, scope, subject, scope', subject');
    ScopeBound(rest, scope', subject', scope, subject);
    assert scope == rest[..|scope|] && scope' == rest[..|scope'|];
    assert subject == rest[|scope| + 2..] && subject' == rest[|scope'| + 2..];
  }

  lemma KindBound(line: string, kind: string, scope: string, subject: string, kind': string, scope': string, subject': string)
    requires Parts(line, kind, scope, subject) && IsScope(scope, HookScope())
    requires Parts(line, kind', scope', subject') && AllIn(kind', Lower())
    ensures |kind'| <= |kind|
  {
    var rest := scope + (": " + subject);
    assert line[|kind|] == rest[0];
    assert forall k :: 0 <= k < |kind'| ==> line[k] == kind'[k];
  }

  lemma ScopeBound(rest: string, scope: string, subject: string, scope': string, subject': string)
    requires rest == scope + (": " + subject) && IsScope(scope, HookScope())
    requires rest == scope' + (": " + subject') && IsScope(scope', HookScope())
    ensures |scope'| <= |scope|
  {
    assert forall k :: 0 <= k < |scope| ==> rest[k] == scope[k];
    assert forall k :: 1 <= k < |scope'| - 1 ==> rest[k] == scope'[1..|scope'| - 1][k - 1];
    assert scope == "" ==> rest[0] == ':';
  }

  lemma {:induction false} TrimKeeps(s: string, i: nat)
    requires i < |s| && s[i] != ' ' && s[i] != '\t'
    ensures i < |TrimBlanks(s)|
    decreases |s|
  {
    if s[|s| - 1] == ' ' || s[|s| - 1] == '\t' { TrimKeeps(s[..|s| - 1], i); }
  }

  /** What the pre-flight linter asks beyond the hook. */
  predicate Tighter(kind: string, scope: string, subject: string) {
    kind in TYPES && IsScope(scope, StrictScope()) && subject != "" && NonSpace()(subject[0])
  }

  lemma StrictIsTighter(line: string, kind: string, scope: string, subject: string)
    requires HookLine(line, kind, scope, subject) && Matches(Strict(), TrimBlanks(line))
    ensures Tighter(kind, scope, subject)
  {
    hide Matches, IsScope, Strict, TYPES;
    var first := TrimBlanks(line);
    var tail := line[|first|..];
    assert line == first + tail;
    StrictMeans(first);
    var kind', scope', subject' :| StrictLine(first, kind', scope', subject');
    TypesLower(kind');
    ScopeWidens(scope');
    PartsExtend(first, kind', scope', subject', tail);
    OneSplit(line, kind, scope, subject, kind', scope', subject' + tail);
  }

  lemma TighterIsStrict(line: string, kind: string, scope: string, subject: string)
    requires HookLine(line, kind, scope, subject) && '\n' !in line && Tighter(kind, scope, subject)
    ensures Matches(Strict(), TrimBlanks(line))
  {
    hide Matches, IsScope, Strict, TYPES;
    var first := TrimBlanks(line);
    var n := |kind| + |scope| + 2;
    assert line[n] == subject[0] && |line| == n + |subject|;
    TrimKeeps(line, n);
    var kept := subject[..|first| - n];
    assert first == kind + (scope + (": " + kept));
    assert AllIn(kept, Dot()) by {
      forall k | 0 <= k < |kept| ensures kept[k] != '\n' { assert kept[k] == line[n + k]; }
    }
    assert StrictLine(first, kind, scope, kept);
    StrictMeans(first);
  }

  lemma FirstLineUnbroken(msg: string)
    ensures '\n' !in FirstLine(msg)
  {
  }

  predicate HookBypasses(line: string) { HasPrefix(line, "Merge ") || HasPrefix(line, "auto: ") }

  predicate BlankFrom(line: string, n: nat) {
    forall k :: n <= k < |line| ==> line[k] == ' ' || line[k] == '\t'
  }

  lemma {:induction false} TrimDrops(s: string, n: nat)
    requires BlankFrom(s, n)
    ensures |TrimBlanks(s)| <= n
    decreases |s|
  {
    if |s| > n { TrimDrops(s[..|s| - 1], n); }
  }

  /** Trimming destroys a bypass exactly when only blanks follow its prefix. */
  lemma BypassLost(line: string)
    requires HookBypasses(line)
    ensures !Bypasses(TrimBlanks(line)) <==> BlankFrom(line, 6)
  {
    hide TrimBlanks;
    var first := TrimBlanks(line);
    if BlankFrom(line, 6) {
      assert line[5] == line[..6][5];
      TrimDrops(line, 5);
    } else {
      var k :| 6 <= k < |line| && line[k] != ' ' && line[k] != '\t';
      TrimKeeps(line, k);
      assert first[..6] == line[..6];
      assert HasPrefix(first, BYPASS_PREFIXES[0]) || HasPrefix(first, BYPASS_PREFIXES[1]);
    }
  }

  lemma BypassedNotStrict(line: string, kind: string, scope: string, subject: string)
    requires HookBypasses(line) && Parts(line, kind, scope, subject) && IsScope(scope, HookScope())
    ensures kind !in TYPES
  {
    var rest := scope + (": " + subject);
    assert line == kind + rest && (rest[0] == '(' || rest[0] == ':');
    assert forall k :: 0 <= k < |kind| ==> line[k] == kind[k];
    assert line[|kind|] == rest[0];
    assert forall k :: 0 <= k < 6 ==> line[k] == line[..6][k];
    assert line[0] == 'M' || (line[0] == 'a' && line[1] == 'u' && line[2] == 't' && line[3] == 'o' && line[4] == ':');
    assert |kind| == 4 ==> kind == [line[0], line[1], line[2], line[3]];
    assert "auto" !in TYPES;
    if kind in TYPES { TypesLower(kind); }
  }

  /**
   The inclusion is strict, and this is the whole difference: the hook lets through a bypass prefix
   with nothing but blanks behind it, and any line whose type, scope or first subject character is
   not tight.
   */
  lemma LintersDiffer(msg: string)
    ensures HookAccepts(msg) && IsConventionalCommitInvalid(msg) <==>
            var line := FirstLine(msg);
            if HookBypasses(line) then BlankFrom(line, 6)
            else exists kind, scope, subject :: HookLine(line, kind, scope, subject) && !Tighter(kind, scope, subject)
  {
    hide Matches, MatchesPrefix, IsScope, AllIn, Parts, HasPrefix, Split, Strict, Conventional, Tighter;
    var line := FirstLine(msg);
    var first := TrimBlanks(line);
    FirstLineUnbroken(msg);
    ConventionalMeans(line);
    BypassSurvives(line);
    StrictMeans(first);
    if HookBypasses(line) {
      BypassLost(line);
      if kind, scope, subject :| StrictLine(first, kind, scope, subject) {
        ScopeWidens(scope);
        PartsExtend(first, kind, scope, subject, line[|first|..]);
        assert line == first + line[|first|..];
        BypassedNotStrict(line, kind, scope, subject + line[|first|..]);
      }
    } else {
      forall kind, scope, subject | HookLine(line, kind, scope, subject)
        ensures Matches(Strict(), first) <==> Tighter(kind, scope, subject)
      {
        if Matches(Strict(), first) { StrictIsTighter(line, kind, scope, subject); }
        if Tighter(kind, scope, subject) { TighterIsStrict(line, kind, scope, subject); }
      }
      assert first == "" ==> !Matches(Strict(), first) by {
        if first == "" && Matches(Strict(), first) {
          var kind, scope, subject :| StrictLine(first, kind, scope, subject);
          NotEmpty(first, kind, scope, subject);
        }
      }
    }
  }

  lemma NotEmpty(line: string, kind: string, scope: string, subject: string)
    requires Parts(line, kind, scope, subject)
    ensures line != ""
  {
  }

  lemma BypassSurvives(line: string)
    ensures Bypasses(TrimBlanks(line)) ==> HookBypasses(line) && TrimBlanks(line) != ""
  {
    var first := TrimBlanks(line);
    if i :| 0 <= i < |BYPASS_PREFIXES| && HasPrefix(first, BYPASS_PREFIXES[i]) {
      PrefixHolds(line, |first|, BYPASS_PREFIXES[i]);
    }
  }

  /** The smallest difference: a type outside the list. */
  lemma InclusionStrict()
    ensures HookAccepts("wip: x") && IsConventionalCommitInvalid("wip: x")
  {
    hide Matches, MatchesPrefix, Strict, Conventional, Split, HookLine, Tighter;
    var line := "wip: x";
    SplitWhole(line, '\n');
    assert FirstLine(line) == line;
    assert line[0] == 'w' && line[..6][0] == 'w';
    assert !HookBypasses(line);
    WipLine();
    LintersDiffer(line);
  }

  lemma WipLine()
    ensures HookLine("wip: x", "wip", "", "x") && !Tighter("wip", "", "x")
  {
    assert Parts("wip: x", "wip", "", "x");
  }

  /** A bypass prefix alone passes the hook and fails the pre-flight linter. */
  lemma BareBypass(line: string)
    requires line == "Merge " || line == "auto: "
    ensures HookAccepts(line) && IsConventionalCommitInvalid(line)
  {
    hide Matches, MatchesPrefix, Strict, Conventional, Split, HookLine, Tighter, IsConventionalCommitInvalid;
    assert line[..6] == line;
    SplitWhole(line, '\n');
    assert FirstLine(line) == line;
    LintersDiffer(line);
  }
}
