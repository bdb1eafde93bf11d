/** The commit helper script's message logic: the staged-file list read from
    `git diff --staged --name-only`, the ordered prefix table that picks a
    type and scope, the `type(scope): description` header of Conventional
    Commits 1.0.0, and the rule that accepts the suggestion or the user's
    own message. The git processes and the terminal prompts are inputs. */
module CommitMessage {
  import opened Common
  import opened Text

  /** One entry of the prefix table: files under `prefix` make a commit of
      type `kind` with scope `scope`. */
  datatype Rule = Rule(prefix: string, kind: string, scope: string)

  /** The table in declaration order; the script iterates it in that order. */
  const Rules: seq<Rule> := [
    Rule("src/", "feat", "app"),
    Rule("src/components/", "ui", "components"),
    Rule("src/lib/", "refactor", "lib"),
    Rule("src/hooks/", "refactor", "hooks"),
    Rule("src/styles/", "style", "css"),
    Rule("docs/", "docs", "docs"),
    Rule("scripts/", "chore", "scripts"),
    Rule("src/types/", "types", "types"),
    Rule("src/config/", "config", "config"),
    Rule("src/data/", "data", "data"),
    Rule("src/context/", "refactor", "context"),
    Rule("src/utils/", "refactor", "utils"),
    Rule("src/pages/", "feat", "pages")
  ]

  const DefaultType: string := "chore"
  const DefaultScope: string := ""

  /** `stagedFiles.some(file => file.startsWith(prefix))` */
  predicate AnyStartsWith(files: seq<string>, prefix: string)
  {
    exists i | 0 <= i < |files| :: StartsWith(files[i], prefix)
  }

  /** The position of the first rule whose prefix starts some staged file,
      or the table's length when none does. */
  function FirstMatch(rules: seq<Rule>, files: seq<string>): (k: nat)
    ensures k <= |rules|
    ensures k < |rules| ==> AnyStartsWith(files, rules[k].prefix)
    ensures forall j :: 0 <= j < k ==> !AnyStartsWith(files, rules[j].prefix)
  {
    if rules == [] then 0
    else if AnyStartsWith(files, rules[0].prefix) then 0
    else 1 + FirstMatch(rules[1..], files)
  }

  /** The first match is the only position matching with nothing matching before it. */
  lemma FirstMatchUnique(rules: seq<Rule>, files: seq<string>, k: nat)
    requires k <= |rules|
    requires k < |rules| ==> AnyStartsWith(files, rules[k].prefix)
    requires forall j :: 0 <= j < k ==> !AnyStartsWith(files, rules[j].prefix)
    ensures FirstMatch(rules, files) == k
  {
  }

  /** The type and scope the table chooses, or the defaults. */
  function Classify(files: seq<string>): (string, string)
  {
    var k := FirstMatch(Rules, files);
    if k < |Rules| then (Rules[k].kind, Rules[k].scope) else (DefaultType, DefaultScope)
  }

  /** "update <file>" for one staged file, "update <n> files" otherwise. */
  function Description(files: seq<string>): string
  {
    if |files| == 1 then "update " + files[0]
    else "update " + DecimalDigits(|files|) + " files"
  }

  /** `${type}${scope ? `(${scope})` : ""}: ${description}` */
  function Header(kind: string, scope: string, description: string): string
  {
    kind + (if scope != "" then "(" + scope + ")" else "") + ": " + description
  }

  /** The output of `git diff --staged --name-only`, trimmed and split into lines. */
  function StagedFiles(output: string): seq<string>
  {
    Split(Trim(output), '\n')
  }

  /** An empty list or the single empty line means nothing is staged. */
  predicate NothingStaged(files: seq<string>)
  {
    |files| == 0 || (|files| == 1 && files[0] == "")
  }

  /** The suggestion for a staged-file list. */
  function Suggestion(files: seq<string>): Option<string>
  {
    if NothingStaged(files) then None
    else
      var (kind, scope) := Classify(files);
      Some(Header(kind, scope, Description(files)))
  }

  /** suggestCommitMessage. `output` is what the git process printed, or
      `None` when it failed (the script then returns null). The loop walks
      the table and stops at the first rule some staged file falls under. */
  method SuggestCommitMessage(output: Option<string>) returns (r: Option<string>)
    ensures output.None? ==> r.None?
    ensures output.Some? ==> r == Suggestion(StagedFiles(output.value))
  {
    if output.None? {
      return None;
    }
    var files := StagedFiles(output.value);
    if |files| == 0 || (|files| == 1 && files[0] == "") {
      return None;
    }
    var kind, scope := DefaultType, DefaultScope;
    var i := 0;
    while i < |Rules|
      invariant 0 <= i <= |Rules|
      invariant kind == DefaultType && scope == DefaultScope
      invariant forall j :: 0 <= j < i ==> !AnyStartsWith(files, Rules[j].prefix)
    {
      if AnyStartsWith(files, Rules[i].prefix) {
        kind, scope := Rules[i].kind, Rules[i].scope;
        FirstMatchUnique(Rules, files, i);
        break;
      }
      i := i + 1;
    }
    if i == |Rules| {
      FirstMatchUnique(Rules, files, i);
    }
    var description := if |files| == 1 then "update " + files[0]
                       else "update " + DecimalDigits(|files|) + " files";
    r := Some(kind + (if scope != "" then "(" + scope + ")" else "") + ": " + description);
  }

  /** Blank output, which splits to `[""]`, gives no suggestion; any other
      output gives one. */
  lemma {:induction false} SuggestionIffStaged(output: string)
    ensures Suggestion(StagedFiles(output)).None? <==>
      forall i :: 0 <= i < |output| ==> IsSpace(output[i])
  {
    TrimEmptyIffAllSpace(output);
    var t := Trim(output);
    var files := StagedFiles(output);
    if t != [] && |files| == 1 {
      JoinSplit(t, '\n');
      assert files[0] == t;
    }
  }

  /** The entries other than "src/", "docs/" and "scripts/" lie under "src/". */
  lemma UnderSource(k: int)
    requires 0 < k < |Rules| && k != 5 && k != 6
    ensures StartsWith(Rules[k].prefix, "src/")
  {
  }

  /** Every table entry after "src/" whose prefix lies under "src/" is
      shadowed by it: the only entries that can ever be chosen are "src/",
      "docs/" and "scripts/". */
  lemma ShadowedRulesNeverChosen(files: seq<string>)
    ensures var k := FirstMatch(Rules, files);
      k == 0 || k == 5 || k == 6 || k == |Rules|
  {
    var k := FirstMatch(Rules, files);
    if k < |Rules| && k != 0 && k != 5 && k != 6 {
      UnderSource(k);
      var i :| 0 <= i < |files| && StartsWith(files[i], Rules[k].prefix);
      StartsWithPrefix(files[i], Rules[k].prefix, "src/");
    }
  }

  /** Any staged file under src/ makes the commit feat(app). */
  lemma SourceFileMeansFeatApp(files: seq<string>, i: int)
    requires 0 <= i < |files| && StartsWith(files[i], "src/")
    ensures Classify(files) == ("feat", "app")
  {
    assert AnyStartsWith(files, Rules[0].prefix);
  }

  /** With no rule matching, the header is "chore: <description>", with no
      parentheses since the default scope is empty. */
  lemma NoMatchIsChore(files: seq<string>)
    requires !NothingStaged(files)
    requires forall j :: 0 <= j < |Rules| ==> !AnyStartsWith(files, Rules[j].prefix)
    ensures Suggestion(files) == Some("chore: " + Description(files))
  {
    FirstMatchUnique(Rules, files, |Rules|);
    assert Header(DefaultType, DefaultScope, Description(files)) == "chore: " + Description(files);
  }

  /** The number in "update <n> files" is the number of staged files. */
  lemma DescriptionCountsFiles(files: seq<string>)
    requires |files| != 1
    ensures var d := Description(files);
      && StartsWith(d, "update ")
      && d[|d| - 6..] == " files"
      && DecimalValue(d[7..|d| - 6]) == |files|
  {
    var d := Description(files);
    var n := DecimalDigits(|files|);
    assert d == "update " + n + " files";
    assert d[7..|d| - 6] == n;
    DecimalRoundTrip(|files|);
  }

  /** The parts of a Conventional Commits header. */
  datatype ConventionalHeader = ConventionalHeader(kind: string, scope: string, description: string)

  /** The position of the first character of `s` in `stops`, or `|s|`. */
  function IndexOfAny(s: string, stops: set<char>): (k: nat)
    ensures k <= |s|
    ensures forall i :: 0 <= i < k ==> s[i] !in stops
    ensures k < |s| ==> s[k] in stops
  {
    if s == [] then 0
    else if s[0] in stops then 0
    else 1 + IndexOfAny(s[1..], stops)
  }

  lemma IndexOfAnyAt(a: string, b: string, stops: set<char>)
    requires forall i :: 0 <= i < |a| ==> a[i] !in stops
    requires b != [] && b[0] in stops
    ensures IndexOfAny(a + b, stops) == |a|
  {
    assert (a + b)[|a|] == b[0];
  }

  /** Reads a header back: the type runs to the first "(" or ":", an
      optional scope sits between parentheses, and ": " precedes the
      description. */
  function ParseHeader(h: string): Option<ConventionalHeader>
  {
    var k := IndexOfAny(h, {'(', ':'});
    if k == 0 || k == |h| then None
    else if h[k] == ':' then
      if k + 1 < |h| && h[k + 1] == ' ' then Some(ConventionalHeader(h[..k], "", h[k + 2..])) else None
    else
      var rest := h[k + 1..];
      var m := IndexOfAny(rest, {')'});
      if 0 < m && m + 2 < |rest| && rest[m + 1] == ':' && rest[m + 2] == ' '
      then Some(ConventionalHeader(h[..k], rest[..m], rest[m + 3..]))
      else None
  }

  /** A commit type: non-empty, with no "(" or ":". */
  predicate IsType(kind: string)
  {
    kind != [] && '(' !in kind && ':' !in kind
  }

  /** A scope: no ")". */
  predicate IsScope(scope: string)
  {
    ')' !in scope
  }

  /** Formatting a header and reading it back gives the same parts. */
  lemma HeaderRoundTrip(kind: string, scope: string, description: string)
    requires IsType(kind) && IsScope(scope)
    ensures ParseHeader(Header(kind, scope, description)) == Some(ConventionalHeader(kind, scope, description))
  {
    if scope == "" {
      assert Header(kind, scope, description) == kind + ": " + description;
      UnscopedRoundTrip(kind, description);
    } else {
      ScopedRoundTrip(kind, scope, description);
    }
  }

  /** A header without a scope parses back into its type and description. */
  lemma UnscopedRoundTrip(kind: string, description: string)
    requires IsType(kind)
    ensures ParseHeader(kind + ": " + description) == Some(ConventionalHeader(kind, "", description))
  {
    var h := kind + ": " + description;
    assert h == kind + (": " + description);
    IndexOfAnyAt(kind, ": " + description, {'(', ':'});
    assert h[..|kind|] == kind;
    assert h[|kind| + 2..] == description;
  }

  /** A header with a non-empty scope parses back into its three parts. */
  lemma ScopedRoundTrip(kind: string, scope: string, description: string)
    requires IsType(kind) && IsScope(scope) && scope != ""
    ensures ParseHeader(kind + ("(" + scope + ")") + ": " + description) ==
      Some(ConventionalHeader(kind, scope, description))
  {
    var h := kind + ("(" + scope + ")") + ": " + description;
    var tail := "(" + scope + ")" + ": " + description;
    assert h == kind + tail;
    IndexOfAnyAt(kind, tail, {'(', ':'});
    var rest := h[|kind| + 1..];
    assert rest == scope + (")" + ": " + description);
    IndexOfAnyAt(scope, ")" + ": " + description, {')'});
    assert h[..|kind|] == kind;
    assert rest[..|scope|] == scope;
    assert rest[|scope| + 3..] == description;
  }

  lemma RuleTypeWellFormed(k: int)
    requires 0 <= k < |Rules|
    ensures IsType(Rules[k].kind)
  {
  }

  lemma RuleScopeWellFormed(k: int)
    requires 0 <= k < |Rules|
    ensures IsScope(Rules[k].scope)
  {
  }

  /** Every table entry and the default are well-formed type/scope pairs, so
      every suggestion reads back as the type, scope and description chosen. */
  lemma {:induction false} SuggestionParses(files: seq<string>)
    requires !NothingStaged(files)
    ensures var (kind, scope) := Classify(files);
      ParseHeader(Suggestion(files).value) == Some(ConventionalHeader(kind, scope, Description(files)))
  {
    var (kind, scope) := Classify(files);
    var k := FirstMatch(Rules, files);
    if k < |Rules| {
      RuleTypeWellFormed(k);
      RuleScopeWellFormed(k);
    }
    HeaderRoundTrip(kind, scope, Description(files));
  }

  /** confirmCommitMessage's rule: "yes" in any case keeps the suggestion;
      otherwise the typed message, or the suggestion when that is empty. */
  function ConfirmedMessage(suggested: string, answer: string, custom: string): string
  {
    if Lower(answer) == "yes" then suggested
    else if custom != "" then custom
    else suggested
  }

  lemma ConfirmedMessageChoice(suggested: string, answer: string, custom: string)
    ensures ConfirmedMessage(suggested, answer, custom) == custom <==>
      custom == suggested || (Lower(answer) != "yes" && custom != "")
    ensures ConfirmedMessage(suggested, answer, custom) == suggested <==>
      custom == suggested || Lower(answer) == "yes" || custom == ""
    ensures Lower("YES") == "yes" && Lower("Yes") == "yes"
  {
  }

  /** The script end to end: no commit without a suggestion; otherwise the
      confirmed message, which is never empty. */
  function CommitPlan(output: Option<string>, answer: string, custom: string): (r: Option<string>)
  {
    if output.None? then None
    else match Suggestion(StagedFiles(output.value))
      case None => None
      case Some(s) => Some(ConfirmedMessage(s, answer, custom))
  }

  lemma CommitMessageNeverEmpty(output: Option<string>, answer: string, custom: string)
    requires CommitPlan(output, answer, custom).Some?
    ensures CommitPlan(output, answer, custom).value != ""
  {
    var files := StagedFiles(output.value);
    var (kind, scope) := Classify(files);
    assert |Header(kind, scope, Description(files))| >= 2;
  }

  /** One staged file under src/, even one under src/hooks/ or another more
      specific entry, is suggested as "feat(app): update <file>". */
  lemma OneSourceFile(f: string)
    requires StartsWith(f, "src/")
    ensures Suggestion([f]) == Some("feat(app): update " + f)
  {
    SourceFileMeansFeatApp([f], 0);
    assert !NothingStaged([f]) by { assert f[0] == 's'; }
    assert Description([f]) == "update " + f;
    assert Header("feat", "app", "update " + f) == "feat" + "(app)" + ": " + ("update " + f);
    assert "feat" + "(app)" + ": " + ("update " + f) == "feat(app): update " + f;
  }

  /** Two files outside every prefix (say README.md and package.json) give
      "chore: update 2 files". */
  lemma TwoOtherFiles(files: seq<string>)
    requires |files| == 2
    requires forall i :: 0 <= i < 2 ==> |files[i]| > 0 && files[i][0] != 's' && files[i][0] != 'd'
    ensures Suggestion(files) == Some("chore: update 2 files")
  {
    OutsideEveryPrefix(files);
    assert !NothingStaged(files);
    NoMatchIsChore(files);
    TwoFilesDescription(files);
    assert "chore: " + "update 2 files" == "chore: update 2 files";
  }

  /** Any two files are described as "update 2 files". */
  lemma TwoFilesDescription(files: seq<string>)
    requires |files| == 2
    ensures Description(files) == "update 2 files"
  {
    assert DecimalDigits(2) == "2";
  }

  /** Files whose names begin with neither "s" nor "d" match no entry. */
  lemma OutsideEveryPrefix(files: seq<string>)
    requires forall i :: 0 <= i < |files| ==> |files[i]| > 0 && files[i][0] != 's' && files[i][0] != 'd'
    ensures forall j :: 0 <= j < |Rules| ==> !AnyStartsWith(files, Rules[j].prefix)
  {
    forall j, i | 0 <= j < |Rules| && 0 <= i < |files|
      ensures !StartsWith(files[i], Rules[j].prefix)
    {
      RuleInitial(j);
      DifferentInitial(files[i], Rules[j].prefix);
    }
  }

  /** Every prefix in the table begins with "s" or "d". */
  lemma RuleInitial(k: int)
    requires 0 <= k < |Rules|
    ensures |Rules[k].prefix| > 0 && (Rules[k].prefix[0] == 's' || Rules[k].prefix[0] == 'd')
  {
  }

  lemma DifferentInitial(f: string, p: string)
    requires |f| > 0 && |p| > 0 && f[0] != p[0]
    ensures !StartsWith(f, p)
  {
  }
}
