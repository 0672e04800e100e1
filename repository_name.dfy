/**
 * The name of an external repository: syntax validation, the immutable name
 * value with its optional "not visible from owner" tag, the derived path
 * shapes, and the pure specification of the validating factory.
 *
 * The deduplicating cache that the factory goes through lives in
 * RepositoryNameCache; the functions here say what it must return.
 */
module RepositoryNames {
  import opened Wrappers

  /** A relative, normalised path fragment, as its sequence of segments. */
  type Path = seq<string>

  /**
   * The two one-segment layout prefixes: the legacy nested one and the one
   * used with the sibling repository layout. Their values belong to another
   * class and are taken as given.
   */
  datatype LayoutPrefixes = LayoutPrefixes(external: string, siblingExternal: string)

  /** The prefix a layout flag selects. */
  function Prefix(prefixes: LayoutPrefixes, siblingRepositoryLayout: bool): string
  {
    if siblingRepositoryLayout then prefixes.siblingExternal else prefixes.external
  }

  // ---------------------------------------------------------------------
  // Validator
  // ---------------------------------------------------------------------

  const DEFAULT_REPOSITORY: string := ""

  const MustStartWithAt: string := "workspace names must start with '@'"
  const MustNotBeDot: string := "workspace names are not allowed to be '@.'"
  const MustNotBeDotDot: string := "workspace names are not allowed to be '@..'"
  const DisallowedCharacter: string :=
    "workspace names may contain only A-Z, a-z, 0-9, '-', '_' and '.'"

  /** The character class `[\w\-.]`; `\w` without flags is ASCII `[A-Za-z0-9_]`. */
  predicate IsRepoNameChar(c: char)
  {
    ('A' <= c <= 'Z') || ('a' <= c <= 'z') || ('0' <= c <= '9') || c == '_' || c == '-' || c == '.'
  }

  /** `[\w\-.]*` matched against `s[from..]`, scanning left to right. */
  predicate RepoNameCharsFrom(s: string, from: nat)
    decreases |s| - from
  {
    from >= |s| || (IsRepoNameChar(s[from]) && RepoNameCharsFrom(s, from + 1))
  }

  /** The left-to-right scan accepts exactly when every character from `from` on is allowed. */
  lemma {:induction false} RepoNameCharsFromIff(s: string, from: nat)
    ensures RepoNameCharsFrom(s, from) <==> forall i | from <= i < |s| :: IsRepoNameChar(s[i])
    decreases |s| - from
  {
    if from < |s| {
      RepoNameCharsFromIff(s, from + 1);
    }
  }

  /** Whole-string match of the pattern `@[\w\-.]*`. */
  predicate MatchesValidRepoName(s: string)
  {
    |s| >= 1 && s[0] == '@' && RepoNameCharsFrom(s, 1)
  }

  /** Returns None on success, the reason the name is rejected otherwise. */
  function Validate(name: string): (r: Option<string>)
    ensures r.Some? ==> name != "" && name != "@"
  {
    if name == "" || name == "@" then None
    else if name[0] != '@' then Some(MustStartWithAt)
    else if name == "@." then Some(MustNotBeDot)
    else if name == "@.." then Some(MustNotBeDotDot)
    else if !MatchesValidRepoName(name) then Some(DisallowedCharacter)
    else None
  }

  /** The set of accepted strings, stated without the scan. */
  lemma ValidateAcceptsExactly(s: string)
    ensures Validate(s) == None <==>
      || s == ""
      || s == "@"
      || (&& |s| >= 2 && s[0] == '@' && s != "@." && s != "@.."
          && forall i | 1 <= i < |s| :: IsRepoNameChar(s[i]))
  {
    RepoNameCharsFromIff(s, 1);
  }

  /** Which reason each rejected string gets: the checks run in a fixed order. */
  lemma ValidateReasons(s: string)
    ensures Validate(s) == Some(MustStartWithAt) <==> s != "" && s[0] != '@'
    ensures Validate(s) == Some(MustNotBeDot) <==> s == "@."
    ensures Validate(s) == Some(MustNotBeDotDot) <==> s == "@.."
    ensures Validate(s) == Some(DisallowedCharacter) <==>
      && |s| >= 2 && s[0] == '@' && s != "@." && s != "@.."
      && exists i | 1 <= i < |s| :: !IsRepoNameChar(s[i])
  {
    ValidateAcceptsExactly(s);
  }

  /** Concrete cases: the two reserved dot forms are refused, longer dotted names are not. */
  lemma ValidateExamples()
    ensures Validate("@...") == None && Validate("@a.b") == None && Validate("@a..") == None
    ensures Validate("@foo-bar_1.2") == None
    ensures Validate("@.") == Some(MustNotBeDot) && Validate("@..") == Some(MustNotBeDotDot)
    ensures Validate("foo") == Some(MustStartWithAt)
    ensures Validate("@foo/bar") == Some(DisallowedCharacter)
  {
  }

  // ---------------------------------------------------------------------
  // The name value
  // ---------------------------------------------------------------------

  /**
   * A repository name: `name` is "" (default), "@" (main) or "@" followed by
   * allowed characters; `ownerRepoIfNotVisible` is present when this value
   * stands for a name that is not visible from that owner repository.
   */
  datatype RepositoryName = RepositoryName(name: string, ownerRepoIfNotVisible: Option<string>)
  {
    /** Every name the factory hands out has a name string the validator accepts. */
    predicate WellFormed()
    {
      Validate(name) == None
    }

    /** The name without its leading '@'; "" for the default repository. */
    function StrippedName(): (r: string)
      ensures name == "" ==> r == ""
      ensures name != "" ==> [name[0]] + r == name
    {
      if name == "" then name else name[1..]
    }

    /** A copy of this name tagged as not visible from `ownerRepo`; the receiver is a value and stays as it is. */
    function ToNonVisible(ownerRepo: string): (r: RepositoryName)
      ensures r.GetName() == GetName() && !r.IsVisible()
      ensures r.GetOwnerRepoIfNotVisible() == Some(ownerRepo)
    {
      RepositoryName(name, Some(ownerRepo))
    }

    predicate IsVisible()
    {
      ownerRepoIfNotVisible.None?
    }

    function GetOwnerRepoIfNotVisible(): Option<string>
    {
      ownerRepoIfNotVisible
    }

    predicate IsDefault()
    {
      name == ""
    }

    predicate IsMain()
    {
      name == "@"
    }

    function GetName(): string
    {
      name
    }

    /** The name, except that the main repository is reported as the default one. */
    function GetCanonicalForm(): (r: string)
      ensures r == "" <==> IsDefault() || IsMain()
      ensures !IsMain() ==> r == GetName()
    {
      if IsMain() then "" else name
    }

    /** The exec-root path of the repository: empty for default and main, else prefix/stripped. */
    function GetExecPath(prefixes: LayoutPrefixes, siblingRepositoryLayout: bool): (p: Path)
      ensures IsDefault() || IsMain() ==> p == []
      ensures !IsDefault() && !IsMain() ==> |p| == 2 && p[0] == Prefix(prefixes, siblingRepositoryLayout)
      ensures !IsDefault() && !IsMain() ==> [name[0]] + p[1] == name
    {
      if IsDefault() || IsMain() then []
      else [Prefix(prefixes, siblingRepositoryLayout)] + [StrippedName()]
    }

    /** The runfiles path relative to the main repository: empty for default and main, else ../stripped. */
    function GetRunfilesPath(): (p: Path)
      ensures IsDefault() || IsMain() ==> p == []
      ensures !IsDefault() && !IsMain() ==> |p| == 2 && p[0] == ".."
      ensures !IsDefault() && !IsMain() ==> [name[0]] + p[1] == name
    {
      if IsDefault() || IsMain() then [] else [".."] + [StrippedName()]
    }

    /** Field-by-field comparison of name and owner, which is value equality. */
    predicate Equals(other: RepositoryName)
      ensures Equals(other) <==> this == other
    {
      name == other.name && ownerRepoIfNotVisible == other.ownerRepoIfNotVisible
    }
  }

  const DEFAULT: RepositoryName := RepositoryName(DEFAULT_REPOSITORY, None)
  const BAZEL_TOOLS: RepositoryName := RepositoryName("@bazel_tools", None)
  const LOCAL_CONFIG_PLATFORM: RepositoryName := RepositoryName("@local_config_platform", None)
  const MAIN: RepositoryName := RepositoryName("@", None)

  /** The pre-built constants are well-formed, visible names, and only DEFAULT and MAIN are sentinels. */
  lemma ConstantsWellFormed()
    ensures DEFAULT.WellFormed() && DEFAULT.IsVisible() && DEFAULT.IsDefault()
    ensures MAIN.WellFormed() && MAIN.IsVisible() && MAIN.IsMain()
    ensures BAZEL_TOOLS.WellFormed() && BAZEL_TOOLS.IsVisible() && !BAZEL_TOOLS.IsDefault() && !BAZEL_TOOLS.IsMain()
    ensures LOCAL_CONFIG_PLATFORM.WellFormed() && LOCAL_CONFIG_PLATFORM.IsVisible()
    ensures !LOCAL_CONFIG_PLATFORM.IsDefault() && !LOCAL_CONFIG_PLATFORM.IsMain()
  {
    var local := LOCAL_CONFIG_PLATFORM.name;
    assert RepoNameCharsFrom(local, 16);
    assert RepoNameCharsFrom(local, 11);
    assert RepoNameCharsFrom(local, 6);
    assert RepoNameCharsFrom(local, 1);
  }

  /** Removes one leading '@' if there is one, and is the identity otherwise. */
  function StripName(repoName: string): (r: string)
    ensures |repoName| > 0 && repoName[0] == '@' ==> "@" + r == repoName
    ensures !(|repoName| > 0 && repoName[0] == '@') ==> r == repoName
  {
    if |repoName| > 0 && repoName[0] == '@' then repoName[1..] else repoName
  }

  // ---------------------------------------------------------------------
  // Properties of the value operations
  // ---------------------------------------------------------------------

  /** For every well-formed name but DEFAULT, putting '@' back in front of the stripped name gives the name. */
  lemma StrippedNameRestoresName(n: RepositoryName)
    requires n.WellFormed()
    ensures n.IsDefault() ==> n.StrippedName() == ""
    ensures !n.IsDefault() ==> "@" + n.StrippedName() == n.GetName()
    ensures StripName(n.GetName()) == n.StrippedName()
  {
  }

  /**
   * The stripped name of a well-formed name other than DEFAULT and MAIN is a
   * plain path segment: not empty, not "." or "..", and free of '/'. This is
   * what the refusal of "@." and "@.." buys.
   */
  lemma StrippedNameIsPlainSegment(n: RepositoryName)
    requires n.WellFormed() && !n.IsDefault() && !n.IsMain()
    ensures n.StrippedName() != "" && n.StrippedName() != "." && n.StrippedName() != ".."
    ensures '/' !in n.StrippedName()
  {
    var s := n.StrippedName();
    ValidateAcceptsExactly(n.name);
    forall i | 0 <= i < |s| ensures s[i] != '/' {
      assert s[i] == n.name[i + 1];
    }
  }

  /**
   * MAIN and DEFAULT share their canonical form while only MAIN is main; apart
   * from that pair, well-formed names with equal canonical forms have equal names.
   */
  lemma CanonicalFormConflatesOnlyMainAndDefault(a: RepositoryName, b: RepositoryName)
    requires a.WellFormed() && b.WellFormed()
    ensures MAIN.GetCanonicalForm() == DEFAULT.GetCanonicalForm() == ""
    ensures MAIN.IsMain() && !DEFAULT.IsMain() && !MAIN.IsDefault() && DEFAULT.IsDefault()
    ensures a.GetCanonicalForm() == b.GetCanonicalForm() <==>
      a.GetName() == b.GetName() || ((a.IsDefault() || a.IsMain()) && (b.IsDefault() || b.IsMain()))
  {
  }

  /**
   * Tagging keeps the name string and the derived paths, records the owner,
   * and makes the result unequal to every visible name.
   */
  lemma ToNonVisibleTagsOwner(n: RepositoryName, ownerRepo: string, m: RepositoryName, prefixes: LayoutPrefixes, sibling: bool)
    requires m.IsVisible()
    ensures n.WellFormed() ==> n.ToNonVisible(ownerRepo).WellFormed()
    ensures n.ToNonVisible(ownerRepo).GetExecPath(prefixes, sibling) == n.GetExecPath(prefixes, sibling)
    ensures n.ToNonVisible(ownerRepo).GetRunfilesPath() == n.GetRunfilesPath()
    ensures n.ToNonVisible(ownerRepo).GetCanonicalForm() == n.GetCanonicalForm()
    ensures !n.ToNonVisible(ownerRepo).Equals(m)
    ensures n.ToNonVisible(ownerRepo).ToNonVisible(ownerRepo) == n.ToNonVisible(ownerRepo)
  {
  }

  /** Among well-formed names other than DEFAULT and MAIN, the exec path determines the name string. */
  lemma ExecPathDeterminesName(a: RepositoryName, b: RepositoryName, prefixes: LayoutPrefixes, sibling: bool)
    requires a.WellFormed() && b.WellFormed()
    requires !a.IsDefault() && !a.IsMain() && !b.IsDefault() && !b.IsMain()
    ensures a.GetExecPath(prefixes, sibling) == b.GetExecPath(prefixes, sibling) <==> a.GetName() == b.GetName()
  {
  }

  /** Among well-formed names other than DEFAULT and MAIN, the runfiles path determines the name string. */
  lemma RunfilesPathDeterminesName(a: RepositoryName, b: RepositoryName)
    requires a.WellFormed() && b.WellFormed()
    requires !a.IsDefault() && !a.IsMain() && !b.IsDefault() && !b.IsMain()
    ensures a.GetRunfilesPath() == b.GetRunfilesPath() <==> a.GetName() == b.GetName()
    ensures "@" + a.GetRunfilesPath()[1] == a.GetName()
  {
  }

  // ---------------------------------------------------------------------
  // The validating factory, as functions of the input
  // ---------------------------------------------------------------------

  /** The message of the syntax error the loader throws. */
  function InvalidNameMessage(sanitized: string, reason: string): string
  {
    "invalid repository name '" + sanitized + "': " + reason
  }

  /**
   * What the cache's loader produces for a key it does not hold: a fresh
   * visible name when the key validates, the syntax error otherwise.
   */
  function Load(name: string, sanitize: string -> string): (r: Result<RepositoryName>)
    ensures r.Success? <==> Validate(name) == None
    ensures r.Success? ==> r.value == RepositoryName(name, None)
    ensures r.Failure? ==> r.error == InvalidNameMessage(sanitize(name), Validate(name).value)
  {
    match Validate(name)
    case Some(reason) => Failure(InvalidNameMessage(sanitize(name), reason))
    case None => Success(RepositoryName(name, None))
  }

  /**
   * What `create` returns: DEFAULT and MAIN for the two sentinels, the
   * loader's result for every other string.
   */
  function Create(name: string, sanitize: string -> string): (r: Result<RepositoryName>)
    ensures name == "" ==> r == Success(DEFAULT)
    ensures name == "@" ==> r == Success(MAIN)
    ensures r.Success? <==> Validate(name) == None
    ensures r.Success? ==> r.value.GetName() == name && r.value.IsVisible() && r.value.WellFormed()
    ensures r.Failure? ==> r.error == InvalidNameMessage(sanitize(name), Validate(name).value)
  {
    if name == "" then Success(DEFAULT)
    else if name == "@" then Success(MAIN)
    else Load(name, sanitize)
  }

  /**
   * Decoding of a path made by GetExecPath: None unless the path has two or
   * more segments, starts with the layout's prefix and its second segment,
   * after '@', is a valid name.
   */
  function FromPathFragment(path: Path, prefixes: LayoutPrefixes, siblingRepositoryLayout: bool,
                            sanitize: string -> string): (r: Option<(RepositoryName, Path)>)
    ensures r.Some? <==>
      |path| >= 2 && path[0] == Prefix(prefixes, siblingRepositoryLayout) && Validate("@" + path[1]) == None
    ensures r.Some? ==>
      && r.value.0.GetName() == "@" + path[1] && r.value.0.IsVisible()
      && r.value.1 == path[2..]
  {
    if |path| < 2 then None
    else if path[0] != Prefix(prefixes, siblingRepositoryLayout) then None
    else
      match Create("@" + path[1], sanitize)
      case Success(repoName) => Some((repoName, path[2..]))
      case Failure(_) => None
  }

  /** Decoding the exec path of a visible, well-formed, non-sentinel name, followed by anything, gives back the name and the rest. */
  lemma ExecPathRoundTrip(n: RepositoryName, prefixes: LayoutPrefixes, sibling: bool, rest: Path,
                          sanitize: string -> string)
    requires n.WellFormed() && n.IsVisible() && !n.IsDefault() && !n.IsMain()
    ensures FromPathFragment(n.GetExecPath(prefixes, sibling) + rest, prefixes, sibling, sanitize) == Some((n, rest))
  {
  }
}
