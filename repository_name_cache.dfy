/**
 * The deduplicating cache through which every repository name other than
 * the two sentinels is created. It is a process-wide static in the Java
 * class; here it is an object whose `entries` map the methods extend.
 */
module RepositoryNameCache {
  import opened Wrappers
  import opened RepositoryNames

  class NameCache {
    /** The cached names, keyed by the raw string they were created from. */
    var entries: map<string, RepositoryName>
    /** The control-character sanitizer used in error messages. */
    const sanitize: string -> string

    /**
     * Every entry is keyed by its own name, carries no owner, and its key
     * passes the validator.
     */
    ghost predicate Valid()
      reads this
    {
      forall key | key in entries :: entries[key] == RepositoryName(key, None) && Validate(key) == None
    }

    constructor (sanitize: string -> string)
      ensures Valid() && entries == map[] && this.sanitize == sanitize
    {
      entries := map[];
      this.sanitize := sanitize;
    }

    /**
     * A cache lookup: a held entry is returned as it is; a missing key goes
     * through the loader, which validates it and stores a new name, or
     * fails and stores nothing.
     */
    method Get(name: string) returns (r: Result<RepositoryName>)
      requires Valid()
      modifies this
      ensures Valid()
      ensures r == Load(name, sanitize)
      ensures entries == if r.Success? then old(entries)[name := r.value] else old(entries)
    {
      if name in entries {
        r := Success(entries[name]);
      } else {
        var reason := Validate(name);
        if reason.Some? {
          r := Failure(InvalidNameMessage(sanitize(name), reason.value));
        } else {
          r := Success(RepositoryName(name, None));
          entries := entries[name := r.value];
        }
      }
    }

    /**
     * The validating factory: DEFAULT and MAIN for "" and "@" without
     * touching the cache, the cache's answer for every other string.
     */
    method Create(name: string) returns (r: Result<RepositoryName>)
      requires Valid()
      modifies this
      ensures Valid()
      ensures r == RepositoryNames.Create(name, sanitize)
      ensures entries ==
        if name == "" || name == "@" || r.Failure? then old(entries) else old(entries)[name := r.value]
    {
      if name == "" {
        return Success(DEFAULT);
      }
      if name == "@" {
        return Success(MAIN);
      }
      r := Get(name);
    }

    /**
     * Creates a name from a stripped name the caller knows to be valid. The
     * '@' is put back and the result goes through the same validating
     * loader, so "" gives a cached copy equal to MAIN, not MAIN itself.
     */
    method CreateFromValidStrippedName(name: string) returns (r: RepositoryName)
      requires Valid()
      requires Validate("@" + name) == None
      modifies this
      ensures Valid()
      ensures r == RepositoryName("@" + name, None) && r.StrippedName() == name
      ensures entries == old(entries)["@" + name := r]
    {
      var loaded := Get("@" + name);
      r := loaded.value;
    }

    /**
     * Extracts the repository name and the rest of a path made by
     * GetExecPath; None when the path is too short, has the wrong prefix or
     * names an invalid repository.
     */
    method FromPathFragment(path: Path, prefixes: LayoutPrefixes, siblingRepositoryLayout: bool)
      returns (r: Option<(RepositoryName, Path)>)
      requires Valid()
      modifies this
      ensures Valid()
      ensures r == RepositoryNames.FromPathFragment(path, prefixes, siblingRepositoryLayout, sanitize)
      ensures r.None? || r.value.0.IsMain() ==> entries == old(entries)
      ensures r.Some? && !r.value.0.IsMain() ==> entries == old(entries)[r.value.0.GetName() := r.value.0]
    {
      if |path| < 2 {
        return None;
      }
      if path[0] != Prefix(prefixes, siblingRepositoryLayout) {
        return None;
      }
      var created := Create("@" + path[1]);
      match created
      case Success(repoName) =>
        r := Some((repoName, path[2..]));
      case Failure(_) =>
        r := None;
    }
  }
}
