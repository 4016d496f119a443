/** The module an import belongs to: the longest known path it extends (lingcli/lingbase_versions.go). */
module ModulePaths {
  import S = Strings

  predicate Matches(imp: string, path: string) {
    imp == path || S.HasPrefix(imp, path + "/")
  }

  /** The longest known path that the import extends; empty when there is none. */
  ghost predicate IsBest(imp: string, paths: set<string>, best: string) {
    && (best != "" ==> best in paths && Matches(imp, best))
    && forall p :: p in paths && Matches(imp, p) ==> |p| <= |best|
  }

  /** Reads the known paths in any order, as a Go map yields them. */
  method BestMatch(imp: string, paths: set<string>) returns (best: string)
    ensures IsBest(imp, paths, best)
  {
    best := "";
    var rest := paths;
    while rest != {}
      invariant rest <= paths && IsBest(imp, paths - rest, best)
      decreases |rest|
    {
      var path :| path in rest;
      if Matches(imp, path) && |path| > |best| {
        best := path;
      }
      rest := rest - {path};
    }
    assert paths - rest == paths;
  }

  /** An import extends a path that it equals, or that it continues after a slash. */
  lemma {:induction false} MatchesIff(imp: string, path: string)
    ensures Matches(imp, path) <==> path <= imp && (|imp| == |path| || imp[|path|] == '/')
  {
    var slashed := path + "/";
    if S.HasPrefix(imp, slashed) {
      assert imp[..|path|] == imp[..|slashed|][..|path|] && imp[|path|] == imp[..|slashed|][|path|];
    }
    if path <= imp && |imp| > |path| && imp[|path|] == '/' {
      assert imp[..|slashed|] == slashed;
    }
  }

  /** The order of the paths does not matter: only one answer is best. */
  lemma {:induction false} BestIsUnique(imp: string, paths: set<string>, a: string, b: string)
    requires IsBest(imp, paths, a) && IsBest(imp, paths, b)
    ensures a == b
  {
    if a != "" {
      MatchesIff(imp, a);
    }
    if b != "" {
      MatchesIff(imp, b);
    }
    assert a == imp[..|a|] && b == imp[..|b|];
  }
}
