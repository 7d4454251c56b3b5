/** Which indexers a performance run leaves out: an excluded indexer takes everything that depends on
    it along (crates/cli/src/index_perf_cmd.rs). */
module Exclusions {
  import opened Sequences
  import opened Strings

  datatype Server = Server(name: string, dependsOn: seq<string>)

  predicate DependsOnAny(server: Server, names: seq<string>) {
    exists dep :: dep in server.dependsOn && dep in names
  }

  /** Whatever depends on an excluded name is excluded. */
  ghost predicate Closed(servers: seq<Server>, excluded: set<string>) {
    forall s :: s in servers && (exists dep :: dep in s.dependsOn && dep in excluded) ==> s.name in excluded
  }

  /** The smallest closed set that contains the base names. */
  ghost predicate IsLeastExclusion(servers: seq<Server>, base: seq<string>, excluded: set<string>) {
    && (forall n :: n in base ==> n in excluded)
    && Closed(servers, excluded)
    && forall other: set<string> :: (forall n :: n in base ==> n in other) && Closed(servers, other) ==>
         excluded <= other
  }

  ghost function Elements(xs: seq<string>): set<string> { set x | x in xs }

  ghost function Names(servers: seq<Server>): set<string> { set s | s in servers :: s.name }

  /** Everything found so far is in every closed set above the base. */
  ghost predicate Justified(servers: seq<Server>, base: seq<string>, excluded: seq<string>) {
    && (forall n :: n in base ==> n in excluded)
    && forall other: set<string> :: (forall n :: n in base ==> n in other) && Closed(servers, other) ==>
         Elements(excluded) <= other
  }

  method ExpandedExclusions(servers: seq<Server>, base: seq<string>) returns (result: seq<string>)
    ensures Canonical(result) && IsLeastExclusion(servers, base, Elements(result))
  {
    var excluded := base;
    while true
      invariant Justified(servers, base, excluded)
      decreases |Names(servers) - Elements(excluded)|
    {
      ghost var before := excluded;
      var changed := false;
      for i := 0 to |servers|
        invariant Justified(servers, base, excluded) && Elements(before) <= Elements(excluded)
        invariant changed ==> exists s :: s in servers && s.name in excluded && s.name !in before
        invariant !changed ==> excluded == before
        invariant !changed ==>
          forall k :: 0 <= k < i && DependsOnAny(servers[k], excluded) ==> servers[k].name in excluded
      {
        var server := servers[i];
        if server.name in excluded { continue; }
        if exists dep :: dep in server.dependsOn && dep in excluded {
          JustifiedStep(servers, base, excluded, server);
          excluded := excluded + [server.name];
          changed := true;
        }
      }
      if !changed {
        LeastWhenStable(servers, base, excluded);
        break;
      }
      Progress(servers, before, excluded);
    }
    SortDedupCanonical(excluded);
    result := SortDedup(excluded);
    assert Elements(result) == Elements(excluded);
  }

  lemma JustifiedStep(servers: seq<Server>, base: seq<string>, excluded: seq<string>, server: Server)
    requires Justified(servers, base, excluded) && server in servers && DependsOnAny(server, excluded)
    ensures Justified(servers, base, excluded + [server.name])
  {
    var dep :| dep in server.dependsOn && dep in excluded;
    forall other: set<string> | (forall n :: n in base ==> n in other) && Closed(servers, other)
      ensures Elements(excluded + [server.name]) <= other
    {
      assert dep in Elements(excluded);
    }
  }

  lemma LeastWhenStable(servers: seq<Server>, base: seq<string>, excluded: seq<string>)
    requires Justified(servers, base, excluded)
    requires forall k :: 0 <= k < |servers| && DependsOnAny(servers[k], excluded) ==> servers[k].name in excluded
    ensures IsLeastExclusion(servers, base, Elements(excluded))
  {
    forall s | s in servers && (exists dep :: dep in s.dependsOn && dep in Elements(excluded))
      ensures s.name in Elements(excluded)
    {
      var dep :| dep in s.dependsOn && dep in Elements(excluded);
      assert DependsOnAny(s, excluded);
    }
  }

  lemma Progress(servers: seq<Server>, before: seq<string>, after: seq<string>)
    requires Elements(before) <= Elements(after)
    requires exists s :: s in servers && s.name in after && s.name !in before
    ensures |Names(servers) - Elements(after)| < |Names(servers) - Elements(before)|
  {
    var s :| s in servers && s.name in after && s.name !in before;
    var small, big := Names(servers) - Elements(after), Names(servers) - Elements(before);
    assert s.name in big && s.name !in small;
    SmallerSet(small, big - {s.name});
  }

  lemma SmallerSet(a: set<string>, b: set<string>)
    requires a <= b
    ensures |a| <= |b|
  {
    assert a + (b - a) == b;
  }

  /** The result depends only on which servers and base names there are, not on their order. */
  lemma OrderDoesNotMatter(servers: seq<Server>, base: seq<string>, a: seq<string>,
                           servers': seq<Server>, base': seq<string>, b: seq<string>)
    requires (forall s :: s in servers <==> s in servers') && (forall n :: n in base <==> n in base')
    requires Canonical(a) && IsLeastExclusion(servers, base, Elements(a))
    requires Canonical(b) && IsLeastExclusion(servers', base', Elements(b))
    ensures a == b
  {
    assert Closed(servers, Elements(b)) && Closed(servers', Elements(a));
    assert Elements(a) == Elements(b);
    forall x ensures x in a <==> x in b { assert x in Elements(a) <==> x in Elements(b); }
    CanonicalUnique(a, b);
  }

  // ---------------------------------------------------------------- dependency paths

  /** A server of this name lists that dependency. */
  ghost predicate Depends(servers: seq<Server>, name: string, dep: string) {
    exists s :: s in servers && s.name == name && dep in s.dependsOn
  }

  ghost predicate IsPath(servers: seq<Server>, path: seq<string>) {
    path != [] && forall i :: 0 <= i < |path| - 1 ==> Depends(servers, path[i], path[i+1])
  }

  /** Following dependencies leads from the name to one of these, possibly in no step. */
  ghost predicate Reaches(servers: seq<Server>, name: string, targets: seq<string>) {
    exists path :: IsPath(servers, path) && path[0] == name && path[|path|-1] in targets
  }

  lemma {:induction false} PathStaysExcluded(servers: seq<Server>, excluded: set<string>, path: seq<string>)
    requires Closed(servers, excluded) && IsPath(servers, path) && path[|path|-1] in excluded
    ensures path[0] in excluded
    decreases |path|
  {
    if |path| > 1 {
      assert Depends(servers, path[0], path[1]);
      assert IsPath(servers, path[1..]) by {
        forall i | 0 <= i < |path[1..]| - 1 ensures Depends(servers, path[1..][i], path[1..][i+1]) {
          assert Depends(servers, path[i+1], path[i+2]);
        }
      }
      PathStaysExcluded(servers, excluded, path[1..]);
    }
  }

  lemma ReachesStep(servers: seq<Server>, base: seq<string>, s: Server, dep: string)
    requires s in servers && dep in s.dependsOn && Reaches(servers, dep, base)
    ensures Reaches(servers, s.name, base)
  {
    var path :| IsPath(servers, path) && path[0] == dep && path[|path|-1] in base;
    var longer := [s.name] + path;
    assert Depends(servers, s.name, dep);
    forall i | 0 <= i < |longer| - 1 ensures Depends(servers, longer[i], longer[i+1]) {
      if i > 0 { assert Depends(servers, path[i-1], path[i]); }
    }
    assert IsPath(servers, longer) && longer[0] == s.name && longer[|longer|-1] in base;
  }

  /** The least exclusion is exactly the names from which dependencies lead to a base name. */
  lemma ExcludedMeansReaching(servers: seq<Server>, base: seq<string>, excluded: set<string>, name: string)
    requires IsLeastExclusion(servers, base, excluded)
    ensures name in excluded <==> Reaches(servers, name, base)
  {
    if Reaches(servers, name, base) {
      var path :| IsPath(servers, path) && path[0] == name && path[|path|-1] in base;
      PathStaysExcluded(servers, excluded, path);
    }
    var reaching := set n | n in excluded && Reaches(servers, n, base);
    forall n | n in base ensures n in reaching { assert IsPath(servers, [n]); }
    forall s | s in servers && (exists dep :: dep in s.dependsOn && dep in reaching) ensures s.name in reaching {
      var dep :| dep in s.dependsOn && dep in reaching;
      ReachesStep(servers, base, s, dep);
    }
    assert excluded <= reaching;
  }

  // ---------------------------------------------------------------- select_indexers

  const WHISPER := "whisper"

  function DefaultExclusions(excluded: seq<string>, includeWhisper: bool): seq<string> {
    SortDedup(if !includeWhisper && WHISPER !in excluded then excluded + [WHISPER] else excluded)
  }

  /** The servers considered: those asked for, or all. */
  function Considered(servers: seq<Server>, requested: seq<string>): seq<Server> {
    if requested == [] then servers else Filter(servers, (s: Server) => s.name in requested)
  }

  lemma ConsideredExactly(servers: seq<Server>, requested: seq<string>)
    ensures requested == [] ==> Considered(servers, requested) == servers
    ensures requested != [] ==> Considered(servers, requested) == Filter(servers, (s: Server) => s.name in requested)
    ensures forall s :: s in Considered(servers, requested) <==>
      s in servers && (requested == [] || s.name in requested)
  {}

  datatype Selection = Selected(servers: seq<Server>) | NoneConfigured | NoneLeft

  /** A considered server is selected exactly when no chain of dependencies among the considered
      servers leads from it to an excluded indexer (or to whisper, unless that is included). */
  method SelectIndexers(servers: seq<Server>, requested: seq<string>, excluded: seq<string>, includeWhisper: bool)
    returns (selection: Selection, ghost exclusions: seq<string>)
    ensures selection.NoneConfigured? <==> servers == []
    ensures servers != [] ==>
      && Canonical(exclusions)
      && IsLeastExclusion(Considered(servers, requested), DefaultExclusions(excluded, includeWhisper),
                          Elements(exclusions))
    ensures selection.Selected? ==>
      selection.servers == Filter(Considered(servers, requested), (s: Server) => s.name !in exclusions)
    ensures var considered := Considered(servers, requested);
      var targets := if includeWhisper then excluded else excluded + ["whisper"];
      && (forall s :: s in considered <==> s in servers && (requested == [] || s.name in requested))
      && (selection.Selected? ==> selection.servers != [] && forall s ::
            s in selection.servers <==> s in considered && !Reaches(considered, s.name, targets))
      && (selection.NoneLeft? ==> forall s :: s in considered ==> Reaches(considered, s.name, targets))
  {
    ConsideredExactly(servers, requested);
    if servers == [] { return NoneConfigured, []; }
    var considered := Considered(servers, requested);
    var base := DefaultExclusions(excluded, includeWhisper);
    var expanded := ExpandedExclusions(considered, base);
    exclusions := expanded;
    ghost var targets := if includeWhisper then excluded else excluded + [WHISPER];
    forall n ensures n in exclusions <==> Reaches(considered, n, targets) {
      SortDedupCanonical(if !includeWhisper && WHISPER !in excluded then excluded + [WHISPER] else excluded);
      assert forall t :: t in base <==> t in targets;
      SameTargets(considered, n, base, targets);
      ExcludedMeansReaching(considered, base, Elements(exclusions), n);
      assert n in exclusions <==> n in Elements(exclusions);
    }
    var left := Filter(considered, (s: Server) => s.name !in expanded);
    if left == [] {
      forall s | s in considered ensures Reaches(considered, s.name, targets) {
        assert s.name !in exclusions ==> s in left;
      }
      return NoneLeft, expanded;
    }
    return Selected(left), expanded;
  }

  lemma SameTargets(servers: seq<Server>, name: string, a: seq<string>, b: seq<string>)
    requires forall t :: t in a <==> t in b
    ensures Reaches(servers, name, a) <==> Reaches(servers, name, b)
  {}
}
