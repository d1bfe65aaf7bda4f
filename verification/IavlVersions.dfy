/** Which versions of a tree survive pruning, over any run of commits. */
module IavlVersions {
  import opened Bytes
  import opened OrderedMap

  /** The versions that `n` commits leave behind: the last, the `recent` before
      it, and every multiple of `every`. */
  ghost function Kept(n: nat, recent: nat, every: nat): set<nat> {
    set v: nat | 1 <= v <= n && (v >= n - recent || (every > 0 && v % every == 0))
  }

  /** One more commit saves one version and lets go of at most one. */
  lemma KeptNext(n: nat, recent: nat, every: nat)
    ensures var lost := if recent < n && (every == 0 || (n - recent) % every != 0) then {n - recent} else {};
            Kept(n + 1, recent, every) == Kept(n, recent, every) + {n + 1} - lost
  {
  }

  /** Pruning keeps the last version and, whenever anything recent is kept, the one before. */
  lemma KeptRecent(n: nat, recent: nat, every: nat)
    requires n >= 1
    ensures n in Kept(n, recent, every)
    ensures n >= 2 && recent >= 1 ==> n - 1 in Kept(n, recent, every)
  {
  }

  datatype DeleteError = BadVersion | LatestVersion | NoSuchVersion

  predicate IsFatal(e: Option<DeleteError>) {
    e.Some? && e.value != NoSuchVersion
  }

  /** The mutable tree: a working map, and the saved versions of it. */
  class VersionedTree {
    var working: OrderedMap.Store
    var version: nat
    var saved: map<nat, OrderedMap.Store>

    constructor ()
      ensures working == map[] && version == 0 && saved == map[]
    {
      working, version, saved := map[], 0, map[];
    }

    method SaveVersion() returns (v: nat)
      modifies this`version, this`saved
      ensures v == version == old(version) + 1 && saved == old(saved)[v := working]
    {
      version := version + 1;
      saved := saved[version := working];
      v := version;
    }

    method DeleteVersion(v: int) returns (e: Option<DeleteError>)
      modifies this`saved
      ensures e == if v <= 0 then Some(BadVersion) else if v == version then Some(LatestVersion)
                   else if v !in old(saved) then Some(NoSuchVersion) else None
      ensures saved == if e.None? then old(saved) - {v} else old(saved)
    {
      if v <= 0 { return Some(BadVersion); }
      if v == version { return Some(LatestVersion); }
      if v !in saved { return Some(NoSuchVersion); }
      saved := saved - {v};
      e := None;
    }
  }

  /** `iavl.Store`, with the contents of all its commits as history. */
  class Store {
    const tree: VersionedTree
    const numRecent: nat
    const storeEvery: nat
    ghost var history: seq<OrderedMap.Store>

    constructor (recent: nat, every: nat)
      ensures Inv() && history == [] && numRecent == recent && storeEvery == every && fresh(tree)
    {
      tree := new VersionedTree();
      numRecent, storeEvery, history := recent, every, [];
    }

    /** The saved versions are exactly those pruning keeps, each with the content
        it was committed with. */
    ghost predicate Inv()
      reads this, tree
    {
      && tree.version == |history|
      && tree.saved.Keys == Kept(|history|, numRecent, storeEvery)
      && forall v :: v in tree.saved ==> tree.saved[v] == history[v - 1]
    }

    /** No commit panics, for any pruning options. */
    method Commit() returns (r: Outcome<nat>)
      requires Inv()
      modifies this`history, tree`version, tree`saved
      ensures Inv() && history == old(history) + [tree.working] && r == Ok(|history|)
    {
      KeptNext(|history|, numRecent, storeEvery);
      var version := tree.SaveVersion();
      history := history + [tree.working];
      var previous := version - 1;
      if numRecent < previous {
        var toRelease := previous - numRecent;
        if storeEvery == 0 || toRelease % storeEvery != 0 {
          var e := tree.DeleteVersion(toRelease);
          if IsFatal(e) { return Panic; }
        }
      }
      r := Ok(version);
    }

    /** Any run of commits: each content given is put in the tree and committed. */
    method Commits(contents: seq<OrderedMap.Store>) returns (r: Outcome<()>)
      requires Inv()
      modifies this`history, tree
      ensures Inv() && history == old(history) + contents && r == Ok(())
    {
      for i := 0 to |contents|
        invariant Inv() && history == old(history) + contents[..i]
      {
        tree.working := contents[i];
        var _ := Commit();
      }
      r := Ok(());
    }

    method VersionExists(v: int) returns (r: bool)
      requires Inv()
      ensures r <==> v in Kept(|history|, numRecent, storeEvery)
    {
      r := v >= 0 && v in tree.saved;
    }

    /** A read-only view of a past version, if pruning left it. */
    method GetImmutable(v: int) returns (m: Option<OrderedMap.Store>)
      requires Inv()
      ensures m == if v in Kept(|history|, numRecent, storeEvery) then Some(history[v - 1]) else None
    {
      var there := VersionExists(v);
      m := if there then Some(tree.saved[v]) else None;
    }

    /** The height a query reads at.  Height zero means the version before the
        last, or the last where that one is pruned: after a first commit it always
        names a stored version. */
    method GetHeight(requested: int) returns (h: int)
      requires Inv()
      ensures requested != 0 ==> h == requested
      ensures requested == 0 && history != [] ==>
                && h in Kept(|history|, numRecent, storeEvery) && |history| - 1 <= h
                && (h == |history| <==> |history| - 1 !in Kept(|history|, numRecent, storeEvery))
    {
      h := requested;
      if h == 0 {
        var there := VersionExists(tree.version - 1);
        h := if there then tree.version - 1 else tree.version;
        if history != [] { KeptRecent(|history|, numRecent, storeEvery); }
      }
    }
  }
}
