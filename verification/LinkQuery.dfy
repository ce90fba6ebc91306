/** The traversal of a link store, which may be cyclic. */
module LinkQueries {
  import opened Wrappers

  /** What the store records for each CID: the CIDs its block links to. */
  type LinkStore<!T> = map<T, seq<T>>

  function LinksOf<T>(links: LinkStore<T>, cid: T): seq<T>
  {
    if cid in links then links[cid] else []
  }

  /** A walk along links on which the predicate accepts every CID. */
  ghost predicate AcceptedPath<T(!new)>(links: LinkStore<T>, accepts: T -> Result<bool>, root: T, path: seq<T>)
  {
    && path != [] && path[0] == root
    && (forall i | 0 <= i < |path| :: accepts(path[i]) == Ok(true))
    && forall i | 0 < i < |path| :: path[i] in LinksOf(links, path[i - 1])
  }

  ghost predicate Reachable<T(!new)>(links: LinkStore<T>, accepts: T -> Result<bool>, root: T, cid: T)
  {
    exists path :: AcceptedPath(links, accepts, root, path) && path[|path| - 1] == cid
  }

  /** The predicate is asked about the root and everything a reachable CID links to. */
  ghost predicate Asked<T(!new)>(links: LinkStore<T>, accepts: T -> Result<bool>, root: T, cid: T)
  {
    cid == root || exists c :: Reachable(links, accepts, root, c) && cid in LinksOf(links, c)
  }

  lemma AcceptedIsReachable<T(!new)>(links: LinkStore<T>, accepts: T -> Result<bool>, root: T, cid: T)
    requires Asked(links, accepts, root, cid) && accepts(cid) == Ok(true)
    ensures Reachable(links, accepts, root, cid)
  {
    if cid == root {
      assert AcceptedPath(links, accepts, root, [root]);
      assert [root][|[root]| - 1] == cid;
    } else {
      var c :| Reachable(links, accepts, root, c) && cid in LinksOf(links, c);
      var path :| AcceptedPath(links, accepts, root, path) && path[|path| - 1] == c;
      var longer := path + [cid];
      assert AcceptedPath(links, accepts, root, longer) && longer[|longer| - 1] == cid;
    }
  }

  /** Every CID that can be mentioned at all: finitely many. */
  ghost function Universe<T(!new)>(links: LinkStore<T>, root: T): set<T>
  {
    {root} + links.Keys + set c, i | c in links && 0 <= i < |links[c]| :: links[c][i]
  }

  lemma LinksInUniverse<T(!new)>(links: LinkStore<T>, root: T, cid: T)
    ensures forall x | x in LinksOf(links, cid) :: x in Universe(links, root)
  {}

  /** The state of the traversal. */
  ghost predicate Traversing<T(!new)>(links: LinkStore<T>, accepts: T -> Result<bool>, root: T,
                                      visited: set<T>, remaining: seq<T>, yielded: seq<T>)
  {
    && (forall c | c in visited :: accepts(c).Ok? && (accepts(c) == Ok(true) <==> c in yielded))
    && (forall c | c in yielded :: c in visited && Reachable(links, accepts, root, c))
    && (forall i, j | 0 <= i < j < |yielded| :: yielded[i] != yielded[j])
    && (forall c | c in remaining :: Asked(links, accepts, root, c))
    && (root in visited || root in remaining)
    && (forall c, x | c in yielded && x in LinksOf(links, c) :: x in visited || x in remaining)
  }

  /** A CID that was visited before, or that the predicate rejects, is passed over. */
  lemma PassOver<T(!new)>(links: LinkStore<T>, accepts: T -> Result<bool>, root: T,
                          visited: set<T>, remaining: seq<T>, yielded: seq<T>, cid: T)
    requires Traversing(links, accepts, root, visited, remaining + [cid], yielded)
    requires cid in visited || accepts(cid) == Ok(false)
    ensures Traversing(links, accepts, root, visited + {cid}, remaining, yielded)
  {
    assert forall c | c in remaining :: c in remaining + [cid];
  }

  /** An accepted CID is yielded and its links are queued. */
  lemma Accept<T(!new)>(links: LinkStore<T>, accepts: T -> Result<bool>, root: T,
                        visited: set<T>, remaining: seq<T>, yielded: seq<T>, cid: T)
    requires Traversing(links, accepts, root, visited, remaining + [cid], yielded)
    requires cid !in visited && accepts(cid) == Ok(true)
    ensures Traversing(links, accepts, root, visited + {cid}, remaining + LinksOf(links, cid), yielded + [cid])
  {
    assert cid in remaining + [cid] && forall c | c in remaining :: c in remaining + [cid];
    AcceptedIsReachable(links, accepts, root, cid);
    var queue, out := remaining + LinksOf(links, cid), yielded + [cid];
    forall c | c in queue
      ensures Asked(links, accepts, root, c)
    {}
    forall c, x | c in out && x in LinksOf(links, c)
      ensures x in visited + {cid} || x in queue
    {
      if c in yielded && x !in visited {
        assert x in remaining + [cid];
      }
    }
  }

  /** When nothing remains, every accepted path has been followed to its end. */
  lemma {:induction false} Finished<T(!new)>(links: LinkStore<T>, accepts: T -> Result<bool>, root: T,
                                             visited: set<T>, yielded: seq<T>, path: seq<T>, n: nat)
    requires Traversing(links, accepts, root, visited, [], yielded)
    requires AcceptedPath(links, accepts, root, path) && n < |path|
    ensures path[n] in yielded
    decreases n
  {
    if n > 0 {
      Finished(links, accepts, root, visited, yielded, path, n - 1);
      assert path[n] in LinksOf(links, path[n - 1]);
    }
  }

  lemma Complete<T(!new)>(links: LinkStore<T>, accepts: T -> Result<bool>, root: T, visited: set<T>, yielded: seq<T>)
    requires Traversing(links, accepts, root, visited, [], yielded)
    ensures forall c :: c in yielded <==> Reachable(links, accepts, root, c)
    ensures forall c :: Asked(links, accepts, root, c) ==> accepts(c).Ok?
  {
    forall c | Reachable(links, accepts, root, c)
      ensures c in yielded
    {
      var path :| AcceptedPath(links, accepts, root, path) && path[|path| - 1] == c;
      Finished(links, accepts, root, visited, yielded, path, |path| - 1);
    }
  }

  /** `SphereDb::query_links` on any link store. It fails exactly when the predicate fails
      on a CID it is asked about; otherwise it yields each CID reachable through accepted
      CIDs exactly once. What it yields before a failure are such CIDs too. */
  method QueryLinks<T(!new, ==)>(links: LinkStore<T>, root: T, accepts: T -> Result<bool>)
    returns (yielded: seq<T>, r: Result<()>)
    ensures forall c | c in yielded :: Reachable(links, accepts, root, c)
    ensures forall i, j | 0 <= i < j < |yielded| :: yielded[i] != yielded[j]
    ensures r.Ok? ==> forall c | Reachable(links, accepts, root, c) :: c in yielded
    ensures r.Err? <==> exists c :: Asked(links, accepts, root, c) && accepts(c).Err?
    ensures r.Err? ==> exists c :: Asked(links, accepts, root, c) && accepts(c) == Err(r.error)
  {
    var visited: set<T> := {};
    var remaining := [root];
    yielded := [];
    ghost var all := Universe(links, root);
    while remaining != []
      invariant Traversing(links, accepts, root, visited, remaining, yielded)
      invariant forall c | c in remaining :: c in all
      decreases all - visited, |remaining|
    {
      var cid := remaining[|remaining| - 1];
      assert remaining == remaining[..|remaining| - 1] + [cid];
      remaining := remaining[..|remaining| - 1];
      if cid in visited {
        PassOver(links, accepts, root, visited, remaining, yielded, cid);
        assert visited + {cid} == visited;
        continue;
      }
      var accepted := accepts(cid);
      if accepted.Err? {
        assert cid in remaining + [cid];
        return yielded, Err(accepted.error);
      }
      if accepted.value {
        Accept(links, accepts, root, visited, remaining, yielded, cid);
        LinksInUniverse(links, root, cid);
        remaining := remaining + LinksOf(links, cid);
        yielded := yielded + [cid];
      } else {
        PassOver(links, accepts, root, visited, remaining, yielded, cid);
      }
      visited := visited + {cid};
    }
    Complete(links, accepts, root, visited, yielded);
    return yielded, Ok(());
  }

  /** `SphereDb::stream_links`: everything the root leads to, each CID once. */
  method StreamLinks<T(!new, ==)>(links: LinkStore<T>, root: T) returns (yielded: seq<T>)
    ensures forall c :: c in yielded <==> Reachable(links, (_: T) => Ok(true), root, c)
    ensures forall i, j | 0 <= i < j < |yielded| :: yielded[i] != yielded[j]
  {
    var r;
    yielded, r := QueryLinks(links, root, (_: T) => Ok(true));
    assert r.Ok?;
  }
}
