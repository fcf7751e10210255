/** internal/context/upf.go: the tunnel of a session holds its data paths and the address of
    the access network. Every activated path in it leads to that address. */
module Tunnels {
  import opened DataPaths
  import opened Wrappers

  class UPTunnel {
    var DataPathPool: map<int, DataPath>
    var pathIDs: set<int> // the ids that the path id generator has handed out
    var ANInformation: Option<FTeid>

    constructor ()
      ensures DataPathPool == map[] && pathIDs == {} && ANInformation == None
    {
      DataPathPool, pathIDs, ANInformation := map[], {}, None;
    }

    /** The objects the data paths are made of. */
    ghost function Nodes(): set<DataPathNode>
      reads this
    {
      set p <- DataPathPool.Values, n <- p.Repr :: n
    }

    ghost predicate Valid(cfg: Config)
      reads this, DataPathPool.Values, Nodes()
    {
      Arranged(cfg, ANInformation)
    }

    // The activated paths lead to the given address.
    ghost predicate Arranged(cfg: Config, an: Option<FTeid>)
      reads this, DataPathPool.Values, Nodes()
    {
      && DataPathPool.Keys <= pathIDs && (forall id <- pathIDs :: 1 <= id <= 2147483647)
      && (forall id <- DataPathPool :: PathOk(DataPathPool[id], cfg, an))
      && Apart(DataPathPool)
    }

    // No two paths share a node.
    static ghost predicate Apart(pool: map<int, DataPath>) {
      forall i, j :: i in pool && j in pool && i != j ==> pool[i].Repr !! pool[j].Repr
    }

    // The first node of a path belongs to no other path.
    lemma OwnNode(id: int)
      requires id in DataPathPool && DataPathPool[id].nodes != [] && DataPathPool[id].List()
      requires Apart(DataPathPool)
      ensures forall other <- DataPathPool :: other != id ==> DataPathPool[id].nodes[0] !in DataPathPool[other].Repr
    {
      assert DataPathPool[id].nodes[0] in DataPathPool[id].Repr;
    }

    // False if the id generator is exhausted: the path is then left out with a warning only.
    method AddDataPath(path: DataPath, ghost cfg: Config) returns (added: bool)
      requires Valid(cfg) && PathOk(path, cfg, ANInformation) && path.Repr !! Nodes()
      modifies this`DataPathPool, this`pathIDs, path`PathID
      ensures Valid(cfg) && (added ==> path.PathID !in old(DataPathPool))
      ensures DataPathPool == if added then old(DataPathPool)[path.PathID := path] else old(DataPathPool)
      ensures !added ==> forall id :: 1 <= id <= 2147483647 ==> id in old(pathIDs)
    {
      if id :| 1 <= id <= 2147483647 && id !in pathIDs {
        pathIDs := pathIDs + {id};
        path.PathID := id;
        DataPathPool := DataPathPool[id := path];
        assert path.nodes[0] in path.Repr;
        added := true;
      } else {
        added := false;
      }
    }

    method RemoveDataPath(pathID: int, ghost cfg: Config)
      requires Valid(cfg)
      modifies this`DataPathPool, this`pathIDs
      ensures Valid(cfg) && DataPathPool == old(DataPathPool) - {pathID}
    {
      DataPathPool := DataPathPool - {pathID};
      pathIDs := pathIDs - {pathID};
    }

    // Whether the first node of each path forwards downlink packets.
    ghost function Forwarding(): map<int, bool>
      reads this, DataPathPool.Values, Nodes()
    {
      map id | id in DataPathPool :: DataPathPool[id].Forwards()
    }

    // All paths but those in `todo` have been updated, and forward as given.
    ghost predicate Updated(todo: set<int>, cfg: Config, before: Option<FTeid>, an: FTeid, forw: map<int, bool>)
      reads this, DataPathPool.Values, Nodes()
    {
      forall id <- DataPathPool :: id in forw && DataPathPool[id].Forwards() == forw[id] &&
        if id in todo then PathOk(DataPathPool[id], cfg, before) else PathUpdated(DataPathPool[id], cfg, before, an)
    }

    /** UpdateANInformation: every activated path now leads to the new address. Before it, the
        paths led to `before`. */
    method UpdateANInformation(an: FTeid, ghost cfg: Config, ghost before: Option<FTeid>)
      requires Arranged(cfg, before)
      modifies this`ANInformation, Nodes()
      ensures Valid(cfg) && ANInformation == Some(an) && Nodes() == old(Nodes())
      ensures forall id <- DataPathPool :: PathUpdated(DataPathPool[id], cfg, before, an)
      ensures forall id <- DataPathPool :: DataPathPool[id].Forwards() == old(DataPathPool[id].Forwards())
    {
      ghost var forw := Forwarding();
      ANInformation := Some(an);
      var todo := DataPathPool.Keys;
      while todo != {}
        invariant todo <= DataPathPool.Keys && ANInformation == Some(an)
        invariant Updated(todo, cfg, before, an, forw)
        decreases todo
      {
        var id := AnyOf(todo);
        UpdateOne(id, an, todo, cfg, before, forw);
        todo := todo - {id};
      }
    }

    method UpdateOne(id: int, an: FTeid, ghost todo: set<int>, ghost cfg: Config, ghost before: Option<FTeid>,
                     ghost forw: map<int, bool>)
      requires id in todo && id in DataPathPool && Updated(todo, cfg, before, an, forw)
      requires Apart(DataPathPool)
      modifies DataPathPool[id].Repr
      ensures Updated(todo - {id}, cfg, before, an, forw)
    {
      OwnNode(id);
      UpdatePath(DataPathPool[id], an, cfg, before);
    }

    // All paths but those in `todo` forward downlink packets, for now without a header.
    ghost predicate Resumed(todo: set<int>, cfg: Config, before: Option<FTeid>)
      reads this, DataPathPool.Values, Nodes()
    {
      forall id <- DataPathPool :: PathOk(DataPathPool[id], cfg, if id in todo then before else None)
                                   && (id !in todo && DataPathPool[id].Activated ==> DataPathPool[id].Forwards())
    }

    /** The answer to the resource setup request: every activated path forwards downlink packets
        to the access network's new address, and no end marker is sent. */
    method SetupResponse(an: FTeid, ghost cfg: Config)
      requires Valid(cfg)
      modifies this`ANInformation, Nodes()
      ensures Valid(cfg) && ANInformation == Some(an)
      ensures forall id <- DataPathPool :: PathUpdated(DataPathPool[id], cfg, None, an)
      ensures forall id <- DataPathPool :: DataPathPool[id].Activated ==> DataPathPool[id].Forwards()
    {
      var todo := DataPathPool.Keys;
      while todo != {}
        invariant todo <= DataPathPool.Keys && ANInformation == old(ANInformation)
        invariant Resumed(todo, cfg, old(ANInformation))
        decreases todo
      {
        var id := AnyOf(todo);
        ResumeOne(id, todo, cfg, ANInformation);
        todo := todo - {id};
      }
      UpdateANInformation(an, cfg, None);
    }

    method ResumeOne(id: int, ghost todo: set<int>, ghost cfg: Config, ghost before: Option<FTeid>)
      requires id in todo && id in DataPathPool && Resumed(todo, cfg, before)
      requires Apart(DataPathPool)
      modifies DataPathPool[id].Repr
      ensures Resumed(todo - {id}, cfg, before)
    {
      OwnNode(id);
      ResumePath(DataPathPool[id], cfg, before);
    }
  }

  method ResumePath(p: DataPath, ghost cfg: Config, ghost before: Option<FTeid>)
    requires PathOk(p, cfg, before)
    modifies p.nodes[0]
    ensures PathOk(p, cfg, None) && (p.Activated ==> p.Forwards())
  {
    if p.Activated { p.Resume(cfg, before); }
  }

  method UpdatePath(p: DataPath, an: FTeid, ghost cfg: Config, ghost before: Option<FTeid>)
    requires PathOk(p, cfg, before)
    modifies p.nodes[0]
    ensures PathUpdated(p, cfg, before, an) && p.Forwards() == old(p.Forwards())
  {
    if p.Activated { p.UpdateAN(cfg, before, an); }
  }

  ghost predicate PathUpdated(p: DataPath, cfg: Config, before: Option<FTeid>, an: FTeid)
    reads p, p.Repr
  {
    PathOk(p, cfg, Some(an)) && (p.Activated ==> ReAddressed(p.nodes[0].DownLinkTunnel, before.Some?))
  }

  /** A data path of the pool: a well-formed list of at least one node, which leads to the access
      network once it is activated. */
  ghost predicate PathOk(p: DataPath, cfg: Config, an: Option<FTeid>)
    reads p, p.Repr
  {
    p.nodes != [] && p.List() && p.Chained() && (p.Activated ==> p.AllRunning(cfg, an))
  }
}
