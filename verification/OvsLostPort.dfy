/** A run in which AddPort reports success and no port is there: its bridge is deleted between its
    read and its transaction. */
module OvsLostPort {
  import opened Common
  import opened OvsDatabase
  import opened OvsClient
  import opened OvsRuns
  import opened OvsTheorems

  function Before(name: string): Db {
    Db(map[0 := Switch({1}, map[])], map[1 := Bridge(name, {}, "", None, map[], map[])], map[], map[])
  }

  function After(): Db {
    Db(map[0 := Switch({}, map[])], map[], map[], map[])
  }

  function DeleteOps(): seq<Op> {
    [DropFromBridges(0, {1}), DeleteBridgeRow(1)]
  }

  lemma BeforeIsGood(name: string)
    ensures Good(Before(name))
  {
    assert 0 in Before(name).switches && 1 in Before(name).switches[0].bridges;
    assert SwitchHolds(Before(name), 1);
  }

  lemma AfterIsGood()
    ensures Good(After())
  {
  }

  lemma PortIsPrepared(cfg: PortConfig)
    requires NamesUnique(Before(cfg.bridgeName))
    ensures Prepared(Now(Before(cfg.bridgeName)), AddPort(cfg), 2, 3, 4) == Some(PortCreation(cfg, 1, 2, 3))
  {
    hide CreatePortOps, IsPortInBridge, NamesUnique;
    assert Before(cfg.bridgeName).bridges[1].name == cfg.bridgeName;
  }

  lemma DeleteIsPrepared(name: string)
    requires NamesUnique(Before(name))
    ensures Prepared(Now(Before(name)), DeleteBridge(name), 5, 6, 7) == Some(Removal(DeleteOps()))
  {
    hide NamesUnique;
    assert Before(name).bridges[1].name == name && Before(name).switches.Keys == {0};
  }

  lemma DeleteCommitsFirst(name: string)
    ensures Commit(Before(name), DeleteOps()) == Ok(After())
  {
    hide ExecAll, Collect, Consistent, NoGarbage;
    DeleteBridgeRuns(Before(name), 0, 1);
    AfterIsGood();
    CollectKeepsClean(After());
    var row := Before(name).switches[0];
    assert row.bridges + {} - {1} == {};
    assert Before(name).switches[0 := row.(bridges := {})] == After().switches;
    assert Before(name).bridges - {1} == After().bridges;
  }

  lemma PortCommitsLast(cfg: PortConfig)
    ensures Commit(After(), CreatePortOps(cfg, 1, 2, 3)) == Ok(After())
  {
    hide Collect, ExecAll, CreatePortOps, Consistent, NoGarbage, HeldOnce;
    AfterIsGood();
    CreatePortRuns(After(), cfg, 1, 2, 3);
    OrphanIsCollected(After(), cfg, 1, 2, 3);
  }

  /** The calls of two clients, interleaved. The last transaction is the one of AddPort: it commits,
      so the call succeeds, and the database has neither bridge nor port. */
  lemma AddPortLostExample(cfg: PortConfig) returns (states: seq<System>, steps: seq<Step>)
    ensures steps == [Prepare(0, AddPort(cfg), 0, 0, 0, 2, 3, 4),
                      Prepare(1, DeleteBridge(cfg.bridgeName), 0, 0, 0, 5, 6, 7), Transact(1), Transact(0)]
    ensures Behavior(states, steps) && |states[3].history| > 0 && 0 in states[3].waiting
    ensures ResultOf(Current(states[3]), Send(OpsOf(states[3].waiting[0]))) == Ok(())
    ensures |states[4].history| > 0 && Current(states[4]) == After()
  {
    hide Good, NamesUnique, Commit, Prepared, CreatePortOps;
    var before := Before(cfg.bridgeName);
    GoodHasUniqueNames(cfg.bridgeName);
    PortIsPrepared(cfg);
    DeleteIsPrepared(cfg.bridgeName);
    DeleteCommitsFirst(cfg.bridgeName);
    PortCommitsLast(cfg);
    var port, delete := PortCreation(cfg, 1, 2, 3), Removal(DeleteOps());
    var s0 := System([before], {0, 1}, map[]);
    var s1 := System([before], {0, 1} + {2, 3, 4}, map[0 := port]);
    var s2 := System([before], {0, 1} + {2, 3, 4} + {5, 6, 7}, map[0 := port, 1 := delete]);
    var s3 := System([before, After()], s2.used, map[0 := port]);
    var s4 := System([before, After(), After()], s2.used, map[]);
    steps := [Prepare(0, AddPort(cfg), 0, 0, 0, 2, 3, 4),
              Prepare(1, DeleteBridge(cfg.bridgeName), 0, 0, 0, 5, 6, 7), Transact(1), Transact(0)];
    states := [s0, s1, s2, s3, s4];
    assert s1 == Apply(s0, steps[0]);
    assert s2 == Apply(s1, steps[1]);
    assert s2.waiting - {1} == s3.waiting;
    assert s3 == Apply(s2, steps[2]);
    assert s3.waiting - {0} == s4.waiting;
    assert s4 == Apply(s3, steps[3]);
  }

  lemma GoodHasUniqueNames(name: string)
    ensures Good(Before(name)) && NamesUnique(Before(name)) && Ids(Before(name)) == {0, 1}
  {
    BeforeIsGood(name);
    hide Good;
    assert Before(name).bridges.Keys == {1} && Before(name).switches.Keys == {0};
  }
}
