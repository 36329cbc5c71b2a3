/**
  Wake cycles of a garbage collector wired to freshly allocated collaborators, stated
  by what a caller observes afterwards.
*/
module Scenarios {
  import opened Wrappers
  import opened Trigger
  import opened Sessions
  import opened Collector

  /** A probability of 100 percent, the given timeout, files under /var/sessions/sess_<id>. */
  function AlwaysTriggeringSettings(timeout: int): Settings {
    Settings(Decimal([1, 0, 0], None), timeout, "/var/sessions", "sess_")
  }

  lemma AlwaysTriggeringSettingsTrigger(timeout: int, r: int)
    requires 0 <= r <= 100
    ensures 0 <= r <= MaxDraw(AlwaysTriggeringSettings(timeout).garbageCollectionProbability)
    ensures Triggers(AlwaysTriggeringSettings(timeout).garbageCollectionProbability, r)
  {
    var p := Decimal([1, 0, 0], None);
    FactorOfText(p);
    assert Mantissa(p) == 100 by {
      assert p.whole + FractionDigits(p) == [1, 0, 0];
      assert DigitsValue([1, 0]) == 10 by {
        assert [1, 0][..1] == [1];
        assert [1][..0] == [];
      }
      assert [1, 0, 0][..2] == [1, 0];
    }
    FullProbabilityAlwaysTriggers(p, r);
  }

  /** The file of a session under these settings. */
  lemma AlwaysTriggeringSettingsFile(timeout: int, id: string)
    ensures SessionFiles(AlwaysTriggeringSettings(timeout), {id}) == {"/var/sessions/sess_" + id}
  {
    var dir := "/var/sessions" + [DirectorySeparator] + "sess_";
    assert dir == "/var/sessions/sess_";
    assert SessionFile(AlwaysTriggeringSettings(timeout), id) == "/var/sessions" + [DirectorySeparator] + ("sess_" + id) == dir + id;
    assert SessionFiles(AlwaysTriggeringSettings(timeout), {id}) == {SessionFile(AlwaysTriggeringSettings(timeout), id)};
  }

  /**
    A probability of 100 percent, a timeout of 60 seconds, sessions A idle for 120 and
    B idle for 5 seconds: A alone is evicted, and its file is /var/sessions/sess_A.
  */
  lemma ExampleSweep(a: Session, b: Session, r: int, now: int)
    requires a.id == "A" && a.lastActivity == now - 120
    requires b.id == "B" && b.lastActivity == now - 5
    requires 0 <= r <= 100
    ensures Evicted(map["A" := Live(a), "B" := Live(b)], AlwaysTriggeringSettings(60), r, now) == {"A"}
    ensures SessionFiles(AlwaysTriggeringSettings(60), {"A"}) == {"/var/sessions/sess_A"}
    ensures {"/var/sessions/sess_A", "/var/sessions/sess_B"} - SessionFiles(AlwaysTriggeringSettings(60), {"A"}) == {"/var/sessions/sess_B"}
  {
    AlwaysTriggeringSettingsTrigger(60, r);
    AlwaysTriggeringSettingsFile(60, "A");
    assert "/var/sessions/sess_" + "A" == "/var/sessions/sess_A";
    assert "/var/sessions/sess_B" != "/var/sessions/sess_A";
    assert ExpiredIds(map["A" := Live(a), "B" := Live(b)], now, 60) == {"A"};
  }

  /** A single session idle for longer than the timeout is the whole of what a cycle evicts. */
  lemma LoneExpiredEvicted(s: Session, r: int, now: int)
    requires s.lastActivity < now - 60
    requires 0 <= r <= 100
    ensures Evicted(map[s.id := Live(s)], AlwaysTriggeringSettings(60), r, now) == {s.id}
  {
    AlwaysTriggeringSettingsTrigger(60, r);
    assert IsExpired(Live(s), now, 60);
  }

  /** A collector with the storage, factory and settings injected. */
  method Wire(store: SessionStore, factory: SessionFactory, settings: Settings) returns (gc: GarbageCollector)
    requires store.Valid()
    ensures fresh(gc) && gc.sessions == store && gc.sessionFactory == factory && gc.sessionSettings == Some(settings)
    ensures gc.Injected()
  {
    gc := new GarbageCollector();
    gc.InjectSessions(store);
    gc.InjectSessionFactory(factory);
    gc.InjectSessionSettings(settings);
  }

  /**
    Sessions A, idle for 120 seconds, and B, idle for 5, with both files on disk: the
    cycle evicts A alone. A leaves storage and factory, is destroyed and loses its
    file; B stays, is not destroyed, and keeps its file.
  */
  method SweepEvictsIdleSession(now: int, r: int)
    returns (removed: nat, stored: set<string>, known: set<string>, files: set<string>,
             aDestroyed: bool, bDestroyed: bool)
    requires 0 <= r <= 100
    ensures removed == 1
    ensures stored == {"B"} && known == {"B"}
    ensures files == {"/var/sessions/sess_B"}
    ensures aDestroyed && !bDestroyed
  {
    var a := new Session("A", now - 120);
    var b := new Session("B", now - 5);
    var entries := map["A" := Live(a), "B" := Live(b)];
    var store := new SessionStore(entries);
    var factory := new SessionFactory({"A", "B"});
    var fs := new FileSystem({"/var/sessions/sess_A", "/var/sessions/sess_B"});
    var settings := AlwaysTriggeringSettings(60);
    var gc := Wire(store, factory, settings);
    AlwaysTriggeringSettingsTrigger(60, r);
    ghost var flags := DestroyedFlags(entries);
    DestroyedFlagOf(entries, "A");
    DestroyedFlagOf(entries, "B");
    ghost var visited, events;
    removed, visited, events := gc.CollectGarbage(fs, r, now);
    ExampleSweep(a, b, r, now);
    DestroyedFlagOf(entries, "A");
    DestroyedFlagOf(entries, "B");
    MarkDestroyedAt(flags, {"A"}, "A");
    MarkDestroyedAt(flags, {"A"}, "B");
    stored, known, files := store.entries.Keys, factory.ids, fs.paths;
    aDestroyed, bDestroyed := a.destroyed, b.destroyed;
  }

  /** A timeout of 0 disables eviction: a session idle for 10,000 seconds stays stored and alive. */
  method ZeroTimeoutKeepsEverything(now: int, r: int)
    returns (removed: nat, stored: set<string>, known: set<string>, files: set<string>, destroyed: bool)
    requires 0 <= r <= 100
    ensures removed == 0
    ensures stored == {"A"} && known == {"A"}
    ensures files == {"/var/sessions/sess_A"}
    ensures !destroyed
  {
    var a := new Session("A", now - 10000);
    var entries := map["A" := Live(a)];
    var store := new SessionStore(entries);
    var factory := new SessionFactory({"A"});
    var fs := new FileSystem({"/var/sessions/sess_A"});
    var settings := AlwaysTriggeringSettings(0);
    var gc := Wire(store, factory, settings);
    AlwaysTriggeringSettingsTrigger(0, r);
    ghost var flags := DestroyedFlags(entries);
    DestroyedFlagOf(entries, "A");
    ghost var visited, events;
    removed, visited, events := gc.CollectGarbage(fs, r, now);
    assert SessionFiles(settings, {}) == {};
    DestroyedFlagOf(entries, "A");
    MarkDestroyedAt(flags, {}, "A");
    stored, known, files := store.entries.Keys, factory.ids, fs.paths;
    destroyed := a.destroyed;
  }

  /**
    An expired session with a null id is removed and counted but not destroyed; its
    file name is the save path extended by the prefix alone.
  */
  method NullIdEvictedWithoutDestroy(now: int, r: int)
    returns (removed: nat, stored: set<string>, files: set<string>, destroyed: bool)
    requires 0 <= r <= 100
    ensures removed == 1
    ensures stored == {}
    ensures files == {}
    ensures !destroyed
  {
    var s := new Session("", now - 120);
    var entries := map["" := Live(s)];
    var store := new SessionStore(entries);
    var factory := new SessionFactory({});
    var fs := new FileSystem({"/var/sessions/sess_"});
    var settings := AlwaysTriggeringSettings(60);
    var gc := Wire(store, factory, settings);
    AlwaysTriggeringSettingsTrigger(60, r);
    ghost var flags := DestroyedFlags(entries);
    DestroyedFlagOf(entries, "");
    ghost var visited, events;
    removed, visited, events := gc.CollectGarbage(fs, r, now);
    LoneExpiredEvicted(s, r, now);
    AlwaysTriggeringSettingsFile(60, "");
    assert "/var/sessions/sess_" + "" == "/var/sessions/sess_";
    DestroyedFlagOf(entries, "");
    MarkDestroyedAt(flags, {""}, "");
    stored, files := store.entries.Keys, fs.paths;
    destroyed := s.destroyed;
  }
}
