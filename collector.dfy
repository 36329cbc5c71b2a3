/**
  StandardGarbageCollector: the daemon that reclaims expired servlet sessions. When a
  wake cycle's draw triggers a sweep and the inactivity timeout is not 0, every session
  in the storage that has been idle for longer than the timeout is evicted: the
  factory forgets its id, the storage drops it, it is destroyed (when its id is not
  null), its persisted file is deleted if it exists, and it is counted.

  The random draw and the current time are parameters. The event trace records the
  effects the sweep has on its collaborators, in the order it has them.
*/
module Collector {
  import opened Wrappers
  import opened Trigger
  import opened Sessions

  /** PHP's DIRECTORY_SEPARATOR on the platforms the server targets. */
  const DirectorySeparator: char := '/'

  /** The session settings the sweep reads (SessionSettingsInterface). */
  datatype Settings = Settings(
    garbageCollectionProbability: Decimal,
    inactivityTimeout: int,
    sessionSavePath: string,
    sessionFilePrefix: string)

  /** One effect of the sweep on a collaborator. */
  datatype Event =
    | FactoryRemoval(id: string)
    | StoreRemoval(id: string)
    | Destruction(reason: DestroyReason)
    | FileDeletion(path: string)

  /**
    getSessionSavePath: the configured save path, extended by a separator and toAppend
    when toAppend is neither null nor empty ("" stands for both), the save path itself
    otherwise.
  */
  function SessionSavePath(settings: Settings, toAppend: string): (path: string)
    ensures |settings.sessionSavePath| <= |path|
    ensures path[..|settings.sessionSavePath|] == settings.sessionSavePath
    ensures toAppend == "" ==> path == settings.sessionSavePath
    ensures toAppend != "" ==>
      && |path| == |settings.sessionSavePath| + 1 + |toAppend|
      && path[|settings.sessionSavePath|] == DirectorySeparator
      && path[|settings.sessionSavePath| + 1..] == toAppend
  {
    var base := settings.sessionSavePath;
    if toAppend != "" then base + [DirectorySeparator] + toAppend else base
  }

  /** The file a session with the given id is persisted in. */
  function SessionFile(settings: Settings, id: string): string {
    SessionSavePath(settings, settings.sessionFilePrefix + id)
  }

  /** Distinct sessions are persisted in distinct files. */
  lemma SessionFileInjective(settings: Settings, a: string, b: string)
    requires SessionFile(settings, a) == SessionFile(settings, b)
    ensures a == b
  {
    var prefix := settings.sessionFilePrefix;
    var ta, tb := prefix + a, prefix + b;
    var t := SessionFile(settings, a);
    if ta != "" && tb != "" {
      assert ta == t[|settings.sessionSavePath| + 1..] == tb;
    }
    assert ta == tb;
    assert a == ta[|prefix|..] == tb[|prefix|..] == b;
  }

  lemma SessionFileNotAmong(settings: Settings, id: string, ids: set<string>)
    requires id !in ids
    ensures SessionFile(settings, id) !in SessionFiles(settings, ids)
  {
    forall other | other in ids
      ensures SessionFile(settings, other) != SessionFile(settings, id)
    {
      if SessionFile(settings, other) == SessionFile(settings, id) {
        SessionFileInjective(settings, other, id);
      }
    }
  }

  /** The files of the sessions with the given ids. */
  function SessionFiles(settings: Settings, ids: set<string>): set<string> {
    set id | id in ids :: SessionFile(settings, id)
  }

  /** A stored value is a session idle for longer than the timeout. */
  predicate IsExpired(e: Entry, now: int, timeout: int) {
    e.Live? && now - e.session.lastActivity > timeout
  }

  function ExpiredIds(entries: map<string, Entry>, now: int, timeout: int): set<string> {
    set k | k in entries && IsExpired(entries[k], now, timeout)
  }

  /** The draw triggers a sweep and eviction is not disabled by a timeout of 0. */
  predicate Sweeps(settings: Settings, r: int) {
    Triggers(settings.garbageCollectionProbability, r) && settings.inactivityTimeout != 0
  }

  /** The ids one wake cycle evicts, given the draw r and the time now. */
  function Evicted(entries: map<string, Entry>, settings: Settings, r: int, now: int): set<string> {
    if Sweeps(settings, r) then ExpiredIds(entries, now, settings.inactivityTimeout) else {}
  }

  /** The effects of evicting one expired session, in the order the sweep has them. */
  function EvictionEvents(session: Session, files: set<string>, settings: Settings, now: int): seq<Event> {
    var id := session.id;
    var path := SessionFile(settings, id);
    [FactoryRemoval(id), StoreRemoval(id)]
    + (if id != "" then [Destruction(Inactive(id, now - session.lastActivity, settings.inactivityTimeout))] else [])
    + (if path in files then [FileDeletion(path)] else [])
  }

  /** The effects of visiting the stored value under key. */
  function StepEvents(entries: map<string, Entry>, files: set<string>, settings: Settings, now: int, key: string): seq<Event> {
    if key in entries && IsExpired(entries[key], now, settings.inactivityTimeout) then
      EvictionEvents(entries[key].session, files, settings, now)
    else
      []
  }

  /** The effects of a sweep that visits the stored values in the given order. */
  function SweepEvents(order: seq<string>, entries: map<string, Entry>, files: set<string>, settings: Settings, now: int): seq<Event> {
    if order == [] then []
    else SweepEvents(order[..|order| - 1], entries, files, settings, now)
         + StepEvents(entries, files, settings, now, order[|order| - 1])
  }

  /** order lists every element of keys exactly once. */
  ghost predicate IsEnumeration(order: seq<string>, keys: set<string>) {
    multiset(order) == multiset(keys)
  }

  /**
    The trace holds, from position i on, the eviction of session in the order factory
    removal, store removal, destruction (when the id is not null), file deletion (when
    the file existed).
  */
  predicate StepsInOrderAt(ev: seq<Event>, i: nat, session: Session, files: set<string>, settings: Settings, now: int) {
    var id := session.id;
    var path := SessionFile(settings, id);
    var d := if id != "" then 1 else 0;
    && i + 2 + d + (if path in files then 1 else 0) <= |ev|
    && ev[i] == FactoryRemoval(id)
    && ev[i + 1] == StoreRemoval(id)
    && (id != "" ==> ev[i + 2] == Destruction(Inactive(id, now - session.lastActivity, settings.inactivityTimeout)))
    && (path in files ==> ev[i + 2 + d] == FileDeletion(path))
  }

  lemma StepsInOrderExtend(ev: seq<Event>, tail: seq<Event>, i: nat, session: Session, files: set<string>, settings: Settings, now: int)
    requires StepsInOrderAt(ev, i, session, files, settings, now)
    ensures StepsInOrderAt(ev + tail, i, session, files, settings, now)
  {
  }

  /**
    For every expired session a sweep visits, the trace holds its eviction steps
    consecutively and in the order factory, store, destruction, file.
  */
  lemma {:induction false} EvictionStepsInOrder(order: seq<string>, entries: map<string, Entry>, files: set<string>, settings: Settings, now: int, k: string)
    requires k in order && k in entries && IsExpired(entries[k], now, settings.inactivityTimeout)
    ensures exists i: nat :: StepsInOrderAt(SweepEvents(order, entries, files, settings, now), i, entries[k].session, files, settings, now)
  {
    var pre, last := order[..|order| - 1], order[|order| - 1];
    var head := SweepEvents(pre, entries, files, settings, now);
    var step := StepEvents(entries, files, settings, now, last);
    assert SweepEvents(order, entries, files, settings, now) == head + step;
    if last == k {
      assert StepsInOrderAt(head + step, |head|, entries[k].session, files, settings, now);
    } else {
      assert k in pre by {
        var j :| 0 <= j < |order| && order[j] == k;
        assert j < |order| - 1 && pre[j] == k;
      }
      EvictionStepsInOrder(pre, entries, files, settings, now, k);
      var i: nat :| StepsInOrderAt(head, i, entries[k].session, files, settings, now);
      StepsInOrderExtend(head, step, i, entries[k].session, files, settings, now);
    }
  }

  /** The trace does not mention the id or the file of a stored value the sweep keeps. */
  ghost predicate Untouched(ev: seq<Event>, settings: Settings, k: string) {
    && FactoryRemoval(k) !in ev
    && StoreRemoval(k) !in ev
    && FileDeletion(SessionFile(settings, k)) !in ev
    && (forall e | e in ev && e.Destruction? :: e.reason.id != k)
  }

  /**
    A value that is not an expired session leaves no trace: its id is removed from
    neither factory nor storage, no session with it is destroyed, and its file is not
    deleted.
  */
  lemma {:induction false} RetainedLeaveNoTrace(order: seq<string>, entries: map<string, Entry>, files: set<string>, settings: Settings, now: int, k: string)
    requires KeyedById(entries)
    requires k in entries && !IsExpired(entries[k], now, settings.inactivityTimeout)
    ensures Untouched(SweepEvents(order, entries, files, settings, now), settings, k)
  {
    if order != [] {
      var pre, last := order[..|order| - 1], order[|order| - 1];
      var head := SweepEvents(pre, entries, files, settings, now);
      var step := StepEvents(entries, files, settings, now, last);
      RetainedLeaveNoTrace(pre, entries, files, settings, now, k);
      StepLeavesNoTrace(entries, files, settings, now, last, k);
      UntouchedAppend(head, step, settings, k);
      assert SweepEvents(order, entries, files, settings, now) == head + step;
    }
  }

  /**
    Visiting key touches no other stored id, expired or not, nor its file; nor does it
    touch key itself when its value is not an expired session.
  */
  lemma StepLeavesNoTrace(entries: map<string, Entry>, files: set<string>, settings: Settings, now: int, key: string, k: string)
    requires KeyedById(entries)
    requires k in entries
    requires k != key || !(key in entries && IsExpired(entries[key], now, settings.inactivityTimeout))
    ensures Untouched(StepEvents(entries, files, settings, now, key), settings, k)
  {
    if key in entries && IsExpired(entries[key], now, settings.inactivityTimeout) {
      assert entries[key].session.id == key != k;
      if SessionFile(settings, key) == SessionFile(settings, k) {
        SessionFileInjective(settings, key, k);
      }
    }
  }

  lemma UntouchedAppend(a: seq<Event>, b: seq<Event>, settings: Settings, k: string)
    requires Untouched(a, settings, k) && Untouched(b, settings, k)
    ensures Untouched(a + b, settings, k)
  {
  }

  lemma {:induction false} SubsetSize(a: set<string>, b: set<string>)
    requires a <= b
    ensures |a| <= |b|
  {
    if a != {} {
      var x :| x in a;
      SubsetSize(a - {x}, b - {x});
    }
  }

  /** A sweep evicts only stored ids, so it evicts at most as many as the storage holds. */
  lemma EvictionBounded(entries: map<string, Entry>, settings: Settings, r: int, now: int)
    ensures Evicted(entries, settings, r, now) <= entries.Keys
    ensures |Evicted(entries, settings, r, now)| <= |entries|
  {
    SubsetSize(Evicted(entries, settings, r, now), entries.Keys);
  }

  /** The storage shrinks by exactly the number of sessions a wake cycle evicts. */
  lemma EvictionShrinksStore(entries: map<string, Entry>, settings: Settings, r: int, now: int)
    ensures |entries - Evicted(entries, settings, r, now)| == |entries| - |Evicted(entries, settings, r, now)|
  {
    EvictionBounded(entries, settings, r, now);
  }

  /** A draw that does not trigger, or a timeout of 0, evicts nothing. */
  lemma NoSweepEvictsNothing(entries: map<string, Entry>, settings: Settings, r: int, now: int)
    requires !Triggers(settings.garbageCollectionProbability, r) || settings.inactivityTimeout == 0
    ensures Evicted(entries, settings, r, now) == {}
  {
  }

  /**
    A stored value that is not an expired session, or any value when no sweep runs,
    stays in the storage unchanged, and its file is not among those deleted.
  */
  lemma RetainedEntry(entries: map<string, Entry>, settings: Settings, r: int, now: int, k: string)
    requires k in entries
    requires !Sweeps(settings, r) || !IsExpired(entries[k], now, settings.inactivityTimeout)
    ensures k in entries - Evicted(entries, settings, r, now)
    ensures (entries - Evicted(entries, settings, r, now))[k] == entries[k]
    ensures SessionFile(settings, k) !in SessionFiles(settings, Evicted(entries, settings, r, now))
  {
    SessionFileNotAmong(settings, k, Evicted(entries, settings, r, now));
  }

  /**
    Under a sweep, every expired session is evicted, and its file is among those
    deleted.
  */
  lemma ExpiredEvicted(entries: map<string, Entry>, settings: Settings, r: int, now: int, k: string)
    requires Sweeps(settings, r)
    requires k in entries && IsExpired(entries[k], now, settings.inactivityTimeout)
    ensures k in Evicted(entries, settings, r, now)
    ensures k !in entries - Evicted(entries, settings, r, now)
    ensures SessionFile(settings, k) in SessionFiles(settings, Evicted(entries, settings, r, now))
  {
  }

  lemma SweepStep(entries: map<string, Entry>, now: int, timeout: int, done: set<string>, key: string)
    requires key in entries && key !in done
    ensures IsExpired(entries[key], now, timeout) ==>
      ExpiredIds(entries, now, timeout) * (done + {key}) == ExpiredIds(entries, now, timeout) * done + {key}
    ensures !IsExpired(entries[key], now, timeout) ==>
      ExpiredIds(entries, now, timeout) * (done + {key}) == ExpiredIds(entries, now, timeout) * done
  {
  }

  lemma ExpiredWithinStore(entries: map<string, Entry>, now: int, timeout: int)
    ensures ExpiredIds(entries, now, timeout) <= entries.Keys
  {
  }

  lemma MapMinusAdd(m: map<string, Entry>, gone: set<string>, key: string)
    ensures m - (gone + {key}) == (m - gone) - {key}
  {
  }

  lemma SessionFilesAdd(settings: Settings, ids: set<string>, id: string)
    ensures SessionFiles(settings, ids + {id}) == SessionFiles(settings, ids) + {SessionFile(settings, id)}
  {
  }

  lemma SweepEventsAppend(order: seq<string>, key: string, entries: map<string, Entry>, files: set<string>, settings: Settings, now: int)
    ensures SweepEvents(order + [key], entries, files, settings, now)
         == SweepEvents(order, entries, files, settings, now) + StepEvents(entries, files, settings, now, key)
  {
    assert (order + [key])[..|order|] == order;
  }

  lemma EnumerationExtend(order: seq<string>, keys: set<string>, key: string)
    requires IsEnumeration(order, keys) && key !in keys
    ensures IsEnumeration(order + [key], keys + {key})
  {
  }

  /** The flags after destroying the sessions stored under ids; a session with a null id is not destroyed. */
  function MarkDestroyed(flags: map<string, bool>, ids: set<string>): map<string, bool> {
    map k | k in flags :: flags[k] || (k in ids && k != "")
  }

  lemma MarkDestroyedTwice(flags: map<string, bool>, a: set<string>, b: set<string>)
    ensures MarkDestroyed(MarkDestroyed(flags, a), b) == MarkDestroyed(flags, a + b)
  {
  }

  /**
    A stored session is destroyed afterwards exactly when it was before, or when its key
    is among the ids and is not null.
  */
  lemma MarkDestroyedAt(flags: map<string, bool>, ids: set<string>, k: string)
    requires k in flags
    ensures k in MarkDestroyed(flags, ids)
    ensures MarkDestroyed(flags, ids)[k] <==> flags[k] || (k in ids && k != "")
  {
  }

  /**
    After a wake cycle a stored session is destroyed exactly when it was before, or the
    cycle sweeps, the session is expired and its id is not null.
  */
  lemma DestroyedAfterCycle(flags: map<string, bool>, entries: map<string, Entry>, settings: Settings, r: int, now: int, k: string)
    requires KeyedById(entries) && k in entries && entries[k].Live? && k in flags
    ensures k in MarkDestroyed(flags, Evicted(entries, settings, r, now))
    ensures MarkDestroyed(flags, Evicted(entries, settings, r, now))[k] <==>
      flags[k] || (Sweeps(settings, r) && IsExpired(entries[k], now, settings.inactivityTimeout) && entries[k].session.id != "")
  {
  }

  /** Visiting one more key destroys its session exactly when it is expired. */
  lemma DestroyedStep(flags: map<string, bool>, snapshot: map<string, Entry>, now: int, timeout: int,
                      done: set<string>, key: string)
    requires key in snapshot && key !in done
    ensures MarkDestroyed(MarkDestroyed(flags, ExpiredIds(snapshot, now, timeout) * done),
                          if IsExpired(snapshot[key], now, timeout) then {key} else {})
         == MarkDestroyed(flags, ExpiredIds(snapshot, now, timeout) * (done + {key}))
  {
    SweepStep(snapshot, now, timeout, done, key);
    MarkDestroyedTwice(flags, ExpiredIds(snapshot, now, timeout) * done,
                       if IsExpired(snapshot[key], now, timeout) then {key} else {});
  }

  /**
    The state of the collaborators once a sweep that started from snapshot, files0
    and ids0 has visited the keys in done, in the order visited.
  */
  ghost predicate Progress(snapshot: map<string, Entry>, files0: set<string>, ids0: set<string>,
                           settings: Settings, now: int, done: set<string>,
                           entries: map<string, Entry>, ids: set<string>, paths: set<string>,
                           removed: nat, visited: seq<string>, events: seq<Event>)
  {
    var gone := ExpiredIds(snapshot, now, settings.inactivityTimeout) * done;
    && entries == snapshot - gone
    && ids == ids0 - gone
    && paths == files0 - SessionFiles(settings, gone)
    && removed == |gone|
    && IsEnumeration(visited, done)
    && events == SweepEvents(visited, snapshot, files0, settings, now)
  }

  lemma ProgressStart(snapshot: map<string, Entry>, files0: set<string>, ids0: set<string>, settings: Settings, now: int)
    ensures Progress(snapshot, files0, ids0, settings, now, {}, snapshot, ids0, files0, 0, [], [])
  {
    assert ExpiredIds(snapshot, now, settings.inactivityTimeout) * {} == {};
    assert SessionFiles(settings, {}) == {};
    assert snapshot - {} == snapshot;
  }

  /** Visiting one more key evicts it exactly when it holds an expired session. */
  lemma ProgressStep(snapshot: map<string, Entry>, files0: set<string>, ids0: set<string>,
                     settings: Settings, now: int, done: set<string>,
                     entries: map<string, Entry>, ids: set<string>, paths: set<string>,
                     removed: nat, visited: seq<string>, events: seq<Event>, key: string,
                     entries': map<string, Entry>, ids': set<string>, paths': set<string>,
                     removed': nat, visited': seq<string>, events': seq<Event>)
    requires KeyedById(snapshot) && key in snapshot && key !in done
    requires Progress(snapshot, files0, ids0, settings, now, done, entries, ids, paths, removed, visited, events)
    requires IsExpired(snapshot[key], now, settings.inactivityTimeout) ==>
      && entries' == entries - {key}
      && ids' == ids - {key}
      && paths' == paths - {SessionFile(settings, key)}
      && removed' == removed + 1
      && events' == events + EvictionEvents(snapshot[key].session, paths, settings, now)
    requires !IsExpired(snapshot[key], now, settings.inactivityTimeout) ==>
      entries' == entries && ids' == ids && paths' == paths && removed' == removed && events' == events
    requires visited' == visited + [key]
    ensures Progress(snapshot, files0, ids0, settings, now, done + {key}, entries', ids', paths', removed', visited', events')
  {
    var doomed := ExpiredIds(snapshot, now, settings.inactivityTimeout);
    var gone := doomed * done;
    SweepStep(snapshot, now, settings.inactivityTimeout, done, key);
    SweepEventsAppend(visited, key, snapshot, files0, settings, now);
    EnumerationExtend(visited, done, key);
    if IsExpired(snapshot[key], now, settings.inactivityTimeout) {
      SessionFileNotAmong(settings, key, gone);
      MapMinusAdd(snapshot, gone, key);
      SessionFilesAdd(settings, gone, key);
      assert EvictionEvents(snapshot[key].session, paths, settings, now)
          == EvictionEvents(snapshot[key].session, files0, settings, now);
    }
  }

  lemma ProgressEnd(snapshot: map<string, Entry>, files0: set<string>, ids0: set<string>,
                    settings: Settings, now: int, done: set<string>,
                    entries: map<string, Entry>, ids: set<string>, paths: set<string>,
                    removed: nat, visited: seq<string>, events: seq<Event>)
    requires done == snapshot.Keys
    requires Progress(snapshot, files0, ids0, settings, now, done, entries, ids, paths, removed, visited, events)
    ensures var expired := ExpiredIds(snapshot, now, settings.inactivityTimeout);
      && removed == |expired|
      && entries == snapshot - expired
      && ids == ids0 - expired
      && paths == files0 - SessionFiles(settings, expired)
      && IsEnumeration(visited, snapshot.Keys)
      && events == SweepEvents(visited, snapshot, files0, settings, now)
  {
    ExpiredWithinStore(snapshot, now, settings.inactivityTimeout);
    assert ExpiredIds(snapshot, now, settings.inactivityTimeout) * done == ExpiredIds(snapshot, now, settings.inactivityTimeout);
  }

  /**
    The eviction of one expired session: the factory forgets its id, the storage
    drops it, it is destroyed when its id is not null, and its file is deleted when
    it exists.
  */
  method EvictSession(store: SessionStore, factory: SessionFactory, fs: FileSystem,
                      settings: Settings, session: Session, now: int)
    returns (ghost ev: seq<Event>)
    requires store.Valid()
    modifies store, factory, fs, session
    ensures store.Valid()
    ensures store.entries == old(store.entries) - {session.id}
    ensures factory.ids == old(factory.ids) - {session.id}
    ensures fs.paths == old(fs.paths) - {SessionFile(settings, session.id)}
    ensures session.destroyed == (old(session.destroyed) || session.id != "")
    ensures ev == EvictionEvents(session, old(fs.paths), settings, now)
  {
    var idle := now - session.lastActivity;
    var id := session.id;
    factory.RemoveBySessionId(id);
    ev := [FactoryRemoval(id)];
    store.Remove(id);
    ev := ev + [StoreRemoval(id)];
    if id != "" {
      var reason := Inactive(id, idle, settings.inactivityTimeout);
      session.Destroy(reason);
      ev := ev + [Destruction(reason)];
    }
    var path := SessionSavePath(settings, settings.sessionFilePrefix + id);
    if fs.FileExists(path) {
      fs.Unlink(path);
      ev := ev + [FileDeletion(path)];
    }
  }

  /**
    One iteration of the expiry loop: looks at the value stored under key and evicts
    it when it is a session idle for longer than the timeout.
  */
  method VisitEntry(store: SessionStore, factory: SessionFactory, fs: FileSystem, settings: Settings, now: int,
                    snapshot: map<string, Entry>, ghost files0: set<string>, ghost ids0: set<string>,
                    ghost done: set<string>, key: string, removed: nat, ghost visited: seq<string>, ghost events: seq<Event>)
    returns (removed': nat, ghost visited': seq<string>, ghost events': seq<Event>)
    requires KeyedById(snapshot) && key in snapshot && key !in done
    requires store.Valid()
    requires Progress(snapshot, files0, ids0, settings, now, done,
                      store.entries, factory.ids, fs.paths, removed, visited, events)
    modifies store, factory, fs, if snapshot[key].Live? then {snapshot[key].session} else {}
    ensures store.Valid()
    ensures Progress(snapshot, files0, ids0, settings, now, done + {key},
                     store.entries, factory.ids, fs.paths, removed', visited', events')
    ensures DestroyedFlags(snapshot) ==
      MarkDestroyed(old(DestroyedFlags(snapshot)),
                    if IsExpired(snapshot[key], now, settings.inactivityTimeout) then {key} else {})
  {
    ghost var entries0, ids1, paths0 := store.entries, factory.ids, fs.paths;
    removed', visited', events' := removed, visited + [key], events;
    var entry := snapshot[key];
    if entry.Live? && now - entry.session.lastActivity > settings.inactivityTimeout {
      ghost var ev := EvictSession(store, factory, fs, settings, entry.session, now);
      events' := events + ev;
      removed' := removed + 1;
    }
    ProgressStep(snapshot, files0, ids0, settings, now, done,
                 entries0, ids1, paths0, removed, visited, events, key,
                 store.entries, factory.ids, fs.paths, removed', visited', events');
  }

  /**
    The expiry loop of collectGarbage: visits every stored value once and evicts
    each session idle for longer than the configured timeout. Returns the number of
    evicted sessions; the ghost results are the order of the visits and the trace of
    the effects.
  */
  method CollectExpired(store: SessionStore, factory: SessionFactory, fs: FileSystem, settings: Settings, now: int)
    returns (removed: nat, ghost visited: seq<string>, ghost events: seq<Event>)
    requires store.Valid()
    modifies store, factory, fs, LiveSessions(store.entries)
    ensures store.Valid()
    ensures var expired := ExpiredIds(old(store.entries), now, settings.inactivityTimeout);
      && removed == |expired|
      && store.entries == old(store.entries) - expired
      && factory.ids == old(factory.ids) - expired
      && fs.paths == old(fs.paths) - SessionFiles(settings, expired)
    ensures DestroyedFlags(old(store.entries)) ==
      MarkDestroyed(old(DestroyedFlags(store.entries)), ExpiredIds(old(store.entries), now, settings.inactivityTimeout))
    ensures IsEnumeration(visited, old(store.entries).Keys)
    ensures events == SweepEvents(visited, old(store.entries), old(fs.paths), settings, now)
  {
    var timeout := settings.inactivityTimeout;
    removed, visited, events := 0, [], [];
    var snapshot := store.entries;
    ghost var files0, ids0 := fs.paths, factory.ids;
    ghost var done: set<string> := {};
    ghost var flags0 := DestroyedFlags(snapshot);
    var todo := snapshot.Keys;
    ProgressStart(snapshot, files0, ids0, settings, now);
    while todo != {}
      invariant KeyedById(snapshot) && store.Valid()
      invariant todo <= snapshot.Keys && done == snapshot.Keys - todo
      invariant Progress(snapshot, files0, ids0, settings, now, done,
                         store.entries, factory.ids, fs.paths, removed, visited, events)
      invariant DestroyedFlags(snapshot) == MarkDestroyed(flags0, ExpiredIds(snapshot, now, timeout) * done)
      decreases todo
    {
      var key :| key in todo;
      assert snapshot[key].Live? ==> snapshot[key].session in LiveSessions(snapshot);
      removed, visited, events := VisitEntry(store, factory, fs, settings, now, snapshot, files0, ids0, done,
                                             key, removed, visited, events);
      DestroyedStep(flags0, snapshot, now, timeout, done, key);
      todo := todo - {key};
      done := done + {key};
    }
    assert ExpiredIds(snapshot, now, timeout) * done == ExpiredIds(snapshot, now, timeout);
    ProgressEnd(snapshot, files0, ids0, settings, now, done,
                store.entries, factory.ids, fs.paths, removed, visited, events);
  }

  /** The garbage collector with the collaborators injected into it. */
  class GarbageCollector {
    var sessions: SessionStore?
    var sessionFactory: SessionFactory?
    var sessionSettings: Option<Settings>

    constructor ()
      ensures sessions == null && sessionFactory == null && sessionSettings == None
    {
      sessions := null;
      sessionFactory := null;
      sessionSettings := None;
    }

    function GetSessions(): SessionStore?
      reads this
    {
      sessions
    }

    function GetSessionFactory(): SessionFactory?
      reads this
    {
      sessionFactory
    }

    function GetSessionSettings(): Option<Settings>
      reads this
    {
      sessionSettings
    }

    method InjectSessions(store: SessionStore)
      modifies this
      ensures GetSessions() == store
      ensures GetSessionFactory() == old(GetSessionFactory()) && GetSessionSettings() == old(GetSessionSettings())
    {
      sessions := store;
    }

    method InjectSessionFactory(factory: SessionFactory)
      modifies this
      ensures GetSessionFactory() == factory
      ensures GetSessions() == old(GetSessions()) && GetSessionSettings() == old(GetSessionSettings())
    {
      sessionFactory := factory;
    }

    method InjectSessionSettings(settings: Settings)
      modifies this
      ensures GetSessionSettings() == Some(settings)
      ensures GetSessions() == old(GetSessions()) && GetSessionFactory() == old(GetSessionFactory())
    {
      sessionSettings := Some(settings);
    }

    /** Everything a sweep uses has been injected, and the storage keys sessions by id. */
    ghost predicate Injected()
      reads this, sessions
    {
      sessions != null && sessionFactory != null && sessionSettings.Some? && sessions.Valid()
    }

    /**
      collectGarbage: one wake cycle, for the draw r of rand(0, 100 * factor) and the
      time now. Returns the number of evicted sessions, which the doc-comment promises
      (the code counts them but does not return the count). The ghost results are the
      order the sweep visited the stored values in and the trace of its effects.
    */
    method CollectGarbage(fs: FileSystem, r: int, now: int)
      returns (removed: nat, ghost visited: seq<string>, ghost events: seq<Event>)
      requires Injected()
      requires 0 <= r <= MaxDraw(sessionSettings.value.garbageCollectionProbability)
      modifies sessions, sessionFactory, fs, LiveSessions(sessions.entries)
      ensures Injected()
      ensures removed == |Evicted(old(sessions.entries), sessionSettings.value, r, now)|
      ensures removed <= |old(sessions.entries)|
      ensures sessions.entries == old(sessions.entries) - Evicted(old(sessions.entries), sessionSettings.value, r, now)
      ensures sessionFactory.ids == old(sessionFactory.ids) - Evicted(old(sessions.entries), sessionSettings.value, r, now)
      ensures fs.paths == old(fs.paths) - SessionFiles(sessionSettings.value, Evicted(old(sessions.entries), sessionSettings.value, r, now))
      ensures DestroyedFlags(old(sessions.entries)) ==
        MarkDestroyed(old(DestroyedFlags(sessions.entries)), Evicted(old(sessions.entries), sessionSettings.value, r, now))
      ensures Sweeps(sessionSettings.value, r) ==> IsEnumeration(visited, old(sessions.entries).Keys)
      ensures !Sweeps(sessionSettings.value, r) ==> visited == []
      ensures events == SweepEvents(visited, old(sessions.entries), old(fs.paths), sessionSettings.value, now)
    {
      var settings := sessionSettings.value;
      EvictionBounded(sessions.entries, settings, r, now);
      if Triggers(settings.garbageCollectionProbability, r) && settings.inactivityTimeout != 0 {
        removed, visited, events := CollectExpired(sessions, sessionFactory, fs, settings, now);
      } else {
        removed, visited, events := 0, [], [];
        assert sessions.entries - {} == sessions.entries;
        assert SessionFiles(settings, {}) == {};
        assert MarkDestroyed(DestroyedFlags(sessions.entries), {}) == DestroyedFlags(sessions.entries);
      }
    }
  }
}
