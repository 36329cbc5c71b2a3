# Session garbage collector of the servlet engine

This project models `StandardGarbageCollector`, the servlet engine's daemon that reclaims expired
servlet sessions, and proves what one wake cycle does.

Each wake cycle goes like this:

- The collector derives a scaling factor from the text of the configured garbage-collection
  probability.
- It draws `r` from `rand(0, 100 * factor)` and sweeps only when `r <= probability * factor`.
- A sweep also needs an inactivity timeout that is not 0.
- A sweep visits every value in the session storage. It evicts each session that has been idle for
  longer than the timeout, in this order:
  1. the session factory forgets its id;
  2. the storage drops it;
  3. it is destroyed, when its id is not null;
  4. its persisted file `<save path>/<prefix><id>` is deleted, when the file exists.
- Evicted sessions are counted.

The project has five modules:

- `Wrappers` holds `Option`.
- `Trigger` covers the probability numeral, the factor read off its text, and the trigger decision.
  A probability is an exact decimal numeral (`Decimal`), rendered to the text PHP hands to
  `strrchr`, so the comparison is exact integer arithmetic.
- `Sessions` covers the collaborators:
  - `Session`, a class with a `destroyed` flag;
  - the value storage `SessionStore`, a map from ids to entries;
  - the `SessionFactory`'s set of ids;
  - a `FileSystem`, seen as a set of paths.
- `Collector` holds the rest:
  - `Settings` and `getSessionSavePath`;
  - the specification functions of a sweep (`ExpiredIds`, `Evicted`, `SessionFiles`,
    `SweepEvents`, `MarkDestroyed`);
  - the lemmas about them;
  - the `GarbageCollector` class with its injected collaborators;
  - the imperative sweep.
- `Scenarios` wires a collector to freshly allocated collaborators and states what one wake cycle
  leaves behind in three concrete situations.

The sweep is a loop over the storage's keys in an unspecified order. Its ghost results are two
records:

- `visited`, the order in which the keys were visited;
- `events`, the trace of effects on the collaborators.

The sweep method is proved against the specification functions. The lemmas then state what those
functions promise.

In three places the code does something a reader might not expect, and the model follows the code:

- The factor is `decimals * 10`, not a power of ten: "0.25" gives 20, not 100. A numeral ending in a
  point ("5.") has 0 decimals and therefore factor 0, so it triggers every cycle.
- The draw happens before the timeout is consulted. A timeout of 0 therefore still draws, but it
  evicts nothing.
- The code does not return the eviction count. The model returns it, as the method's doc-comment
  promises.

A null session id and an empty id are both modelled as `""`, because PHP's `!= null` is false for
exactly those two values. The same holds for the `$toAppend` argument of `getSessionSavePath`.

The storage invariant `KeyedById` says every session is stored under its own id. With it, evicting
one session leaves every other stored value, id and file untouched.

## Model

| member | source | states |
|---|---|---|
| Trigger.LastIndexOf | src/AppserverIo/Appserver/ServletEngine/StandardGarbageCollector.php:211 | strrchr: None exactly when the character does not occur; otherwise the index holds it and no later position does |
| Trigger.FactorOfText | src/AppserverIo/Appserver/ServletEngine/StandardGarbageCollector.php:211-212 | the factor is 1 for a numeral without a point and ten times the number of digits after the point otherwise |
| Trigger.FactorNonNegative | src/AppserverIo/Appserver/ServletEngine/StandardGarbageCollector.php:212-215 | the factor is never negative, so the draw range [0, 100 * factor] is never empty |
| Trigger.FullProbabilityAlwaysTriggers | src/AppserverIo/Appserver/ServletEngine/StandardGarbageCollector.php:215 | a probability of at least 100 percent triggers a sweep for every draw rand can return |
| Trigger.ZeroProbabilityTriggersOnlyOnZeroDraw | src/AppserverIo/Appserver/ServletEngine/StandardGarbageCollector.php:215 | a probability of 0 triggers exactly on the draw 0 |
| Trigger.PointTerminatedAlwaysTriggers | src/AppserverIo/Appserver/ServletEngine/StandardGarbageCollector.php:211-215 | a numeral ending in a point has factor 0, so its only draw is 0 and it always triggers |
| Trigger.TriggersMonotone | src/AppserverIo/Appserver/ServletEngine/StandardGarbageCollector.php:215 | with equal factors, a numeral of at least the same value triggers on every draw a smaller one triggers on |
| Collector.SessionSavePath | src/AppserverIo/Appserver/ServletEngine/StandardGarbageCollector.php:182-194 | the result starts with the save path; it is the save path itself when toAppend is null or empty, and otherwise the save path, one separator, then toAppend |
| Collector.SessionFileInjective | src/AppserverIo/Appserver/ServletEngine/StandardGarbageCollector.php:251 | distinct session ids name distinct session files |
| Collector.SessionFileNotAmong | src/AppserverIo/Appserver/ServletEngine/StandardGarbageCollector.php:251-256 | the file of an id outside a set of ids is not among the files of that set |
| Collector.EvictionBounded | src/AppserverIo/Appserver/ServletEngine/StandardGarbageCollector.php:205-259 | a wake cycle evicts only stored ids, so the count never exceeds the storage's size |
| Collector.EvictionShrinksStore | src/AppserverIo/Appserver/ServletEngine/StandardGarbageCollector.php:236-259 | the storage shrinks by exactly the number of evicted sessions |
| Collector.NoSweepEvictsNothing | src/AppserverIo/Appserver/ServletEngine/StandardGarbageCollector.php:215-219 | a draw that does not trigger, or a timeout of 0, evicts nothing |
| Collector.RetainedEntry | src/AppserverIo/Appserver/ServletEngine/StandardGarbageCollector.php:221-228 | a value that is not an expired session stays in the storage unchanged and its file is not deleted, and so does every value when no sweep runs |
| Collector.ExpiredEvicted | src/AppserverIo/Appserver/ServletEngine/StandardGarbageCollector.php:228-256 | under a sweep, every expired session is evicted from the storage and its file is among the deleted ones |
| Collector.DestroyedAfterCycle | src/AppserverIo/Appserver/ServletEngine/StandardGarbageCollector.php:215-248 | after a wake cycle a stored session is destroyed exactly when it was before, or the cycle sweeps, the session is expired and its id is not null |
| Collector.EvictionStepsInOrder | src/AppserverIo/Appserver/ServletEngine/StandardGarbageCollector.php:232-256 | for every expired session the sweep visits, the trace holds its eviction consecutively: factory removal, storage removal, destruction when the id is not null, file deletion when the file existed |
| Collector.RetainedLeaveNoTrace | src/AppserverIo/Appserver/ServletEngine/StandardGarbageCollector.php:221-228 | a value that is not an expired session never has its id removed from factory or storage, no session with its id is destroyed, and its file is not deleted |
| Collector.StepLeavesNoTrace | src/AppserverIo/Appserver/ServletEngine/StandardGarbageCollector.php:228-256 | visiting one key touches no other stored id, expired or not, nor its file, and touches the key itself only when it holds an expired session |
| Collector.EvictSession | src/AppserverIo/Appserver/ServletEngine/StandardGarbageCollector.php:230-256 | evicting a session removes its id from factory and storage, destroys it exactly when its id is not null, deletes its file, and has exactly the ordered effects of EvictionEvents |
| Collector.VisitEntry | src/AppserverIo/Appserver/ServletEngine/StandardGarbageCollector.php:222-260 | one visit extends the sweep's progress by one key and destroys the visited session exactly when it is expired and has an id |
| Collector.CollectExpired | src/AppserverIo/Appserver/ServletEngine/StandardGarbageCollector.php:219-263 | the sweep visits every stored key once and evicts exactly the expired sessions (storage, factory, files, destroyed flags); it returns their number and its trace is SweepEvents of its visiting order |
| Collector.GarbageCollector.CollectGarbage | src/AppserverIo/Appserver/ServletEngine/StandardGarbageCollector.php:201-265 | one wake cycle for draw r: storage, factory, files and destroyed flags afterwards are given by Evicted; the count is its size, and no key is visited unless the cycle sweeps |
| Collector.GarbageCollector.InjectSessions | src/AppserverIo/Appserver/ServletEngine/StandardGarbageCollector.php:64-67 | getSessions returns the injected storage afterwards; the other collaborators are unchanged |
| Collector.GarbageCollector.InjectSessionFactory | src/AppserverIo/Appserver/ServletEngine/StandardGarbageCollector.php:76-79 | getSessionFactory returns the injected factory afterwards; the other collaborators are unchanged |
| Collector.GarbageCollector.InjectSessionSettings | src/AppserverIo/Appserver/ServletEngine/StandardGarbageCollector.php:88-91 | getSessionSettings returns the injected settings afterwards; the other collaborators are unchanged |
| Sessions.SessionStore.constructor | src/AppserverIo/Appserver/ServletEngine/StandardGarbageCollector.php:221-236 | a storage built from entries each filed under its own id holds exactly those entries and satisfies that invariant |
| Sessions.SessionStore.Remove | src/AppserverIo/Appserver/ServletEngine/StandardGarbageCollector.php:236 | removing an id drops exactly that key and keeps every session filed under its own id; an absent id is not an error |
| Sessions.SessionFactory.RemoveBySessionId | src/AppserverIo/Appserver/ServletEngine/StandardGarbageCollector.php:233 | the factory forgets exactly that id; an unknown id is not an error |
| Sessions.Session.Destroy | src/AppserverIo/Appserver/ServletEngine/StandardGarbageCollector.php:239-247 | the session is destroyed afterwards |
| Sessions.FileSystem.Unlink | src/AppserverIo/Appserver/ServletEngine/StandardGarbageCollector.php:254-256 | exactly the unlinked path no longer exists |
| Scenarios.ExampleSweep | src/AppserverIo/Appserver/ServletEngine/StandardGarbageCollector.php:215-256 | at 100 percent with a 60 s timeout, session A (idle 120 s) is evicted and B (idle 5 s) is kept; A's file is /var/sessions/sess_A, so of the two files only B's remains |
| Scenarios.SweepEvictsIdleSession | src/AppserverIo/Appserver/ServletEngine/StandardGarbageCollector.php:201-265 | a wired collector's wake cycle on A (idle 120 s) and B (idle 5 s) counts 1, leaves only B in storage and factory, destroys A and not B, and deletes A's file alone |
| Scenarios.ZeroTimeoutKeepsEverything | src/AppserverIo/Appserver/ServletEngine/StandardGarbageCollector.php:217-219 | with a timeout of 0, a session idle for 10,000 s stays in storage and factory, keeps its file and is not destroyed; the count is 0 |
| Scenarios.NullIdEvictedWithoutDestroy | src/AppserverIo/Appserver/ServletEngine/StandardGarbageCollector.php:230-259 | an expired session with a null id is removed from storage, loses its file /var/sessions/sess_ and is counted, but is not destroyed |

## Left out

- bootstrap, initialize, iterate and the profile logger are left out. They load the autoloader, log the storage's size, and sleep through the daemon's wake interval; no state of the sweep depends on them.
- Collector.CollectExpired, Collector.GarbageCollector.CollectGarbage: storages that break `KeyedById` are not modelled. The session manager files every session under its own id, so the storage the collector is given always holds it. Given a session filed under some other key, the code would still destroy it, delete the file named after its id and count it, but `remove($sessionId)` would leave it in the storage, or remove whatever other value is filed under that id.
- `rand` and `time` become parameters: the draw `r` and the time `now`.
- Collector.GarbageCollector.CollectGarbage: requires the storage, the factory and the settings to be injected, and the settings' inactivity timeout to be a PHP integer. In the code, missing settings are a fatal call on null at the first read of the probability; a missing factory is fatal once a session has expired; a missing storage makes the foreach warn and visit nothing, so the cycle evicts nothing. The timeout test `!== 0` is strict, so a timeout of "0" or 0.0 would not disable eviction but sweep with timeout 0, evicting every session idle for at least one second; the model's integer timeout cannot express such values.
- Collector.GarbageCollector.CollectGarbage: reads the clock once per cycle as `now`. The code calls `time()` anew for every session, so a clock that advances during a sweep is not modelled.
- Collector.CollectExpired: the visiting order is any enumeration of the storage's keys, taken from a snapshot of the storage at the start. The iteration semantics of the storage object and concurrent changes by request threads are not modelled.
- Trigger.Triggers: the probability is an exact decimal numeral. PHP's float-to-string conversion and float multiplication are not modelled. Nor are probability texts that are not plain decimal numerals, such as exponent forms or non-numeric settings.
- Sessions.Session.Destroy: the destroy message is kept as the data it is formatted from (`DestroyReason`), not as the `sprintf` string. What destroying does inside the session is not part of this model.
- Sessions.SessionStore.Remove, Sessions.SessionFactory.RemoveBySessionId: their internals and thread safety are reduced to their effect on the keys and ids.
- Sessions.FileSystem.Unlink: always succeeds. Failures, permissions and the difference between files and directories are not modelled. An empty prefix with a null id names the save path itself, which the model treats like any other path.
- `DIRECTORY_SEPARATOR` is fixed to `/`.
- A session's last-activity timestamp is constant during a sweep. Request threads that refresh it are not modelled.
- The injected loggers, and `src/AppserverIo/Appserver/Core/Api/Node/AppserverNode.php` (the configuration node), are not part of this model.
