/**
  The collaborators the garbage collector works on: servlet sessions, the session
  storage they live in, the session factory's index of ids, and the filesystem that
  holds persisted session files. Their internals are not part of this model; each
  offers the operation the sweep calls, stated by its effect.
*/
module Sessions {

  /** The data of the diagnostic a session is destroyed with. */
  datatype DestroyReason = Inactive(id: string, idleSeconds: int, timeout: int)

  /**
    A servlet session. An id of "" stands for PHP's null as well as the empty string,
    the two values that `!= null` does not tell apart. The last-activity timestamp is
    fixed for the duration of a sweep.
  */
  class Session {
    const id: string
    const lastActivity: int
    var destroyed: bool

    constructor (id: string, lastActivity: int)
      ensures this.id == id && this.lastActivity == lastActivity && !destroyed
    {
      this.id := id;
      this.lastActivity := lastActivity;
      destroyed := false;
    }

    /** ServletSessionInterface::destroy; destroying a destroyed session is harmless. */
    method Destroy(reason: DestroyReason)
      modifies this
      ensures destroyed
    {
      destroyed := true;
    }
  }

  /** A value held by the session storage: a session, or something that is not one. */
  datatype Entry = Live(session: Session) | Other

  /** Every session in the storage is stored under its own id. */
  predicate KeyedById(entries: map<string, Entry>) {
    forall k | k in entries && entries[k].Live? :: entries[k].session.id == k
  }

  /** The session objects the storage holds. */
  ghost function LiveSessions(entries: map<string, Entry>): set<Session> {
    set k | k in entries && entries[k].Live? :: entries[k].session
  }

  /** The destroyed flag of every session the storage holds, by key. */
  ghost function DestroyedFlags(entries: map<string, Entry>): map<string, bool>
    reads LiveSessions(entries)
  {
    map k | k in entries && entries[k].Live? :: entries[k].session.destroyed
  }

  /** The flag held for a key is the destroyed flag of the session stored under it. */
  lemma DestroyedFlagOf(entries: map<string, Entry>, k: string)
    requires k in entries && entries[k].Live?
    ensures k in DestroyedFlags(entries) && DestroyedFlags(entries)[k] == entries[k].session.destroyed
  {
  }

  /** The session storage (StorageInterface): values keyed by session id. */
  class SessionStore {
    var entries: map<string, Entry>

    /** A storage holding entries, each session filed under its own id. */
    constructor (entries: map<string, Entry>)
      requires KeyedById(entries)
      ensures this.entries == entries && Valid()
    {
      this.entries := entries;
    }

    ghost predicate Valid()
      reads this
    {
      KeyedById(entries)
    }

    /** Removes the value stored under id; an absent id is not an error. */
    method Remove(id: string)
      requires Valid()
      modifies this
      ensures Valid()
      ensures entries == old(entries) - {id}
    {
      entries := entries - {id};
    }
  }

  /** The session factory, seen as the index of session ids it keeps for reuse. */
  class SessionFactory {
    var ids: set<string>

    constructor (ids: set<string>)
      ensures this.ids == ids
    {
      this.ids := ids;
    }

    /** Forgets id; an unknown id is not an error. */
    method RemoveBySessionId(id: string)
      modifies this
      ensures ids == old(ids) - {id}
    {
      ids := ids - {id};
    }
  }

  /** The filesystem, seen as the set of paths that exist. */
  class FileSystem {
    var paths: set<string>

    constructor (paths: set<string>)
      ensures this.paths == paths
    {
      this.paths := paths;
    }

    predicate FileExists(path: string)
      reads this
    {
      path in paths
    }

    method Unlink(path: string)
      modifies this
      ensures paths == old(paths) - {path}
    {
      paths := paths - {path};
    }
  }
}
