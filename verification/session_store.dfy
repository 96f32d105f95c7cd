/**
 * The in-memory session registry (`SessionManager`): a map from session id to the
 * index and agent built for one upload, with a sliding idle timeout. A session expires
 * once strictly more than `timeout` seconds have passed since it was last accessed.
 * The clock and the uuid generator are inputs: every operation takes `now`, and
 * creation takes the new id.
 */
module SessionStore {
  import opened Base
  import opened Documents
  import opened Workflow
  import Config

  /** `SessionData`. */
  datatype Session = Session(id: string, vectorStore: IndexHandle, agent: Agent, createdAt: int, lastAccessed: int)

  /** A `SessionManager`: its session map and its timeout in seconds. */
  datatype Store = Store(sessions: map<string, Session>, timeout: int)

  function NewStore(timeout: int): (st: Store)
    ensures st.sessions == map[] && st.timeout == timeout
  {
    Store(map[], timeout)
  }

  /**
   * The module-level `session_manager`, built with the constructor's own default rather than
   * the configured `session_timeout`; both happen to be 3600.
   */
  function Global(): (st: Store)
    ensures st.sessions == map[] && st.timeout == Config.DefaultSessionTimeout
  {
    NewStore(3600)
  }

  /** Idle for strictly longer than the timeout at time `now`. */
  predicate Expired(timeout: int, s: Session, now: int) {
    now - s.lastAccessed > timeout
  }

  /** The ids of the sessions still alive at time `now`. */
  function LiveIds(st: Store, now: int): set<string> {
    set id | id in st.sessions && !Expired(st.timeout, st.sessions[id], now)
  }

  /** `_cleanup_expired_sessions`: drop every session that has expired at time `now`. */
  function Sweep(st: Store, now: int): (r: Store)
    ensures r.timeout == st.timeout
    ensures forall id :: id in r.sessions <==> id in st.sessions && !Expired(st.timeout, st.sessions[id], now)
    ensures forall id :: id in r.sessions ==> r.sessions[id] == st.sessions[id]
  {
    st.(sessions := map id | id in st.sessions && !Expired(st.timeout, st.sessions[id], now) :: st.sessions[id])
  }

  /**
   * `create_session`: store a fresh session under `id`, overwriting any session already
   * stored there, then sweep. With a negative timeout the new session is swept at once.
   */
  function Create(st: Store, id: string, vectorStore: IndexHandle, agent: Agent, now: int): (r: Store)
    ensures r.timeout == st.timeout
    ensures st.timeout >= 0 ==> id in r.sessions && r.sessions[id] == Session(id, vectorStore, agent, now, now)
    ensures st.timeout < 0 ==> id !in r.sessions
    ensures forall k :: k != id ==>
              (k in r.sessions <==> k in st.sessions && !Expired(st.timeout, st.sessions[k], now))
    ensures forall k :: k != id && k in r.sessions ==> r.sessions[k] == st.sessions[k]
    ensures forall k :: k in r.sessions ==> !Expired(r.timeout, r.sessions[k], now)
  {
    Sweep(st.(sessions := st.sessions[id := Session(id, vectorStore, agent, now, now)]), now)
  }

  /**
   * `get_session`: an unknown id gives nothing; an expired session is removed and gives
   * nothing; a live one has its last-access time moved to `now` and is returned. No other
   * session is swept.
   */
  function Get(st: Store, id: string, now: int): (r: (Store, Option<Session>))
    ensures r.0.timeout == st.timeout
    ensures r.1.Some? <==> id in st.sessions && !Expired(st.timeout, st.sessions[id], now)
    ensures r.1.Some? ==> r.1.value == st.sessions[id].(lastAccessed := now) && r.0.sessions == st.sessions[id := r.1.value]
    ensures r.1.None? && id in st.sessions ==> r.0.sessions == st.sessions - {id}
    ensures id !in st.sessions ==> r.0 == st
  {
    if id !in st.sessions then (st, None)
    else
      var s := st.sessions[id];
      if Expired(st.timeout, s, now) then (st.(sessions := st.sessions - {id}), None)
      else
        var refreshed := s.(lastAccessed := now);
        (st.(sessions := st.sessions[id := refreshed]), Some(refreshed))
  }

  /** `delete_session`: remove `id`, reporting whether it was there; expiry is not consulted. */
  function Delete(st: Store, id: string): (r: (Store, bool))
    ensures r.1 <==> id in st.sessions
    ensures r.0.sessions == st.sessions - {id} && r.0.timeout == st.timeout
  {
    (st.(sessions := st.sessions - {id}), id in st.sessions)
  }

  /** `get_active_sessions_count`: sweep, then count what is left. */
  function ActiveCount(st: Store, now: int): (r: (Store, nat))
    ensures r.0 == Sweep(st, now)
    ensures r.1 == |LiveIds(st, now)|
  {
    var swept := Sweep(st, now);
    assert swept.sessions.Keys == LiveIds(st, now);
    (swept, |swept.sessions|)
  }

  /** `cleanup_all_sessions`. */
  function ClearAll(st: Store): (r: Store)
    ensures r.sessions == map[] && r.timeout == st.timeout
  {
    st.(sessions := map[])
  }

  /** Every session is stored under its own id and was accessed no later than `now`, never before its creation. */
  ghost predicate WellFormed(st: Store, now: int) {
    forall id :: id in st.sessions ==>
      && st.sessions[id].id == id
      && st.sessions[id].createdAt <= st.sessions[id].lastAccessed <= now
  }

  /** Every operation keeps the store well formed, as long as the clock does not run backwards. */
  lemma OperationsPreserveWellFormed(st: Store, before: int, now: int, id: string, vs: IndexHandle, agent: Agent)
    requires WellFormed(st, before) && before <= now
    ensures WellFormed(Sweep(st, now), now)
    ensures WellFormed(Create(st, id, vs, agent, now), now)
    ensures WellFormed(Get(st, id, now).0, now)
    ensures WellFormed(Delete(st, id).0, now)
    ensures WellFormed(ActiveCount(st, now).0, now)
    ensures WellFormed(ClearAll(st), now)
  {
  }

  /** Sweeping twice at the same time removes nothing more. */
  lemma SweepIdempotent(st: Store, now: int)
    ensures Sweep(Sweep(st, now), now) == Sweep(st, now)
  {
  }

  /** Expiry is monotone in time: a later sweep subsumes an earlier one. */
  lemma SweepLaterSubsumes(st: Store, earlier: int, later: int)
    requires earlier <= later
    ensures Sweep(Sweep(st, earlier), later) == Sweep(st, later)
  {
  }

  /** A session created at `created` is found, refreshed, at any time up to and including `created + timeout`. */
  lemma GetAfterCreate(st: Store, id: string, vs: IndexHandle, agent: Agent, created: int, now: int)
    requires 0 <= st.timeout && created <= now <= created + st.timeout
    ensures Get(Create(st, id, vs, agent, created), id, now).1 == Some(Session(id, vs, agent, created, now))
  {
  }

  /** Strictly after `created + timeout` with no access in between, the session is gone and removed. */
  lemma GetAfterTimeout(st: Store, id: string, vs: IndexHandle, agent: Agent, created: int, now: int)
    requires 0 <= st.timeout && now > created + st.timeout
    ensures Get(Create(st, id, vs, agent, created), id, now).1 == None
    ensures id !in Get(Create(st, id, vs, agent, created), id, now).0.sessions
  {
  }

  /** Each successful access restarts the idle window: the session survives another `timeout` seconds. */
  lemma GetSlidesWindow(st: Store, id: string, t1: int, t2: int)
    requires Get(st, id, t1).1.Some?
    requires t1 <= t2 <= t1 + st.timeout
    ensures Get(Get(st, id, t1).0, id, t2).1 == Some(st.sessions[id].(lastAccessed := t2))
  {
  }

  /** Deleting twice reports `false` the second time and changes nothing more. */
  lemma DeleteIdempotent(st: Store, id: string)
    ensures Delete(Delete(st, id).0, id) == (Delete(st, id).0, false)
  {
    assert (st.sessions - {id}) - {id} == st.sessions - {id};
  }

  /** A deleted session cannot be fetched. */
  lemma GetAfterDelete(st: Store, id: string, now: int)
    ensures Get(Delete(st, id).0, id, now).1 == None
  {
  }

  /** Creating a session under an unused id adds exactly one to the live count. */
  lemma CountAfterCreate(st: Store, id: string, vs: IndexHandle, agent: Agent, now: int)
    requires st.timeout >= 0 && id !in st.sessions
    ensures ActiveCount(Create(st, id, vs, agent, now), now).1 == ActiveCount(st, now).1 + 1
  {
    var c := Create(st, id, vs, agent, now);
    assert LiveIds(c, now) == LiveIds(st, now) + {id};
  }

  /** Deleting a live session removes exactly one from the live count. */
  lemma CountAfterDelete(st: Store, id: string, now: int)
    requires id in st.sessions && !Expired(st.timeout, st.sessions[id], now)
    ensures ActiveCount(Delete(st, id).0, now).1 == ActiveCount(st, now).1 - 1
  {
    assert LiveIds(Delete(st, id).0, now) == LiveIds(st, now) - {id};
  }

  /** After clearing, nothing is live and nothing can be fetched. */
  lemma CountAfterClear(st: Store, id: string, now: int)
    ensures ActiveCount(ClearAll(st), now).1 == 0
    ensures Get(ClearAll(st), id, now).1 == None
  {
    assert LiveIds(ClearAll(st), now) == {};
  }
}
