/** `PyAudioManager` (pupil_audio/utils/pyaudio.py): hands out PyAudio
    sessions under a re-entrant lock and remembers which ones it handed out.
    Sessions are modelled as fresh numbers; the lock by its hold count. */
module Manager {
  import opened Wrappers

  /** `acquired` is `_acquired_managers`, `lockDepth` how often the RLock is
      held, `next` the number the next session gets. */
  datatype Manager = Manager(acquired: set<nat>, lockDepth: nat, next: nat)

  /** Every handed-out session is older than `next`, and the lock is held
      once per outstanding session. */
  predicate Valid(m: Manager)
  {
    (forall h :: h in m.acquired ==> h < m.next) && m.lockDepth == |m.acquired|
  }

  const Initial: Manager := Manager({}, 0, 0)

  /** `acquire_shared_instance`: a blocking RLock acquire always succeeds,
      so a new session is always created, recorded and returned. */
  function Acquire(m: Manager): (r: (Manager, Option<nat>))
    requires Valid(m)
    ensures Valid(r.0)
    ensures r.1.Some? && r.1.value !in m.acquired
    ensures r.0.acquired == m.acquired + {r.1.value}
    ensures r.0.lockDepth == m.lockDepth + 1
  {
    var h := m.next;
    (Manager(m.acquired + {h}, m.lockDepth + 1, m.next + 1), Some(h))
  }

  /** `release_shared_instance`: `None` is ignored; a session that was not
      handed out raises ValueError; otherwise it is forgotten, terminated and
      the lock released once. */
  function Release(m: Manager, session: Option<nat>): (r: Result<Manager>)
    requires Valid(m)
    ensures session.None? ==> r == Ok(m)
    ensures session.Some? && session.value !in m.acquired ==> r.Err? && r.error.ValueError?
    ensures session.Some? && session.value in m.acquired ==>
              r.Ok? && r.value.acquired == m.acquired - {session.value} && r.value.next == m.next
    ensures r.Ok? ==> Valid(r.value)
  {
    match session
    case None => Ok(m)
    case Some(h) =>
      if h !in m.acquired then
        Err(ValueError("instance was not acquired"))
      else
        CardRemove(m.acquired, h);
        Ok(Manager(m.acquired - {h}, m.lockDepth - 1, m.next))
  }

  lemma CardRemove(s: set<nat>, h: nat)
    requires h in s
    ensures |s - {h}| == |s| - 1
  {
    assert s == (s - {h}) + {h};
  }

  /** Releasing what was just acquired restores the acquired set and the
      lock count. */
  lemma AcquireRelease(m: Manager)
    requires Valid(m)
    ensures var (m1, h) := Acquire(m);
            Release(m1, h) == Ok(m.(next := m.next + 1))
  {
  }

  /** `shared_instance`: acquire, run `body` with the session, and release
      that session whatever the body did; the body's error, if any, is the
      context's error unless the release itself fails. */
  function SharedInstance<T>(m: Manager, body: (Manager, nat) -> (Manager, Result<T>)): (r: (Manager, Result<T>))
    requires Valid(m)
    requires forall m', h :: Valid(m') ==> Valid(body(m', h).0)
    ensures Valid(r.0)
  {
    var (m1, h) := Acquire(m);
    var (m2, result) := body(m1, h.value);
    match Release(m2, h)
    case Ok(m3) => (m3, result)
    case Err(e) => (m2, Err(e))
  }

  /** A body that leaves the sessions alone sees its result returned
      unchanged, errors included, and the manager ends with the sessions it
      started with: the acquired session was released. */
  lemma SharedInstanceReleases<T>(m: Manager, body: (Manager, nat) -> (Manager, Result<T>))
    requires Valid(m)
    requires forall m', h :: Valid(m') ==> Valid(body(m', h).0)
    requires forall m', h :: body(m', h).0.acquired == m'.acquired && body(m', h).0.next == m'.next
    ensures SharedInstance(m, body).1 == body(Acquire(m).0, Acquire(m).1.value).1
    ensures SharedInstance(m, body).0.acquired == m.acquired
    ensures SharedInstance(m, body).0.lockDepth == m.lockDepth
  {
    var (m1, h) := Acquire(m);
    var (m2, result) := body(m1, h.value);
    assert m2.acquired == m1.acquired;
    assert h.value in m2.acquired;
    var m3 := Release(m2, h).value;
    assert m3.acquired == m.acquired;
  }
}
