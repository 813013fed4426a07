/**
  Per-path locks with reference counts. Entries are created on first use and deleted when the
  last user leaves, while other threads come and go; every step between two lock operations is atomic.
*/
module Locks {
  import opened Outcomes

  type Path = string
  type ThreadId = nat
  type EntryId = nat

  datatype Entry = Entry(refCount: int, holder: Option<ThreadId>)

  /** Where one acquisition stands: the entry it took a reference to is the one it goes on using. */
  datatype Phase =
    | Idle
    | Waiting(path: Path, entry: EntryId)      // in Lock, reference taken
    | Trying(path: Path, entry: EntryId)       // in TryLock, reference taken
    | Held(path: Path, entry: EntryId)
    | Leaving(path: Path, entry: EntryId)      // entry unlocked or not obtained, reference still to be given back

  datatype State = State(locks: map<Path, EntryId>, entries: map<EntryId, Entry>, threads: map<ThreadId, Phase>)

  datatype Event =
    | Refer(t: ThreadId, path: Path, tries: bool, unused: EntryId)
    | Acquire(t: ThreadId)
    | TryAcquire(t: ThreadId)
    | Unlock(t: ThreadId)
    | Release(t: ThreadId)

  function PhaseOf(s: State, t: ThreadId): Phase {
    if t in s.threads then s.threads[t] else Idle
  }

  function Move(s: State, t: ThreadId, ph: Phase): State {
    s.(threads := s.threads[t := ph])
  }

  function EntryFor(s: State, path: Path, unused: EntryId): EntryId {
    if path in s.locks then s.locks[path] else unused
  }

  function LookedUp(s: State, path: Path, unused: EntryId): State {
    if path in s.locks then s else s.(locks := s.locks[path := unused], entries := s.entries[unused := Entry(0, None)])
  }

  function Counted(s: State, t: ThreadId, path: Path, tries: bool, e: EntryId): State
    requires e in s.entries
  {
    s.(entries := s.entries[e := s.entries[e].(refCount := s.entries[e].refCount + 1)],
       threads := s.threads[t := if tries then Trying(path, e) else Waiting(path, e)])
  }

  /** First critical section: look up or create the entry and count one more user. */
  function ReferTo(s: State, t: ThreadId, path: Path, tries: bool, unused: EntryId): State
    requires path in s.locks ==> s.locks[path] in s.entries
  {
    Counted(LookedUp(s, path, unused), t, path, tries, EntryFor(s, path, unused))
  }

  function SetHolder(s: State, e: EntryId, holder: Option<ThreadId>): State
    requires e in s.entries
  {
    s.(entries := s.entries[e := s.entries[e].(holder := holder)])
  }

  /** Last critical section: count one user less and delete what the map has under the path at zero. */
  function GiveBack(s: State, t: ThreadId, path: Path, e: EntryId): State
    requires e in s.entries
  {
    var n := s.entries[e].refCount - 1;
    State(if n <= 0 then s.locks - {path} else s.locks, s.entries[e := s.entries[e].(refCount := n)], s.threads[t := Idle])
  }

  ghost predicate Enabled(s: State, e: Event) {
    var ph := PhaseOf(s, e.t);
    match e
    case Refer(t, path, tries, unused) => ph.Idle? && unused !in s.entries
    case Acquire(t) => ph.Waiting? && ph.entry in s.entries && s.entries[ph.entry].holder.None?
    case TryAcquire(t) => ph.Trying?
    case Unlock(t) => ph.Held?
    case Release(t) => ph.Leaving?
  }

  /** One step; unlocking a mutex that is not locked is a fatal error. */
  ghost function Step(s: State, e: Event): Outcome<State>
    requires Enabled(s, e)
  {
    var ph := PhaseOf(s, e.t);
    match e
    case Refer(t, path, tries, unused) =>
      if path in s.locks && s.locks[path] !in s.entries then Panic else Done(ReferTo(s, t, path, tries, unused))
    case Acquire(t) => Done(Move(SetHolder(s, ph.entry, Some(t)), t, Held(ph.path, ph.entry)))
    case TryAcquire(t) =>
      if ph.entry !in s.entries then Panic
      else if s.entries[ph.entry].holder.None? then Done(Move(SetHolder(s, ph.entry, Some(t)), t, Held(ph.path, ph.entry)))
      else Done(Move(s, t, Leaving(ph.path, ph.entry)))
    case Unlock(t) =>
      if ph.entry !in s.entries || s.entries[ph.entry].holder.None? then Panic
      else Done(Move(SetHolder(s, ph.entry, None), t, Leaving(ph.path, ph.entry)))
    case Release(t) =>
      if ph.entry !in s.entries then Panic else Done(GiveBack(s, t, ph.path, ph.entry))
  }

  // ---------- invariant ----------

  /** Threads between taking and giving back a reference to the entry. */
  ghost function Users(threads: map<ThreadId, Phase>, e: EntryId): set<ThreadId> {
    set t | t in threads && !threads[t].Idle? && threads[t].entry == e
  }

  ghost predicate ThreadOk(s: State, t: ThreadId)
    requires t in s.threads
  {
    var ph := s.threads[t];
    !ph.Idle? ==> && ph.path in s.locks && s.locks[ph.path] == ph.entry && ph.entry in s.entries
                  && (ph.Held? <==> s.entries[ph.entry].holder == Some(t))
  }

  ghost predicate ThreadsOk(s: State) {
    forall t :: t in s.threads ==> ThreadOk(s, t)
  }

  ghost predicate LocksOk(s: State) {
    && (forall p :: p in s.locks ==> s.locks[p] in s.entries && s.entries[s.locks[p]].refCount > 0)
    && (forall p, q :: p in s.locks && q in s.locks && s.locks[p] == s.locks[q] ==> p == q)
  }

  ghost predicate CountsOk(s: State) {
    forall e :: e in s.entries ==> s.entries[e].refCount == |Users(s.threads, e)|
  }

  ghost predicate HoldersOk(s: State) {
    forall e :: e in s.entries && s.entries[e].holder.Some? ==>
      var t := s.entries[e].holder.value; t in s.threads && s.threads[t].Held? && s.threads[t].entry == e
  }

  ghost predicate Inv(s: State) {
    ThreadsOk(s) && LocksOk(s) && CountsOk(s) && HoldersOk(s)
  }

  lemma UsersMove(threads: map<ThreadId, Phase>, t: ThreadId, ph: Phase, e: EntryId)
    ensures |Users(threads[t := ph], e)| == |Users(threads, e)|
            + (if !ph.Idle? && ph.entry == e then 1 else 0)
            - (if t in threads && !threads[t].Idle? && threads[t].entry == e then 1 else 0)
  {
    var was, now := Users(threads, e), Users(threads[t := ph], e);
    var rest := was - {t};
    assert was == if t in threads && !threads[t].Idle? && threads[t].entry == e then rest + {t} else rest;
    assert now == if !ph.Idle? && ph.entry == e then rest + {t} else rest;
  }

  lemma SoleUser(threads: map<ThreadId, Phase>, e: EntryId, t: ThreadId, u: ThreadId)
    requires t in Users(threads, e) && u in Users(threads, e) && t != u
    ensures |Users(threads, e)| >= 2
  {
    assert {t, u} <= Users(threads, e);
    var rest := Users(threads, e) - {t, u};
    assert Users(threads, e) == rest + {t, u};
  }

  lemma NoUsers(s: State, e: EntryId)
    requires Inv(s) && e !in s.entries
    ensures Users(s.threads, e) == {}
  {
    forall t | t in s.threads ensures t !in Users(s.threads, e) {
      assert ThreadOk(s, t);
    }
  }

  lemma ReferKeeps(s: State, t: ThreadId, path: Path, tries: bool, unused: EntryId)
    requires Inv(s) && PhaseOf(s, t).Idle? && unused !in s.entries
    ensures Inv(ReferTo(s, t, path, tries, unused))
  {
    ReferThreads(s, t, path, tries, unused);
    ReferCounts(s, t, path, tries, unused);
    ReferLocks(s, t, path, tries, unused);
    hide *;
  }

  lemma ReferThreads(s: State, t: ThreadId, path: Path, tries: bool, unused: EntryId)
    requires Inv(s) && PhaseOf(s, t).Idle? && unused !in s.entries
    ensures ThreadsOk(ReferTo(s, t, path, tries, unused)) && HoldersOk(ReferTo(s, t, path, tries, unused))
  {
    hide Users, CountsOk;
    var s1 := ReferTo(s, t, path, tries, unused);
    forall u | u in s1.threads ensures ThreadOk(s1, u) {
      if u != t {
        assert ThreadOk(s, u);
      }
    }
  }

  lemma ReferCounts(s: State, t: ThreadId, path: Path, tries: bool, unused: EntryId)
    requires Inv(s) && PhaseOf(s, t).Idle? && unused !in s.entries
    ensures CountsOk(ReferTo(s, t, path, tries, unused))
  {
    var s1 := ReferTo(s, t, path, tries, unused);
    NoUsers(s, unused);
    hide Users, ThreadsOk, HoldersOk;
    forall e | e in s1.entries ensures s1.entries[e].refCount == |Users(s1.threads, e)| {
      UsersMove(s.threads, t, s1.threads[t], e);
    }
  }

  lemma ReferLocks(s: State, t: ThreadId, path: Path, tries: bool, unused: EntryId)
    requires Inv(s) && unused !in s.entries
    ensures LocksOk(ReferTo(s, t, path, tries, unused))
  {
    hide ThreadsOk, HoldersOk, Users;
  }

  lemma AcquireKeeps(s: State, t: ThreadId)
    requires Inv(s) && (PhaseOf(s, t).Waiting? || PhaseOf(s, t).Trying?)
    requires PhaseOf(s, t).entry in s.entries && s.entries[PhaseOf(s, t).entry].holder.None?
    ensures var ph := PhaseOf(s, t); Inv(Move(SetHolder(s, ph.entry, Some(t)), t, Held(ph.path, ph.entry)))
  {
    var ph := PhaseOf(s, t);
    var s1 := Move(SetHolder(s, ph.entry, Some(t)), t, Held(ph.path, ph.entry));
    assert ThreadOk(s, t);
    forall e | e in s1.entries ensures s1.entries[e].refCount == |Users(s1.threads, e)| {
      UsersMove(s.threads, t, s1.threads[t], e);
    }
    forall u | u in s1.threads ensures ThreadOk(s1, u) {
      if u != t {
        assert ThreadOk(s, u);
      }
    }
  }

  lemma GiveUpKeeps(s: State, t: ThreadId)
    requires Inv(s) && PhaseOf(s, t).Trying?
    ensures var ph := PhaseOf(s, t); Inv(Move(s, t, Leaving(ph.path, ph.entry)))
  {
    var ph := PhaseOf(s, t);
    var s1 := Move(s, t, Leaving(ph.path, ph.entry));
    assert ThreadOk(s, t);
    forall e | e in s1.entries ensures s1.entries[e].refCount == |Users(s1.threads, e)| {
      UsersMove(s.threads, t, s1.threads[t], e);
    }
    forall u | u in s1.threads ensures ThreadOk(s1, u) {
      if u != t {
        assert ThreadOk(s, u);
      }
    }
  }

  lemma UnlockKeeps(s: State, t: ThreadId)
    requires Inv(s) && PhaseOf(s, t).Held?
    ensures var ph := PhaseOf(s, t);
            && ph.entry in s.entries && s.entries[ph.entry].holder == Some(t)
            && Inv(Move(SetHolder(s, ph.entry, None), t, Leaving(ph.path, ph.entry)))
  {
    var ph := PhaseOf(s, t);
    assert ThreadOk(s, t);
    var s1 := Move(SetHolder(s, ph.entry, None), t, Leaving(ph.path, ph.entry));
    forall e | e in s1.entries ensures s1.entries[e].refCount == |Users(s1.threads, e)| {
      UsersMove(s.threads, t, s1.threads[t], e);
    }
    forall u | u in s1.threads ensures ThreadOk(s1, u) {
      if u != t {
        assert ThreadOk(s, u);
      }
    }
  }

  /** The last user's delete hits its own entry: nobody else refers to it, and the map has no other there. */
  lemma ReleaseKeeps(s: State, t: ThreadId)
    requires Inv(s) && PhaseOf(s, t).Leaving?
    ensures var ph := PhaseOf(s, t); ph.entry in s.entries && Inv(GiveBack(s, t, ph.path, ph.entry))
  {
    var ph := PhaseOf(s, t);
    assert ThreadOk(s, t);
    var s1 := GiveBack(s, t, ph.path, ph.entry);
    assert t in Users(s.threads, ph.entry);
    forall e | e in s1.entries ensures s1.entries[e].refCount == |Users(s1.threads, e)| {
      UsersMove(s.threads, t, Idle, e);
    }
    forall u | u in s1.threads ensures ThreadOk(s1, u) {
      if u != t {
        assert ThreadOk(s, u);
        if u in Users(s.threads, ph.entry) {
          SoleUser(s.threads, ph.entry, t, u);
        }
      }
    }
  }

  /** Every step keeps the invariant, and no step is a fatal error. */
  lemma StepKeeps(s: State, e: Event)
    requires Inv(s) && Enabled(s, e)
    ensures Step(s, e).Done? && Inv(Step(s, e).value)
  {
    match e
    case Refer(t, path, tries, unused) => ReferKeeps(s, t, path, tries, unused);
    case Acquire(t) => AcquireKeeps(s, t);
    case TryAcquire(t) =>
      assert ThreadOk(s, t);
      if s.entries[PhaseOf(s, t).entry].holder.None? {
        AcquireKeeps(s, t);
      } else {
        GiveUpKeeps(s, t);
      }
    case Unlock(t) => UnlockKeeps(s, t);
    case Release(t) => ReleaseKeeps(s, t);
  }

  /** A thread is inside the path. */
  ghost predicate Occupied(s: State, path: Path) {
    exists u :: u in s.threads && s.threads[u].Held? && s.threads[u].path == path
  }

  lemma HolderIsInside(s: State, t: ThreadId)
    requires Inv(s) && !PhaseOf(s, t).Idle?
    ensures PhaseOf(s, t).entry in s.entries
    ensures s.entries[PhaseOf(s, t).entry].holder.Some? <==> Occupied(s, PhaseOf(s, t).path)
  {
    var ph := s.threads[t];
    assert ThreadOk(s, t);
    if s.entries[ph.entry].holder.Some? {
      var u := s.entries[ph.entry].holder.value;
      assert ThreadOk(s, u) && s.threads[u].path == ph.path;
    }
    if u :| u in s.threads && s.threads[u].Held? && s.threads[u].path == ph.path {
      assert ThreadOk(s, u);
    }
  }

  /** No call but that of `t` has moved; that one is where `now` says. */
  ghost predicate OnlyMoved(s: State, s1: State, t: ThreadId, now: Phase) {
    PhaseOf(s1, t) == now && forall u :: u != t ==> PhaseOf(s1, u) == PhaseOf(s, u)
  }

  /** A call refers to the path it was made for, and waits or tries from then on. */
  lemma ReferMoves(s: State, t: ThreadId, path: Path, tries: bool, unused: EntryId)
    requires Inv(s) && Enabled(s, Refer(t, path, tries, unused))
    ensures Step(s, Refer(t, path, tries, unused)).Done?
    ensures var s1 := Step(s, Refer(t, path, tries, unused)).value;
            && OnlyMoved(s, s1, t, PhaseOf(s1, t)) && (if tries then PhaseOf(s1, t).Trying? else PhaseOf(s1, t).Waiting?)
            && PhaseOf(s1, t).path == path
  {
    StepKeeps(s, Refer(t, path, tries, unused));
    hide Inv;
  }

  /** A waiting call comes to be inside only when nobody is; a try, exactly when nobody is, and otherwise it leaves. */
  lemma EnterMoves(s: State, t: ThreadId)
    requires Inv(s) && (PhaseOf(s, t).Waiting? || PhaseOf(s, t).Trying?)
    ensures var ph := PhaseOf(s, t);
            && (ph.Waiting? && Enabled(s, Acquire(t)) ==>
                  !Occupied(s, ph.path) && OnlyMoved(s, Step(s, Acquire(t)).value, t, Held(ph.path, ph.entry)))
            && (ph.Trying? ==>
                  && Enabled(s, TryAcquire(t)) && Step(s, TryAcquire(t)).Done?
                  && OnlyMoved(s, Step(s, TryAcquire(t)).value, t,
                               if Occupied(s, ph.path) then Leaving(ph.path, ph.entry) else Held(ph.path, ph.entry)))
  {
    HolderIsInside(s, t);
    hide Inv, Occupied;
  }

  /** Leaving a path leaves it empty, and giving the reference back ends the call. */
  lemma LeaveMoves(s: State, t: ThreadId)
    requires Inv(s) && (PhaseOf(s, t).Held? || PhaseOf(s, t).Leaving?)
    ensures var ph := PhaseOf(s, t);
            && (ph.Held? ==>
                  && Step(s, Unlock(t)).Done? && !Occupied(Step(s, Unlock(t)).value, ph.path)
                  && OnlyMoved(s, Step(s, Unlock(t)).value, t, Leaving(ph.path, ph.entry)))
            && (ph.Leaving? ==> Step(s, Release(t)).Done? && OnlyMoved(s, Step(s, Release(t)).value, t, Idle))
  {
    if PhaseOf(s, t).Held? {
      UnlockKeeps(s, t);
      HolderIsInside(Step(s, Unlock(t)).value, t);
    } else {
      ReleaseKeeps(s, t);
    }
    hide Inv, Occupied;
  }

  // ---------- runs ----------

  const START := State(map[], map[], map[])

  ghost predicate Possible(s: State, es: seq<Event>)
    decreases |es|
  {
    es == [] || (Enabled(s, es[0]) && (Step(s, es[0]).Done? ==> Possible(Step(s, es[0]).value, es[1..])))
  }

  ghost function Run(s: State, es: seq<Event>): Outcome<State>
    requires Possible(s, es)
    decreases |es|
  {
    if es == [] then Done(s)
    else
      var s1 :- Step(s, es[0]);
      Run(s1, es[1..])
  }

  lemma {:induction false} RunKeeps(s: State, es: seq<Event>)
    requires Inv(s) && Possible(s, es)
    ensures Run(s, es).Done? && Inv(Run(s, es).value)
    decreases |es|
  {
    if es != [] {
      StepKeeps(s, es[0]);
      RunKeeps(Step(s, es[0]).value, es[1..]);
    }
  }

  /**
    In every interleaving: at most one thread is inside a path's critical section; reference
    counts are the numbers of users; a path has an entry exactly while somebody uses it.
  */
  lemma MutualExclusion(es: seq<Event>, t: ThreadId, u: ThreadId)
    requires Possible(START, es)
    ensures Run(START, es).Done?
    ensures var s := Run(START, es).value;
            && (PhaseOf(s, t).Held? && PhaseOf(s, u).Held? && PhaseOf(s, t).path == PhaseOf(s, u).path ==> t == u)
            && (forall p :: p in s.locks <==> exists v :: v in s.threads && !s.threads[v].Idle? && s.threads[v].path == p)
            && (forall p :: p in s.locks ==> s.locks[p] in s.entries
                                             && s.entries[s.locks[p]].refCount == |Users(s.threads, s.locks[p])|)
  {
    RunKeeps(START, es);
    var s := Run(START, es).value;
    if PhaseOf(s, t).Held? && PhaseOf(s, u).Held? {
      assert ThreadOk(s, t) && ThreadOk(s, u);
    }
    forall p ensures p in s.locks <==> exists v :: v in s.threads && !s.threads[v].Idle? && s.threads[v].path == p {
      InUse(s, p);
    }
  }

  lemma InUse(s: State, p: Path)
    requires Inv(s)
    ensures p in s.locks <==> exists v :: v in s.threads && !s.threads[v].Idle? && s.threads[v].path == p
  {
    if p in s.locks {
      var e := s.locks[p];
      assert |Users(s.threads, e)| > 0;
      var v :| v in Users(s.threads, e);
      assert ThreadOk(s, v);
    }
    if exists v :: v in s.threads && !s.threads[v].Idle? && s.threads[v].path == p {
      var v :| v in s.threads && !s.threads[v].Idle? && s.threads[v].path == p;
      assert ThreadOk(s, v);
    }
  }

  /** A waiting thread whose path nobody is inside can go in: no wake-up is lost to a deleted entry. */
  lemma FreePathCanBeEntered(s: State, t: ThreadId)
    requires Inv(s) && PhaseOf(s, t).Waiting?
    requires forall u :: u in s.threads && s.threads[u].Held? ==> s.threads[u].path != PhaseOf(s, t).path
    ensures Enabled(s, Acquire(t))
  {
    var ph := PhaseOf(s, t);
    assert forall u :: u in s.threads ==> ThreadOk(s, u);
  }

  // ---------- the manager object ----------

  class LockEntry {
    ghost const id: EntryId
    var refCount: int
    var locked: bool                       // the entry's mutex
    ghost var holder: Option<ThreadId>

    constructor (ghost id: EntryId)
      ensures this.id == id && refCount == 0 && !locked && holder == None
    {
      this.id := id;
      refCount, locked, holder := 0, false, None;
    }
  }

  /**
    The manager. Each method is one atomic step of `Lock`, `TryLock` or an unlock closure, called
    with the entry the call has in its hands; `threads` follows where the calls stand.
  */
  class LockManager {
    var locks: map<Path, LockEntry>
    ghost var made: seq<LockEntry>
    ghost var threads: map<ThreadId, Phase>

    ghost predicate Registered(e: LockEntry)
      reads this`made
    {
      e.id < |made| && made[e.id] == e
    }

    ghost predicate Valid()
      reads this`made, this`locks, made
    {
      && (forall i :: 0 <= i < |made| ==> made[i].id == i && made[i].locked == made[i].holder.Some?)
      && (forall p :: p in locks ==> Registered(locks[p]))
    }

    ghost function LocksView(): map<Path, EntryId>
      reads this`locks
    {
      map p | p in locks :: locks[p].id
    }

    ghost function EntriesView(): map<EntryId, Entry>
      reads this`made, made
    {
      map i: nat | i < |made| :: Entry(made[i].refCount, made[i].holder)
    }

    ghost function View(): State
      reads this, made
    {
      State(LocksView(), EntriesView(), threads)
    }

    constructor ()
      ensures Valid() && View() == START && Inv(View())
    {
      locks, made, threads := map[], [], map[];
      new;
      assert View().entries == map[];
    }

    /** The critical section at the start of `Lock` and `TryLock`. */
    method Refer(ghost t: ThreadId, path: Path, ghost tries: bool) returns (entry: LockEntry)
      requires Valid() && Inv(View()) && PhaseOf(View(), t).Idle?
      modifies this, made
      ensures Valid() && Inv(View()) && Registered(entry)
      ensures View() == ReferTo(old(View()), t, path, tries, |old(made)|) && PhaseOf(View(), t).entry == entry.id
    {
      ReferKeeps(View(), t, path, tries, |made|);
      hide Inv, LookedUp, EntryFor;
      entry := LookUp(path);
      Count(t, path, tries, entry);
    }

    method LookUp(path: Path) returns (entry: LockEntry)
      requires Valid()
      modifies this`locks, this`made
      ensures Valid() && Registered(entry) && (entry in old(made) || fresh(entry))
      ensures entry.id == EntryFor(old(View()), path, |old(made)|)
      ensures View() == LookedUp(old(View()), path, |old(made)|)
    {
      if path in locks {
        entry := locks[path];
      } else {
        ghost var s := View();
        entry := NewEntry();
        hide EntriesView;
        locks := locks[path := entry];
        assert View().locks == s.locks[path := entry.id];
      }
    }

    method NewEntry() returns (entry: LockEntry)
      requires Valid()
      modifies this`made
      ensures Valid() && Registered(entry) && fresh(entry) && entry.id == |old(made)|
      ensures View() == old(View()).(entries := old(View()).entries[|old(made)| := Entry(0, None)])
    {
      ghost var s := View();
      entry := new LockEntry(|made|);
      made := made + [entry];
      hide LocksView;
      assert View().entries == s.entries[entry.id := Entry(0, None)];
    }

    method Count(ghost t: ThreadId, path: Path, ghost tries: bool, entry: LockEntry)
      requires Valid() && Registered(entry)
      modifies this`threads, entry`refCount
      ensures Valid() && View() == Counted(old(View()), t, path, tries, entry.id)
    {
      hide Valid, Registered, LocksView, EntriesView;
      Recount(entry, entry.refCount + 1);
      threads := threads[t := if tries then Trying(path, entry.id) else Waiting(path, entry.id)];
    }

    /** `entry.mu.Lock()` coming through. */
    method LockEntryMutex(ghost t: ThreadId, entry: LockEntry)
      requires Valid() && Inv(View()) && Registered(entry) && !entry.locked
      requires PhaseOf(View(), t).Waiting? && PhaseOf(View(), t).entry == entry.id
      modifies this`threads, entry`locked, entry`holder
      ensures Valid() && Inv(View()) && Enabled(old(View()), Acquire(t)) && Step(old(View()), Acquire(t)) == Done(View())
    {
      StepKeeps(View(), Acquire(t));
      hide Inv;
      SetMutex(t, entry, true);
    }

    /** Locks or unlocks the entry's mutex. */
    method SetMutex(ghost t: ThreadId, entry: LockEntry, lock: bool)
      requires Valid() && Registered(entry) && !PhaseOf(View(), t).Idle? && PhaseOf(View(), t).entry == entry.id
      modifies this`threads, entry`locked, entry`holder
      ensures Valid()
      ensures var ph := PhaseOf(old(View()), t);
              View() == Move(SetHolder(old(View()), ph.entry, if lock then Some(t) else None), t,
                             if lock then Held(ph.path, ph.entry) else Leaving(ph.path, ph.entry))
    {
      ghost var s, ph := View(), threads[t];
      entry.locked, entry.holder := lock, if lock then Some(t) else None;
      threads := threads[t := if lock then Held(ph.path, ph.entry) else Leaving(ph.path, ph.entry)];
      assert View().entries == SetHolder(s, entry.id, entry.holder).entries;
    }

    /** `entry.mu.TryLock()`. */
    method TryLockEntryMutex(ghost t: ThreadId, entry: LockEntry) returns (ok: bool)
      requires Valid() && Inv(View()) && Registered(entry)
      requires PhaseOf(View(), t).Trying? && PhaseOf(View(), t).entry == entry.id
      modifies this`threads, entry`locked, entry`holder
      ensures Valid() && Inv(View()) && Step(old(View()), TryAcquire(t)) == Done(View())
      ensures ok == !old(entry.locked)
    {
      StepKeeps(View(), TryAcquire(t));
      hide Inv;
      assert View().entries[entry.id] == Entry(entry.refCount, entry.holder);
      ok := !entry.locked;
      if ok {
        SetMutex(t, entry, true);
      } else {
        Yield(t);
      }
    }

    ghost method Yield(t: ThreadId)
      requires !PhaseOf(View(), t).Idle? && Valid()
      modifies this`threads
      ensures Valid() && View() == Move(old(View()), t, Leaving(PhaseOf(old(View()), t).path, PhaseOf(old(View()), t).entry))
    {
      threads := threads[t := Leaving(threads[t].path, threads[t].entry)];
    }

    /** `entry.mu.Unlock()` in the unlock closure: the mutex is locked, by this caller. */
    method UnlockEntryMutex(ghost t: ThreadId, entry: LockEntry)
      requires Valid() && Inv(View()) && Registered(entry)
      requires PhaseOf(View(), t).Held? && PhaseOf(View(), t).entry == entry.id
      modifies this`threads, entry`locked, entry`holder
      ensures Valid() && Inv(View()) && Step(old(View()), Unlock(t)) == Done(View())
    {
      UnlockKeeps(View(), t);
      hide Inv;
      assert View().entries[entry.id] == Entry(entry.refCount, entry.holder);
      assert entry.locked;                               // fatal otherwise
      SetMutex(t, entry, false);
    }

    /** The critical section that gives the reference back, and deletes the entry with its last user. */
    method Unrefer(ghost t: ThreadId, path: Path, entry: LockEntry)
      requires Valid() && Inv(View()) && Registered(entry) && PhaseOf(View(), t) == Leaving(path, entry.id)
      modifies this`threads, this`locks, entry`refCount
      ensures Valid() && Inv(View()) && Step(old(View()), Release(t)) == Done(View())
    {
      StepKeeps(View(), Release(t));
      hide Inv;
      Uncount(t, path, entry);
    }

    method Uncount(ghost t: ThreadId, path: Path, entry: LockEntry)
      requires Valid() && Registered(entry)
      modifies this`threads, this`locks, entry`refCount
      ensures Valid() && View() == GiveBack(old(View()), t, path, entry.id)
    {
      hide Valid, Registered, LocksView, EntriesView;
      Recount(entry, entry.refCount - 1);
      if entry.refCount <= 0 {
        Delete(path);
      }
      threads := threads[t := Idle];
    }

    method Delete(path: Path)
      requires Valid()
      modifies this`locks
      ensures Valid() && View() == old(View()).(locks := old(View()).locks - {path})
    {
      ghost var s := View();
      locks := locks - {path};
      assert View().locks == s.locks - {path};
    }

    method Recount(entry: LockEntry, n: int)
      requires Valid() && Registered(entry)
      modifies entry`refCount
      ensures Valid() && entry.refCount == n
      ensures old(View()).entries[entry.id].refCount == old(entry.refCount)
      ensures View() == old(View()).(entries := old(View()).entries[entry.id := old(View()).entries[entry.id].(refCount := n)])
    {
      ghost var s := View();
      entry.refCount := n;
      assert View().entries == s.entries[entry.id := s.entries[entry.id].(refCount := n)];
    }
  }
}
