/** Tables of locks by key, trimmed by reference counts: whoever holds a lock for a key holds the one
    lock of that key, however often the table is trimmed in between.

    A reference is given back without the lock of the table, so counts fall while a call is under way.
    Each loop reads a count once, and giving back a reference to one lock commutes with reading the
    count of another, so it is enough to let references go between the loops. Which ones go is an
    input of the call. */
module KeyedLocks {
  const SESSION_LOCKS_BEFORE_TRIM: nat := 512
  const GIT_OPERATION_LOCK_MAX_ENTRIES: nat := 512

  /** Either table is looked through once it has 512 locks. */
  lemma Limits()
    ensures SESSION_LOCKS_BEFORE_TRIM == 512 && GIT_OPERATION_LOCK_MAX_ENTRIES == 512
  {
  }

  type Mutex = nat
  type HandleId = nat

  /** A clone of the reference to a lock that some task holds, and the key it was asked for by. */
  datatype Handle = Handle(key: string, mutex: Mutex)

  ghost function HeldOf(handles: map<HandleId, Handle>, m: Mutex): set<HandleId> {
    set h | h in handles && handles[h].mutex == m
  }

  /** Every lock in the table is counted once for the table and once for each handle, every handle
      is of the lock that the table has under its key, and no two keys share a lock. */
  ghost predicate IsCounted(locks: map<string, Mutex>, counts: map<Mutex, nat>, next: Mutex,
                            handles: map<HandleId, Handle>) {
    && (forall k | k in locks ::
            locks[k] < next && locks[k] in counts && counts[locks[k]] == 1 + |HeldOf(handles, locks[k])|)
    && (forall k, l | k in locks && l in locks && locks[k] == locks[l] :: k == l)
    && (forall h | h in handles :: handles[h].key in locks && locks[handles[h].key] == handles[h].mutex)
  }

  lemma HeldWith(handles: map<HandleId, Handle>, h: HandleId, handle: Handle, m: Mutex)
    requires h !in handles
    ensures |HeldOf(handles[h := handle], m)| == |HeldOf(handles, m)| + if handle.mutex == m then 1 else 0
  {
    var more := handles[h := handle];
    assert HeldOf(more, m) == HeldOf(handles, m) + if handle.mutex == m then {h} else {};
  }

  lemma HeldWithout(handles: map<HandleId, Handle>, h: HandleId, m: Mutex)
    requires h in handles
    ensures |HeldOf(handles, m)| == |HeldOf(handles - {h}, m)| + if handles[h].mutex == m then 1 else 0
  {
    var fewer := handles - {h};
    assert fewer[h := handles[h]] == handles;
    HeldWith(fewer, h, handles[h], m);
  }

  /** A lock that only the table refers to has no handle, so forgetting it breaks nothing. */
  lemma TrimmedIsCounted(locks: map<string, Mutex>, kept: map<string, Mutex>, counts: map<Mutex, nat>, next: Mutex,
                         handles: map<HandleId, Handle>)
    requires IsCounted(locks, counts, next, handles)
    requires forall k :: k in kept <==> k in locks && counts[locks[k]] > 1
    requires forall k | k in kept :: kept[k] == locks[k]
    ensures IsCounted(kept, counts, next, handles)
    ensures forall k | k in locks :: k in kept <==> HeldOf(handles, locks[k]) != {}
  {
    forall k | k in locks ensures k in kept <==> HeldOf(handles, locks[k]) != {} {
      assert k in kept <==> |HeldOf(handles, locks[k])| > 0;
    }
    forall h | h in handles ensures handles[h].key in kept {
      assert h in HeldOf(handles, handles[h].mutex);
      assert |HeldOf(handles, handles[h].mutex)| > 0;
    }
  }

  lemma HandlesTell(locks: map<string, Mutex>, counts: map<Mutex, nat>, next: Mutex, handles: map<HandleId, Handle>,
                    key: string)
    requires IsCounted(locks, counts, next, handles) && key in locks
    ensures forall g | g in handles :: handles[g].key == key <==> handles[g].mutex == locks[key]
  {
  }

  lemma CountTells(locks: map<string, Mutex>, counts: map<Mutex, nat>, next: Mutex, handles: map<HandleId, Handle>,
                   k: string)
    requires IsCounted(locks, counts, next, handles) && k in locks
    ensures locks[k] in counts && (counts[locks[k]] == 1 <==> HeldOf(handles, locks[k]) == {})
  {
  }

  lemma UnheldIsFree(locks: map<string, Mutex>, counts: map<Mutex, nat>, next: Mutex, handles: map<HandleId, Handle>,
                     k: string)
    requires IsCounted(locks, counts, next, handles) && k in locks && HeldOf(handles, locks[k]) == {}
    ensures IsCounted(locks - {k}, counts, next, handles)
  {
    forall h | h in handles ensures handles[h].key != k {
      assert h in HeldOf(handles, handles[h].mutex);
    }
  }

  /** The locks in the table that some task has a reference to. */
  ghost function HeldLocks(locks: map<string, Mutex>, handles: map<HandleId, Handle>): map<string, Mutex> {
    map k | k in locks && HeldOf(handles, locks[k]) != {} :: locks[k]
  }

  /** A new key comes to a full table, and there is a lock that nobody holds any more. */
  ghost predicate FindsIdle(locks: map<string, Mutex>, handles: map<HandleId, Handle>, key: string) {
    && key !in locks && |locks| >= GIT_OPERATION_LOCK_MAX_ENTRIES
    && exists k | k in locks :: HeldOf(handles, locks[k]) == {}
  }

  class LockTable {
    var locks: map<string, Mutex>
    /** `Arc::strong_count` of the locks. */
    var counts: map<Mutex, nat>
    var nextMutex: Mutex
    /** The references that tasks hold. */
    var handles: map<HandleId, Handle>

    ghost predicate Valid()
      reads this
    {
      IsCounted(locks, counts, nextMutex, handles)
    }

    constructor ()
      ensures Valid() && handles == map[] && locks == map[]
    {
      locks, counts, nextMutex, handles := map[], map[], 0, map[];
    }

    /** `locks.retain(|_, lock| Arc::strong_count(lock) > 1)`. */
    method Trim()
      requires Valid()
      modifies this`locks
      ensures Valid()
      ensures forall k :: k in locks <==> k in old(locks) && HeldOf(handles, old(locks)[k]) != {}
      ensures forall k | k in locks :: locks[k] == old(locks)[k]
    {
      hide HeldOf;
      var kept: map<string, Mutex> := map[];
      var todo := locks.Keys;
      while todo != {}
        invariant todo <= locks.Keys
        invariant forall k :: k in kept <==> k in locks && k !in todo && counts[locks[k]] > 1
        invariant forall k | k in kept :: kept[k] == locks[k]
        invariant locks == old(locks)
        decreases |todo|
      {
        var k :| k in todo;
        if counts[locks[k]] > 1 {
          kept := kept[k := locks[k]];
        }
        todo := todo - {k};
      }
      TrimmedIsCounted(locks, kept, counts, nextMutex, handles);
      locks := kept;
    }

    /** The search for a lock that only the table refers to. */
    method FindIdle() returns (idle: seq<string>)
      requires Valid()
      ensures |idle| <= 1 && forall k <- idle :: k in locks && HeldOf(handles, locks[k]) == {}
      ensures idle == [] ==> forall k | k in locks :: HeldOf(handles, locks[k]) != {}
    {
      hide HeldOf;
      var todo := locks.Keys;
      while todo != {}
        invariant todo <= locks.Keys && forall k | k in locks && k !in todo :: HeldOf(handles, locks[k]) != {}
        decreases |todo|
      {
        var k :| k in todo;
        CountTells(locks, counts, nextMutex, handles, k);
        if counts[locks[k]] == 1 {
          return [k];
        }
        todo := todo - {k};
      }
      idle := [];
    }

    /** Removes one idle lock, exactly if there is one, when a new key comes to a full table. */
    method DropOneIdle(key: string) returns (dropped: set<string>)
      requires Valid()
      modifies this`locks
      ensures Valid() && locks == old(locks) - dropped
      ensures |dropped| <= 1 && forall k <- dropped :: k in old(locks) && HeldOf(handles, old(locks)[k]) == {}
      ensures dropped != {} <==> FindsIdle(old(locks), handles, key)
    {
      hide HeldOf;
      dropped := {};
      if key !in locks && |locks| >= GIT_OPERATION_LOCK_MAX_ENTRIES {
        var idle := FindIdle();
        if idle != [] {
          assert idle[0] in idle;
          UnheldIsFree(locks, counts, nextMutex, handles, idle[0]);
          dropped := {idle[0]};
        }
      }
      locks := locks - dropped;
    }

    /** `locks.entry(key).or_insert_with(..)`. */
    method Entry(key: string)
      requires Valid()
      modifies this`locks, this`counts, this`nextMutex
      ensures Valid() && key in locks
      ensures forall k | k in old(locks) :: k in locks && locks[k] == old(locks)[k]
      ensures locks.Keys == old(locks).Keys + {key}
    {
      if key !in locks {
        NewLockIsUnheld(locks, counts, nextMutex, handles);
        locks := locks[key := nextMutex];
        counts := counts[nextMutex := 1];
        nextMutex := nextMutex + 1;
      }
    }

    /** `Arc::clone` of the lock under a key that is in the table. */
    method Clone(key: string, h: HandleId) returns (m: Mutex)
      requires Valid() && key in locks && h !in handles
      modifies this`counts, this`handles
      ensures Valid() && m == locks[key] && handles == old(handles)[h := Handle(key, m)]
    {
      m := locks[key];
      forall k | k in locks {
        HeldWith(handles, h, Handle(key, m), locks[k]);
      }
      counts := counts[m := counts[m] + 1];
      handles := handles[h := Handle(key, m)];
    }

    /** A holder is done and drops its reference. */
    method Drop(h: HandleId)
      requires Valid() && h in handles
      modifies this`counts, this`handles
      ensures Valid() && handles == old(handles) - {h}
    {
      var m := handles[h].mutex;
      forall k | k in locks {
        HeldWithout(handles, h, locks[k]);
      }
      assert locks[handles[h].key] == m;
      counts := counts[m := counts[m] - 1];
      handles := handles - {h};
    }

    /** Some holders drop theirs, in any order. */
    method Release(gone: set<HandleId>)
      requires Valid() && gone <= handles.Keys
      modifies this`counts, this`handles
      ensures Valid() && handles == old(handles) - gone
    {
      hide IsCounted;
      var todo := gone;
      while todo != {}
        invariant Valid() && todo <= gone && handles == old(handles) - (gone - todo)
        decreases |todo|
      {
        var h :| h in todo;
        Drop(h);
        todo := todo - {h};
      }
    }

    /** What `git_operation_lock` does before it looks the key up, while some holders drop their
        references: the idle locks go, and one of those that became idle since if a new key comes to
        a table that is still full. */
    method MakeSpace(key: string, gone: set<HandleId>) returns (dropped: set<string>)
      requires Valid() && gone <= handles.Keys
      modifies this`locks, this`counts, this`handles
      ensures Valid() && handles == old(handles) - gone
      ensures locks == HeldLocks(old(locks), old(handles)) - dropped
      ensures |dropped| <= 1 && dropped <= HeldLocks(old(locks), old(handles)).Keys
      ensures forall k <- dropped :: HeldOf(handles, old(locks)[k]) == {}
      ensures dropped != {} <==> FindsIdle(HeldLocks(old(locks), old(handles)), handles, key)
    {
      hide HeldOf, IsCounted, FindsIdle;
      Trim();
      assert locks == HeldLocks(old(locks), old(handles));
      Release(gone);
      dropped := DropOneIdle(key);
    }

    /** `git_operation_lock`, while the holders in `early` drop their references between the trim and
        the search, and those in `late` after the search. The lock returned is that of every
        outstanding reference for the key. Of the locks that were held when the call began one is
        removed exactly if the key is not among them, they fill the table, and one of them lost its
        last holder between the trim and the search; and that is then such a lock. */
    method GitOperationLock(key: string, h: HandleId, early: set<HandleId>, late: set<HandleId>)
      returns (m: Mutex, ghost dropped: set<string>)
      requires Valid() && h !in handles && early + late <= handles.Keys && early !! late
      modifies this
      ensures Valid() && handles == (old(handles) - early - late)[h := Handle(key, m)]
      ensures forall g | g in handles :: handles[g].key == key <==> handles[g].mutex == m
      ensures var held := HeldLocks(old(locks), old(handles));
              && locks.Keys == held.Keys - dropped + {key} && (forall k | k in held && k !in dropped ::
                                                               locks[k] == held[k])
              && |dropped| <= 1 && dropped <= held.Keys
              && (forall k <- dropped :: HeldOf(old(handles) - early, held[k]) == {})
              && (dropped != {} <==> FindsIdle(held, old(handles) - early, key))
    {
      hide HeldOf, IsCounted, FindsIdle;
      var gone := MakeSpace(key, early);
      dropped := gone;
      Entry(key);
      Release(late);
      m := Clone(key, h);
      HandlesTell(locks, counts, nextMutex, handles, key);
    }

    /** `session_operation_lock`, likewise: it trims only a table that is large and has no lock for the key. */
    method SessionOperationLock(key: string, h: HandleId, gone: set<HandleId>) returns (m: Mutex)
      requires Valid() && h !in handles && gone <= handles.Keys
      modifies this
      ensures Valid() && handles == (old(handles) - gone)[h := Handle(key, m)]
      ensures forall g | g in handles :: handles[g].key == key <==> handles[g].mutex == m
      ensures key in old(locks) ==> m == old(locks)[key]
    {
      hide HeldOf, IsCounted;
      if |locks| >= SESSION_LOCKS_BEFORE_TRIM && key !in locks {
        Trim();
      }
      Entry(key);
      Release(gone);
      m := Clone(key, h);
      HandlesTell(locks, counts, nextMutex, handles, key);
    }
  }

  // ----- the search does find a lock -----

  /** Keys that differ in their length. */
  function KeyOf(i: nat): (key: string)
    ensures |key| == i
  {
    seq(i, _ => 'k')
  }

  /** Every lock of the table is held through one reference, that of its number. */
  ghost predicate IsFilled(locks: map<string, Mutex>, handles: map<HandleId, Handle>, n: nat) {
    && |locks| == n
    && (forall h: HandleId :: h in handles <==> h < n)
    && (forall h | h in handles ::
            handles[h].key == KeyOf(h) && handles[h].key in locks && locks[handles[h].key] == handles[h].mutex)
    && (forall k | k in locks :: |k| < n && k == KeyOf(|k|))
  }

  lemma FilledMore(locks: map<string, Mutex>, handles: map<HandleId, Handle>, more: map<string, Mutex>, n: nat,
                   m: Mutex)
    requires IsFilled(locks, handles, n)
    requires more.Keys == locks.Keys + {KeyOf(n)} && more[KeyOf(n)] == m && forall k | k in locks :: more[k] == locks[k]
    ensures IsFilled(more, handles[n := Handle(KeyOf(n), m)], n + 1)
  {
    hide KeyOf;
    assert KeyOf(n) !in locks;
    assert |more.Keys| == |locks.Keys| + 1;
  }

  lemma FilledIsHeld(locks: map<string, Mutex>, handles: map<HandleId, Handle>, n: nat)
    requires IsFilled(locks, handles, n)
    ensures HeldLocks(locks, handles) == locks
    ensures n !in handles && |locks| == n && KeyOf(n) !in locks
    ensures forall k | k in locks :: HeldOf(handles, locks[k]) != {}
  {
    hide KeyOf;
    forall k | k in locks ensures HeldOf(handles, locks[k]) != {} {
      assert |k| in handles && handles[|k|].key == k;
      assert |k| in HeldOf(handles, locks[k]);
    }
  }

  /** Without its one reference the first lock is idle, and no other is. */
  lemma FirstIsIdle(locks: map<string, Mutex>, counts: map<Mutex, nat>, next: Mutex, handles: map<HandleId, Handle>,
                    n: nat)
    requires IsCounted(locks, counts, next, handles) && IsFilled(locks, handles, n) && n > 0
    ensures KeyOf(0) in locks
    ensures forall k | k in locks :: HeldOf(handles - {0}, locks[k]) == {} <==> k == KeyOf(0)
  {
    hide KeyOf;
    assert 0 in handles && handles[0].key == KeyOf(0);
    forall k | k in locks ensures HeldOf(handles - {0}, locks[k]) == {} <==> k == KeyOf(0) {
      assert |k| in handles && handles[|k|].key == k;
      if k == KeyOf(0) {
        forall h | h in handles - {0} ensures handles[h].mutex != locks[k] {
          assert |KeyOf(h)| == h && handles[h].key == KeyOf(h);
        }
      } else {
        assert |k| in HeldOf(handles - {0}, locks[k]);
      }
    }
  }

  lemma NotFull(locks: map<string, Mutex>, handles: map<HandleId, Handle>, key: string)
    requires |locks| < GIT_OPERATION_LOCK_MAX_ENTRIES
    ensures !FindsIdle(locks, handles, key)
  {
  }

  lemma NobodyGone(handles: map<HandleId, Handle>)
    ensures handles - {} == handles
  {
  }

  /** A call that nobody interferes with, on a table that has room and no idle lock. */
  method CallAlone(t: LockTable, key: string, h: HandleId) returns (m: Mutex)
    requires t.Valid() && h !in t.handles && |t.locks| < GIT_OPERATION_LOCK_MAX_ENTRIES
    requires HeldLocks(t.locks, t.handles) == t.locks
    modifies t
    ensures t.Valid() && t.handles == old(t.handles)[h := Handle(key, m)]
    ensures t.locks.Keys == old(t.locks).Keys + {key} && t.locks[key] == m
    ensures forall k | k in old(t.locks) :: t.locks[k] == old(t.locks)[k]
  {
    NotFull(t.locks, t.handles - {}, key);
    NobodyGone(t.handles);
    hide *;
    ghost var dropped;
    m, dropped := t.GitOperationLock(key, h, {}, {});
    KeyHasLock(t.locks, t.counts, t.nextMutex, t.handles, h);
  }

  method FillOne(t: LockTable, n: nat)
    requires t.Valid() && IsFilled(t.locks, t.handles, n) && n < GIT_OPERATION_LOCK_MAX_ENTRIES
    modifies t
    ensures t.Valid() && IsFilled(t.locks, t.handles, n + 1)
  {
    FilledIsHeld(t.locks, t.handles, n);
    hide *;
    ghost var locks, handles := t.locks, t.handles;
    var m := CallAlone(t, KeyOf(n), n);
    FilledMore(locks, handles, t.locks, n, m);
  }

  lemma KeyHasLock(locks: map<string, Mutex>, counts: map<Mutex, nat>, next: Mutex, handles: map<HandleId, Handle>,
                   h: HandleId)
    requires IsCounted(locks, counts, next, handles) && h in handles
    ensures handles[h].key in locks && locks[handles[h].key] == handles[h].mutex
  {
  }

  /** With 512 held locks in the table and the one holder of the first gone between the trim and the
      search, a call for one more key removes the first lock. */
  method SearchFindsOne() returns (t: LockTable, ghost dropped: set<string>)
    ensures fresh(t) && t.Valid() && dropped == {KeyOf(0)} && KeyOf(0) !in t.locks
            && |t.locks| == GIT_OPERATION_LOCK_MAX_ENTRIES
  {
    hide IsCounted, HeldOf, KeyOf, HeldLocks;
    t := new LockTable();
    for n := 0 to GIT_OPERATION_LOCK_MAX_ENTRIES
      invariant fresh(t) && t.Valid() && IsFilled(t.locks, t.handles, n)
    {
      FillOne(t, n);
    }
    dropped := CallOnceMore(t);
  }

  method CallOnceMore(t: LockTable) returns (ghost dropped: set<string>)
    requires t.Valid() && IsFilled(t.locks, t.handles, GIT_OPERATION_LOCK_MAX_ENTRIES)
    modifies t
    ensures t.Valid() && dropped == {KeyOf(0)} && KeyOf(0) !in t.locks && |t.locks| == GIT_OPERATION_LOCK_MAX_ENTRIES
  {
    hide IsCounted, HeldOf, KeyOf, HeldLocks;
    var n := GIT_OPERATION_LOCK_MAX_ENTRIES;
    FilledIsHeld(t.locks, t.handles, n);
    FirstIsIdle(t.locks, t.counts, t.nextMutex, t.handles, n);
    ghost var locks := t.locks;
    var m;
    m, dropped := t.GitOperationLock(KeyOf(n), n, {0}, {});
    OneFewer(locks.Keys, dropped, KeyOf(0), KeyOf(n));
  }

  lemma OneFewer(keys: set<string>, dropped: set<string>, first: string, last: string)
    requires first in keys && last !in keys && |dropped| <= 1 && dropped != {} && forall k <- dropped :: k == first
    ensures dropped == {first} && |keys - dropped + {last}| == |keys|
  {
    var k :| k in dropped;
    assert |keys - {first}| == |keys| - 1;
  }

  lemma NewLockIsUnheld(locks: map<string, Mutex>, counts: map<Mutex, nat>, next: Mutex, handles: map<HandleId, Handle>)
    requires IsCounted(locks, counts, next, handles)
    ensures HeldOf(handles, next) == {}
  {
    forall h | h in handles ensures handles[h].mutex != next {
      assert locks[handles[h].key] < next;
    }
  }

  /** Who has locked what: each lock is locked through at most one handle, and that is a handle of it. */
  ghost predicate IsLocking(t: LockTable, lockedBy: map<Mutex, HandleId>)
    reads t
  {
    forall m | m in lockedBy :: lockedBy[m] in t.handles && t.handles[lockedBy[m]].mutex == m
  }

  /** Critical sections of one key exclude each other: two tasks that have locked the lock they were
      given for the same key are the same one, however often the table was trimmed in between. */
  lemma OneSectionPerKey(t: LockTable, lockedBy: map<Mutex, HandleId>, m: Mutex, n: Mutex)
    requires t.Valid() && IsLocking(t, lockedBy) && m in lockedBy && n in lockedBy
    ensures t.handles[lockedBy[m]].key == t.handles[lockedBy[n]].key <==> m == n
  {
  }
}
