/**
 * The shared/exclusive test lock of an event (serverless/src/storage_admin_lock.rs).
 * The lock document lists shared holders with their expiry and at most one
 * exclusive holder; acquiring prunes expired holders, optionally clears all
 * of them, and then grants a shared lock unless someone holds it
 * exclusively, or an exclusive lock only when nobody holds it at all.
 * Times are whole seconds; an expiry the document stores but that does not
 * parse is `None`.
 */
module AdminLock {
  import opened Wrappers

  datatype Holder = Holder(token: string, expiresAt: Option<int>)
  datatype TestLockMode = Shared | Exclusive

  /** The document's contents as a value. */
  datatype LockState = LockState(shared: map<string, Option<int>>, exclusive: Option<Holder>)

  /** The lock's invariant: never an exclusive holder beside shared ones. */
  predicate NeverBoth(s: LockState) {
    !(s.exclusive.Some? && |s.shared| > 0)
  }

  /** An expiry that parses and lies after now. */
  predicate Live(expiresAt: Option<int>, now: int) {
    expiresAt.Some? && expiresAt.value > now
  }

  // ----- the steps as functions of the document -----

  /** Shared holders whose expiry is not after now, or does not parse, are dropped; so is such an exclusive holder. */
  function Pruned(s: LockState, now: int): (r: LockState)
    ensures r.shared.Keys <= s.shared.Keys
    ensures forall t :: t in r.shared ==> r.shared[t] == s.shared[t] && Live(r.shared[t], now)
    ensures forall t :: t in s.shared && Live(s.shared[t], now) ==> t in r.shared
    ensures r.exclusive.Some? <==> s.exclusive.Some? && Live(s.exclusive.value.expiresAt, now)
    ensures r.exclusive.Some? ==> r.exclusive == s.exclusive
  {
    var shared := map t | t in s.shared && Live(s.shared[t], now) :: s.shared[t];
    var exclusive := if s.exclusive.Some? && Live(s.exclusive.value.expiresAt, now) then s.exclusive else None;
    LockState(shared, exclusive)
  }

  /** The expiry written for a new holder: ttl seconds from now, at least one. */
  function ExpiryFor(now: int, ttlSecs: int): (e: int)
    ensures e > now && e >= now + ttlSecs
    ensures ttlSecs >= 1 ==> e == now + ttlSecs
    ensures ttlSecs < 1 ==> e == now + 1
  {
    now + (if ttlSecs > 1 then ttlSecs else 1)
  }

  /** The outcome of an acquire: (acquired, is_first) and the document afterwards. */
  datatype Acquired = Acquired(acquired: bool, isFirst: bool, state: LockState)

  function SharedAcquire(s: LockState, token: string, expiresAt: int): (r: Acquired)
    ensures !r.acquired <==> s.exclusive.Some?
    ensures !r.acquired ==> !r.isFirst && r.state == s
    ensures r.acquired ==> (r.isFirst <==> |s.shared| == 0) && token in r.state.shared && NeverBoth(r.state)
    ensures r.acquired ==> r.state == LockState(s.shared[token := Some(expiresAt)], None)
  {
    if s.exclusive.Some? then Acquired(false, false, s)
    else Acquired(true, |s.shared| == 0, s.(shared := s.shared[token := Some(expiresAt)]))
  }

  function ExclusiveAcquire(s: LockState, token: string, expiresAt: int): (r: Acquired)
    ensures r.acquired <==> s.exclusive.None? && |s.shared| == 0
    ensures r.acquired ==> r.isFirst && r.state == LockState(map[], Some(Holder(token, Some(expiresAt))))
    ensures !r.acquired ==> !r.isFirst && r.state == s
  {
    if s.exclusive.Some? || |s.shared| > 0 then Acquired(false, false, s)
    else Acquired(true, true, s.(exclusive := Some(Holder(token, Some(expiresAt)))))
  }

  /** `admin_test_lock` on the document: prune, clear when forced, then acquire in the given mode. */
  function Lock(s: LockState, token: string, ttlSecs: int, mode: TestLockMode, force: bool, now: int): Acquired {
    var pruned := Pruned(s, now);
    var ready := if force then LockState(map[], None) else pruned;
    var expiresAt := ExpiryFor(now, ttlSecs);
    match mode
    case Shared => SharedAcquire(ready, token, expiresAt)
    case Exclusive => ExclusiveAcquire(ready, token, expiresAt)
  }

  /** `admin_test_unlock` on the document: drop the token, then the expired shared holders; true when none remain. */
  function Unlocked(s: LockState, token: string, now: int): (r: (bool, LockState))
    ensures token !in r.1.shared && (r.1.exclusive.Some? ==> r.1.exclusive.value.token != token)
    ensures r.0 <==> |r.1.shared| == 0 && r.1.exclusive.None?
    ensures r.1.shared.Keys <= s.shared.Keys
    ensures forall t :: t in r.1.shared ==> r.1.shared[t] == s.shared[t] && Live(r.1.shared[t], now)
    ensures forall t :: t in s.shared && t != token && Live(s.shared[t], now) ==> t in r.1.shared
    ensures s.exclusive.Some? && s.exclusive.value.token != token ==> r.1.exclusive == s.exclusive
  {
    var shared := s.shared - {token};
    var exclusive := if s.exclusive.Some? && s.exclusive.value.token == token then None else s.exclusive;
    var kept := map t | t in shared && Live(shared[t], now) :: shared[t];
    var after := LockState(kept, exclusive);
    (|kept| == 0 && exclusive.None?, after)
  }

  // ----- properties -----

  /** Every operation keeps the lock's invariant, and a granted lock establishes it whatever the document held. */
  lemma LockKeepsNeverBoth(s: LockState, token: string, ttlSecs: int, mode: TestLockMode, force: bool, now: int)
    ensures NeverBoth(s) ==> NeverBoth(Lock(s, token, ttlSecs, mode, force, now).state)
    ensures Lock(s, token, ttlSecs, mode, force, now).acquired ==> NeverBoth(Lock(s, token, ttlSecs, mode, force, now).state)
  {
    var p := Pruned(s, now);
    if NeverBoth(s) {
      assert p.shared.Keys <= s.shared.Keys;
      assert |p.shared| > 0 ==> |s.shared| > 0 by {
        if |p.shared| > 0 {
          var t :| t in p.shared;
        }
      }
    }
  }

  lemma UnlockKeepsNeverBoth(s: LockState, token: string, now: int)
    requires NeverBoth(s)
    ensures NeverBoth(Unlocked(s, token, now).1)
  {
    var r := Unlocked(s, token, now).1;
    if |r.shared| > 0 {
      var t :| t in r.shared;
      assert t in s.shared;
    }
  }

  /** A forced lock is always granted, and in exclusive mode it is the first. */
  lemma ForceAlwaysAcquires(s: LockState, token: string, ttlSecs: int, mode: TestLockMode, now: int)
    ensures Lock(s, token, ttlSecs, mode, true, now).acquired
    ensures Lock(s, token, ttlSecs, mode, true, now).isFirst
  {
  }

  /** A granted holder is still live at the time it was granted, so pruning at that time keeps it. */
  lemma NewHolderSurvivesPrune(s: LockState, token: string, ttlSecs: int, mode: TestLockMode, force: bool, now: int)
    requires Lock(s, token, ttlSecs, mode, force, now).acquired
    ensures var st := Lock(s, token, ttlSecs, mode, force, now).state;
      if mode == Shared then token in Pruned(st, now).shared
      else Pruned(st, now).exclusive == Some(Holder(token, Some(ExpiryFor(now, ttlSecs))))
  {
  }

  /** A holder whose expiry passed cannot block anyone: after it expires an exclusive lock is granted. */
  lemma ExpiredExclusiveDoesNotBlock(h: Holder, token: string, ttlSecs: int, mode: TestLockMode, now: int)
    requires !Live(h.expiresAt, now)
    ensures Lock(LockState(map[], Some(h)), token, ttlSecs, mode, false, now).acquired
  {
  }

  // ----- the document as an object -----

  class TestLockDoc {
    var sharedHolders: map<string, Option<int>>
    var exclusiveHolder: Option<Holder>

    function State(): LockState
      reads this
    {
      LockState(sharedHolders, exclusiveHolder)
    }

    /** The document used when none is stored. */
    constructor Empty()
      ensures State() == LockState(map[], None)
    {
      sharedHolders := map[];
      exclusiveHolder := None;
    }

    /** The two `retain`/expiry passes. */
    method PruneExpired(now: int)
      modifies this
      ensures State() == Pruned(old(State()), now)
    {
      sharedHolders := map t | t in sharedHolders && Live(sharedHolders[t], now) :: sharedHolders[t];
      if exclusiveHolder.Some? {
        var expired := !Live(exclusiveHolder.value.expiresAt, now);
        if expired {
          exclusiveHolder := None;
        }
      }
    }

    method AcquireSharedLock(token: string, expiresAt: int) returns (acquired: bool, isFirst: bool)
      modifies this
      ensures Acquired(acquired, isFirst, State()) == SharedAcquire(old(State()), token, expiresAt)
    {
      if exclusiveHolder.Some? {
        return false, false;
      }
      isFirst := |sharedHolders| == 0;
      sharedHolders := sharedHolders[token := Some(expiresAt)];
      acquired := true;
    }

    method AcquireExclusiveLock(token: string, expiresAt: int) returns (acquired: bool, isFirst: bool)
      modifies this
      ensures Acquired(acquired, isFirst, State()) == ExclusiveAcquire(old(State()), token, expiresAt)
    {
      if exclusiveHolder.Some? || |sharedHolders| > 0 {
        return false, false;
      }
      exclusiveHolder := Some(Holder(token, Some(expiresAt)));
      acquired, isFirst := true, true;
    }

    /** `admin_test_lock` once the document is read; `now` stands for the wall clock. */
    method AdminTestLock(token: string, ttlSecs: int, mode: TestLockMode, force: bool, now: int)
      returns (acquired: bool, isFirst: bool)
      modifies this
      ensures Acquired(acquired, isFirst, State()) == Lock(old(State()), token, ttlSecs, mode, force, now)
    {
      PruneExpired(now);
      if force {
        sharedHolders := map[];
        exclusiveHolder := None;
      }
      var expiresAt := now + (if ttlSecs > 1 then ttlSecs else 1);
      match mode {
        case Shared =>
          acquired, isFirst := AcquireSharedLock(token, expiresAt);
        case Exclusive =>
          acquired, isFirst := AcquireExclusiveLock(token, expiresAt);
      }
    }

    /** `admin_test_unlock` once the document is read. */
    method AdminTestUnlock(token: string, now: int) returns (isLast: bool)
      modifies this
      ensures (isLast, State()) == Unlocked(old(State()), token, now)
    {
      sharedHolders := sharedHolders - {token};
      if exclusiveHolder.Some? && exclusiveHolder.value.token == token {
        exclusiveHolder := None;
      }
      sharedHolders := map t | t in sharedHolders && Live(sharedHolders[t], now) :: sharedHolders[t];
      isLast := |sharedHolders| == 0 && exclusiveHolder.None?;
    }
  }

  /** Unlocking when no document is stored reports the last holder gone. */
  method AdminTestUnlockStored(doc: TestLockDoc?, token: string, now: int) returns (isLast: bool)
    modifies doc
    ensures doc == null ==> isLast
    ensures doc != null ==> (isLast, doc.State()) == Unlocked(old(doc.State()), token, now)
  {
    if doc == null {
      return true;
    }
    isLast := doc.AdminTestUnlock(token, now);
  }
}
