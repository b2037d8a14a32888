/**
 * Several threads using one store of sessions, step by step: the check of the size, the two searches
 * for a victim, the removal of a session and that of its stamp, the insertion and the new stamp are
 * separate, so the cap may be overrun. By how much depends on whether live sessions lose their stamps.
 */
module TttThreads {
  import opened Common

  /**
   * Where a thread is in creating a session. `Scanning` searches the stamps: `unstamped` are the
   * sessions that have been without one at some moment since it began. `Checking` has found no stamp
   * and searches the sessions for one without: `stamped` are those that have had a stamp since, or
   * came in since. `Dropping` has removed its victim's session and not yet its stamp.
   */
  datatype Phase =
    | Idle
    | Making(id: string)
    | Scanning(id: string, unstamped: set<string>)
    | Checking(id: string, unstamped: set<string>, stamped: set<string>)
    | Dropping(id: string, victim: string)
    | Ready(id: string)
    | Inserted(id: string)

  /** `stripped` are the live sessions whose stamp was removed while they were live. */
  datatype World = World(sessions: set<string>, touched: set<string>, stripped: set<string>, threads: seq<Phase>)

  /**
   * `Use` is a call that finds its session and stamps it. `Forget` and `Remove` are the halves of
   * taking a session, stamp first, and of clearing the store, sessions first.
   */
  datatype Step =
    | Begin(t: nat, id: string)
    | Pass(t: nat)
    | Look(t: nat)
    | Check(t: nat)
    | Evict(t: nat, victim: string)
    | Drop(t: nat)
    | GiveUp(t: nat)
    | Fail(t: nat)
    | Insert(t: nat)
    | Stamp(t: nat)
    | Use(id: string)
    | Forget(id: string)
    | Remove(id: string)

  predicate Searching(p: Phase) { p.Scanning? || p.Checking? }

  /**
   * A step may be taken. A thread stops making room when it finds the store below its cap, or when
   * neither search finds a victim: then every session but its own had no stamp when the stamps were
   * searched, and had one, or was not there yet, when the sessions were. The victim may be gone by the
   * time it is removed, and creating the state of the new session may fail.
   */
  predicate Enabled(w: World, s: Step, cap: nat) {
    match s
    case Begin(t, id) => t < |w.threads| && w.threads[t] == Idle && id !in w.sessions
    case Pass(t) => t < |w.threads| && w.threads[t].Making? && |w.sessions| < cap
    case Look(t) => t < |w.threads| && w.threads[t].Making?
    case Check(t) => t < |w.threads| && w.threads[t].Scanning?
    case Evict(t, victim) => t < |w.threads| && Searching(w.threads[t]) && victim != w.threads[t].id
    case Drop(t) => t < |w.threads| && w.threads[t].Dropping?
    case GiveUp(t) => t < |w.threads| && w.threads[t].Checking? && w.sessions - {w.threads[t].id} <= w.threads[t].unstamped * w.threads[t].stamped
    case Fail(t) => t < |w.threads| && w.threads[t].Ready?
    case Insert(t) => t < |w.threads| && w.threads[t].Ready?
    case Stamp(t) => t < |w.threads| && w.threads[t].Inserted?
    case _ => true
  }

  // ---------- what the other threads' searches may see of a step ----------

  function Each(threads: seq<Phase>, f: Phase -> Phase): seq<Phase> {
    seq(|threads|, i requires 0 <= i < |threads| => f(threads[i]))
  }

  function SeesEntry(x: string): Phase -> Phase {
    (p: Phase) =>
      match p
      case Scanning(id, u) => Scanning(id, u + {x})
      case Checking(id, u, s) => Checking(id, u + {x}, s + {x})
      case other => other
  }

  function SeesStamp(x: string): Phase -> Phase {
    (p: Phase) =>
      match p
      case Checking(id, u, s) => Checking(id, u, s + {x})
      case other => other
  }

  function SeesLoss(x: string): Phase -> Phase {
    (p: Phase) =>
      match p
      case Scanning(id, u) => Scanning(id, u + {x})
      case other => other
  }

  function Unstamp(w: World, x: string): World {
    var live := if x in w.sessions && x in w.touched then {x} else {};
    World(w.sessions, w.touched - {x}, w.stripped + live, if live == {} then w.threads else Each(w.threads, SeesLoss(x)))
  }

  function Without(w: World, x: string): World { w.(sessions := w.sessions - {x}, stripped := w.stripped - {x}) }

  function Stamped(w: World, x: string): World { w.(touched := w.touched + {x}, threads := Each(w.threads, SeesStamp(x))) }

  function Entered(w: World, x: string): World { w.(sessions := w.sessions + {x}, threads := Each(w.threads, SeesEntry(x))) }

  function Move(w: World, t: nat, p: Phase): World
    requires t < |w.threads|
  {
    w.(threads := w.threads[t := p])
  }

  function After(w: World, s: Step, cap: nat): World
    requires Enabled(w, s, cap)
  {
    match s
    case Begin(t, id) => Move(w, t, Making(id))
    case Pass(t) => Move(w, t, Ready(w.threads[t].id))
    case Look(t) => Move(w, t, Scanning(w.threads[t].id, w.sessions - w.touched))
    case Check(t) => Move(w, t, Checking(w.threads[t].id, w.threads[t].unstamped, w.sessions * w.touched))
    case Evict(t, victim) => Move(Without(w, victim), t, Dropping(w.threads[t].id, victim))
    case Drop(t) => Move(Unstamp(w, w.threads[t].victim), t, Making(w.threads[t].id))
    case GiveUp(t) => Move(w, t, Ready(w.threads[t].id))
    case Fail(t) => Move(w, t, Idle)
    case Insert(t) => Move(Entered(w, w.threads[t].id), t, Inserted(w.threads[t].id))
    case Stamp(t) => Move(Stamped(w, w.threads[t].id), t, Idle)
    case Use(id) => Stamped(w, id)
    case Forget(id) => Unstamp(w, id)
    case Remove(id) => Without(w, id)
  }

  /** Which runs are looked at: `takes` lets stamps of live sessions be forgotten, `late` lets an id come in while its stamp is still to be dropped. */
  datatype Rules = Rules(cap: nat, takes: bool, late: bool)

  /** The session of `x` has been removed, and its stamp will be. */
  predicate Pending(w: World, x: string) { exists u | 0 <= u < |w.threads| :: w.threads[u].Dropping? && w.threads[u].victim == x }

  predicate Allowed(w: World, s: Step, r: Rules) {
    && Enabled(w, s, r.cap)
    && (s.Forget? && s.id in w.sessions ==> r.takes)
    && (s.Insert? && Pending(w, w.threads[s.t].id) ==> r.late)
  }

  /** The world after these steps, if each is allowed in its turn. */
  function Ran(w: World, steps: seq<Step>, r: Rules): Option<World>
    decreases |steps|
  {
    if steps == [] then Some(w)
    else if Allowed(w, steps[0], r) then Ran(After(w, steps[0], r.cap), steps[1..], r)
    else None
  }

  function Resting(threads: nat): seq<Phase> { seq(threads, _ => Idle) }

  /** A new store with idle threads: where every run begins. */
  function Start(threads: nat): World { World({}, {}, {}, Resting(threads)) }

  // ---------- what every step keeps ----------

  function ReadyOnes(threads: seq<Phase>): set<nat> { set t: nat | t < |threads| && threads[t].Ready? }

  function InsertedOnes(threads: seq<Phase>): set<nat> { set t: nat | t < |threads| && threads[t].Inserted? }

  predicate AllSearching(threads: seq<Phase>, q: set<nat>) { forall t | t in q :: t < |threads| && Searching(threads[t]) }

  /** The sessions that all of these searching threads may have missed. */
  function Missed(w: World, q: set<nat>): set<string>
    requires AllSearching(w.threads, q)
  {
    set x | x in w.sessions && forall t | t in q :: x in w.threads[t].unstamped || x == w.threads[t].id
  }

  predicate OwnedBy(threads: seq<Phase>, owners: set<nat>, x: string) {
    exists t: nat :: t in owners && t < |threads| && threads[t] != Idle && threads[t].id == x
  }

  /** Sessions that may stay, besides those stripped, and come in, if all of these searches are given up. */
  predicate Claim(w: World, q: set<nat>, x: string)
    requires AllSearching(w.threads, q)
  {
    (x in Missed(w, q) && x !in w.stripped) || OwnedBy(w.threads, ReadyOnes(w.threads) + q, x)
  }

  /** No more than so many claims. */
  ghost predicate Fits(w: World, q: set<nat>, cap: nat)
    requires AllSearching(w.threads, q)
  {
    forall claims: set<string> :: (forall x | x in claims :: Claim(w, q, x)) ==> |claims| <= cap - 1 + |w.threads|
  }

  /** A session without a stamp was stripped, or its thread is about to stamp it. */
  ghost predicate StampsFollow(w: World) {
    forall x | x in w.sessions && x !in w.touched && x !in w.stripped :: OwnedBy(w.threads, InsertedOnes(w.threads), x)
  }

  ghost predicate Safe(w: World, cap: nat) {
    && cap >= 1 && |w.threads| > 0 && w.stripped <= w.sessions && StampsFollow(w)
    && forall q: set<nat> :: AllSearching(w.threads, q) ==> Fits(w, q, cap)
  }

  lemma {:induction false} AtMost(s: set<nat>, n: nat)
    requires forall t | t in s :: t < n
    ensures |s| <= n
  {
    if n > 0 {
      AtMost(s - {n - 1}, n - 1);
    } else {
      assert s == {};
    }
  }

  /** Ids that each belong to one of these threads are no more than the threads. */
  lemma {:induction false} OwnersSuffice(ids: set<string>, owners: set<nat>, threads: seq<Phase>)
    requires forall x | x in ids :: OwnedBy(threads, owners, x)
    ensures |ids| <= |owners|
    decreases |ids|
  {
    if ids != {} {
      var x :| x in ids;
      var t: nat :| t in owners && t < |threads| && threads[t] != Idle && threads[t].id == x;
      forall y | y in ids - {x}
        ensures OwnedBy(threads, owners - {t}, y)
      {
        var u: nat :| u in owners && u < |threads| && threads[u] != Idle && threads[u].id == y;
        assert u in owners - {t};
      }
      OwnersSuffice(ids - {x}, owners - {t}, threads);
    }
  }

  lemma OwnedAtMost(ids: set<string>, owners: set<nat>, threads: seq<Phase>)
    requires forall x | x in ids :: OwnedBy(threads, owners, x)
    requires forall t | t in owners :: t < |threads|
    ensures |ids| <= |threads|
  {
    OwnersSuffice(ids, owners, threads);
    AtMost(owners, |threads|);
  }

  // ---------- one step ----------

  /** With no claims that there were not before, what fitted still fits. */
  lemma FewerClaims(w: World, q: set<nat>, w': World, q': set<nat>, cap: nat)
    requires AllSearching(w.threads, q) && Fits(w, q, cap)
    requires AllSearching(w'.threads, q') && |w'.threads| == |w.threads|
    requires forall x | Claim(w', q', x) :: Claim(w, q, x)
    ensures Fits(w', q', cap)
  {
  }

  /** A thread that becomes ready below the cap. */
  lemma PassFits(w: World, t: nat, cap: nat, q: set<nat>)
    requires Enabled(w, Pass(t), cap) && AllSearching(After(w, Pass(t), cap).threads, q)
    ensures Fits(After(w, Pass(t), cap), q, cap)
  {
    var w' := After(w, Pass(t), cap);
    forall claims: set<string> | forall x | x in claims :: Claim(w', q, x)
      ensures |claims| <= cap - 1 + |w'.threads|
    {
      NoMoreThan(claims * w.sessions, w.sessions);
      OwnedAtMost(claims - w.sessions, ReadyOnes(w'.threads) + q, w'.threads);
      assert claims == claims * w.sessions + (claims - w.sessions);
    }
  }

  lemma {:induction false} NoMoreThan(small: set<string>, large: set<string>)
    requires small <= large
    ensures |small| <= |large|
  {
    if small != {} {
      var x :| x in small;
      NoMoreThan(small - {x}, large - {x});
    }
  }

  /** A thread that begins to search misses its own id, and what others have yet to stamp. */
  lemma LookFits(w: World, t: nat, cap: nat, q: set<nat>)
    requires Safe(w, cap) && Enabled(w, Look(t), cap) && AllSearching(After(w, Look(t), cap).threads, q)
    ensures Fits(After(w, Look(t), cap), q, cap)
  {
    var w' := After(w, Look(t), cap);
    if t in q {
      var owners := InsertedOnes(w'.threads) + ReadyOnes(w'.threads) + q;
      forall claims: set<string> | forall x | x in claims :: Claim(w', q, x)
        ensures |claims| <= cap - 1 + |w'.threads|
      {
        forall x | x in claims
          ensures OwnedBy(w'.threads, owners, x)
        {
          LookClaims(w, t, cap, q, x);
        }
        OwnedAtMost(claims, owners, w'.threads);
      }
    } else {
      NoNewClaims(w, w', q, {}, cap);
    }
  }

  lemma LookClaims(w: World, t: nat, cap: nat, q: set<nat>, x: string)
    requires StampsFollow(w) && Enabled(w, Look(t), cap) && t in q && AllSearching(After(w, Look(t), cap).threads, q)
    requires Claim(After(w, Look(t), cap), q, x)
    ensures var threads := After(w, Look(t), cap).threads; OwnedBy(threads, InsertedOnes(threads) + ReadyOnes(threads) + q, x)
  {
    var w' := After(w, Look(t), cap);
    var owners := InsertedOnes(w'.threads) + ReadyOnes(w'.threads) + q;
    if OwnedBy(w'.threads, ReadyOnes(w'.threads) + q, x) {
      var u: nat :| u in ReadyOnes(w'.threads) + q && u < |w'.threads| && w'.threads[u] != Idle && w'.threads[u].id == x;
      assert u in owners;
    } else {
      assert x in w.sessions && x !in w.touched && x !in w.stripped;
      var u: nat :| u in InsertedOnes(w.threads) && u < |w.threads| && w.threads[u] != Idle && w.threads[u].id == x;
      assert u in InsertedOnes(w'.threads) && w'.threads[u].id == x;
    }
  }

  /** As far as claims go the phase is what it was, but for `more` sessions that may be missed. */
  predicate Alike(p: Phase, p': Phase, more: set<string>) {
    && (p == Idle <==> p' == Idle) && (p' != Idle ==> p'.id == p.id) && (p'.Ready? <==> p.Ready?)
    && (Searching(p') ==> Searching(p) && p'.unstamped <= p.unstamped + more)
  }

  /** A step makes no new claims: who moved does not search and is not ready, and what is missed anew was claimed or is stripped. */
  lemma NoNewClaims(w: World, w': World, q: set<nat>, more: set<string>, cap: nat)
    requires Safe(w, cap) && |w'.threads| == |w.threads| && AllSearching(w'.threads, q)
    requires forall u: nat | u < |w.threads| :: Alike(w.threads[u], w'.threads[u], more) || (u !in q && !w'.threads[u].Ready?)
    requires forall x | x in w'.sessions && x !in w'.stripped && x !in more :: x in w.sessions && x !in w.stripped
    requires forall x | x in w'.sessions && x !in w'.stripped && x in more :: OwnedBy(w.threads, ReadyOnes(w.threads), x)
    ensures Fits(w', q, cap)
  {
    assert AllSearching(w.threads, q);
    forall x | Claim(w', q, x)
      ensures Claim(w, q, x)
    {
      if OwnedBy(w'.threads, ReadyOnes(w'.threads) + q, x) {
        var u: nat :| u in ReadyOnes(w'.threads) + q && u < |w'.threads| && w'.threads[u] != Idle && w'.threads[u].id == x;
        assert u in ReadyOnes(w.threads) + q;
      } else if x in more {
        var u: nat :| u in ReadyOnes(w.threads) && u < |w.threads| && w.threads[u] != Idle && w.threads[u].id == x;
        assert u in ReadyOnes(w.threads) + q;
      } else {
        assert forall t | t in q :: x in w'.threads[t].unstamped ==> x in w.threads[t].unstamped;
      }
    }
    FewerClaims(w, q, w', q, cap);
  }

  /** A search given up was claimed for: with it every session was missed. */
  lemma GiveUpFits(w: World, t: nat, cap: nat, q: set<nat>)
    requires Safe(w, cap) && Enabled(w, GiveUp(t), cap) && AllSearching(After(w, GiveUp(t), cap).threads, q)
    ensures Fits(After(w, GiveUp(t), cap), q, cap)
  {
    var w' := After(w, GiveUp(t), cap);
    assert t !in q && AllSearching(w.threads, q + {t});
    forall x | Claim(w', q, x)
      ensures Claim(w, q + {t}, x)
    {
      if OwnedBy(w'.threads, ReadyOnes(w'.threads) + q, x) {
        var u: nat :| u in ReadyOnes(w'.threads) + q && u < |w'.threads| && w'.threads[u] != Idle && w'.threads[u].id == x;
        assert u in ReadyOnes(w.threads) + (q + {t});
      } else {
        assert t in ReadyOnes(w'.threads);
        assert x in w.sessions - {w.threads[t].id};
        assert forall u | u in q :: w'.threads[u] == w.threads[u];
        assert x in Missed(w, q + {t});
      }
    }
    FewerClaims(w, q + {t}, w', q, cap);
  }

  lemma InsertFits(w: World, t: nat, cap: nat, q: set<nat>)
    requires Safe(w, cap) && Enabled(w, Insert(t), cap) && AllSearching(After(w, Insert(t), cap).threads, q)
    ensures Fits(After(w, Insert(t), cap), q, cap)
  {
    assert t in ReadyOnes(w.threads) && OwnedBy(w.threads, ReadyOnes(w.threads), w.threads[t].id);
    NoNewClaims(w, After(w, Insert(t), cap), q, {w.threads[t].id}, cap);
  }

  /** A live session that loses its stamp may be missed, and is stripped. */
  lemma LossFits(w: World, s: Step, cap: nat, q: set<nat>)
    requires Safe(w, cap) && Enabled(w, s, cap) && (s.Drop? || s.Forget?) && AllSearching(After(w, s, cap).threads, q)
    ensures Fits(After(w, s, cap), q, cap)
  {
    var x := if s.Drop? then w.threads[s.t].victim else s.id;
    NoNewClaims(w, After(w, s, cap), q, if x in w.sessions && x in w.touched then {x} else {}, cap);
  }

  lemma StepFits(w: World, s: Step, cap: nat, q: set<nat>)
    requires Safe(w, cap) && Enabled(w, s, cap) && AllSearching(After(w, s, cap).threads, q)
    ensures Fits(After(w, s, cap), q, cap)
  {
    match s
    case Pass(t) => PassFits(w, t, cap, q);
    case Look(t) => LookFits(w, t, cap, q);
    case GiveUp(t) => GiveUpFits(w, t, cap, q);
    case Insert(t) => InsertFits(w, t, cap, q);
    case Drop(_) => LossFits(w, s, cap, q);
    case Forget(_) => LossFits(w, s, cap, q);
    case _ => NoNewClaims(w, After(w, s, cap), q, {}, cap);
  }

  lemma StepStamps(w: World, s: Step, cap: nat)
    requires StampsFollow(w) && Enabled(w, s, cap)
    ensures StampsFollow(After(w, s, cap))
  {
    var w' := After(w, s, cap);
    forall x | x in w'.sessions && x !in w'.touched && x !in w'.stripped
      ensures OwnedBy(w'.threads, InsertedOnes(w'.threads), x)
    {
      if s.Insert? && x == w.threads[s.t].id {
        assert s.t in InsertedOnes(w'.threads);
      } else {
        StillOwned(w, s, cap, x);
      }
    }
  }

  lemma StillOwned(w: World, s: Step, cap: nat, x: string)
    requires Enabled(w, s, cap) && OwnedBy(w.threads, InsertedOnes(w.threads), x) && x !in After(w, s, cap).touched
    ensures var threads := After(w, s, cap).threads; OwnedBy(threads, InsertedOnes(threads), x)
  {
    var threads := After(w, s, cap).threads;
    var t: nat :| t in InsertedOnes(w.threads) && t < |w.threads| && w.threads[t] != Idle && w.threads[t].id == x;
    assert threads[t] == w.threads[t];
    assert t in InsertedOnes(threads);
  }

  lemma StepSafe(w: World, s: Step, cap: nat)
    requires Safe(w, cap) && Enabled(w, s, cap)
    ensures Safe(After(w, s, cap), cap)
  {
    StepStamps(w, s, cap);
    forall q: set<nat> | AllSearching(After(w, s, cap).threads, q)
      ensures Fits(After(w, s, cap), q, cap)
    {
      StepFits(w, s, cap, q);
    }
  }

  lemma StartSafe(threads: nat, cap: nat)
    requires cap >= 1 && threads > 0
    ensures Safe(Start(threads), cap)
  {
    var w := Start(threads);
    forall q: set<nat> | AllSearching(w.threads, q)
      ensures Fits(w, q, cap)
    {
      assert forall x :: !Claim(w, q, x);
    }
  }

  // ---------- every run ----------

  lemma {:induction false} RunSafe(w: World, steps: seq<Step>, r: Rules)
    requires Safe(w, r.cap) && Ran(w, steps, r).Some?
    ensures Safe(Ran(w, steps, r).value, r.cap) && |Ran(w, steps, r).value.threads| == |w.threads|
    decreases |steps|
  {
    if steps != [] {
      StepSafe(w, steps[0], r.cap);
      RunSafe(After(w, steps[0], r.cap), steps[1..], r);
    }
  }

  /**
   * Whatever the interleaving, T threads never hold more than cap + T - 1 sessions at once, those not
   * counted that lost their stamp while they were live.
   */
  lemma RunBounded(threads: nat, steps: seq<Step>, r: Rules)
    requires r.cap >= 1 && threads > 0 && Ran(Start(threads), steps, r).Some?
    ensures var w := Ran(Start(threads), steps, r).value; |w.sessions - w.stripped| <= r.cap + threads - 1 && w.stripped <= w.sessions
  {
    StartSafe(threads, r.cap);
    RunSafe(Start(threads), steps, r);
    var w := Ran(Start(threads), steps, r).value;
    assert AllSearching(w.threads, {}) && Fits(w, {}, r.cap);
    assert forall x | x in w.sessions - w.stripped :: Claim(w, {}, x);
  }

  /** No session is stripped, and none will be by a stamp still to be dropped. */
  predicate Unharmed(w: World) {
    w.stripped == {} && forall u | 0 <= u < |w.threads| && w.threads[u].Dropping? :: w.threads[u].victim !in w.sessions
  }

  lemma StepUnharmed(w: World, s: Step, r: Rules)
    requires Unharmed(w) && Allowed(w, s, r) && !r.takes && (!r.late || |w.threads| == 1)
    ensures Unharmed(After(w, s, r.cap))
  {
    match s
    case Insert(t) => InsertUnharmed(w, t, r);
    case Drop(t) => assert w.threads[t].victim !in w.sessions;
    case _ =>
  }

  lemma InsertUnharmed(w: World, t: nat, r: Rules)
    requires Unharmed(w) && Allowed(w, Insert(t), r) && (!r.late || |w.threads| == 1)
    ensures Unharmed(After(w, Insert(t), r.cap))
  {
    var w' := After(w, Insert(t), r.cap);
    forall u | 0 <= u < |w'.threads| && w'.threads[u].Dropping?
      ensures w'.threads[u].victim !in w'.sessions
    {
      assert u != t && w.threads[u] == w'.threads[u];
      assert !Pending(w, w.threads[t].id);
    }
  }

  lemma {:induction false} RunUnharmed(w: World, steps: seq<Step>, r: Rules)
    requires Unharmed(w) && Ran(w, steps, r).Some? && !r.takes && (!r.late || |w.threads| == 1)
    ensures Unharmed(Ran(w, steps, r).value)
    decreases |steps|
  {
    if steps != [] {
      StepUnharmed(w, steps[0], r);
      RunUnharmed(After(w, steps[0], r.cap), steps[1..], r);
    }
  }

  // ---------- runs put together ----------

  lemma {:induction false} RanConcat(w: World, a: seq<Step>, b: seq<Step>, r: Rules)
    requires Ran(w, a, r).Some?
    ensures Ran(w, a + b, r) == Ran(Ran(w, a, r).value, b, r)
    decreases |a|
  {
    if a == [] {
      assert a + b == b;
    } else {
      assert (a + b)[1..] == a[1..] + b;
      RanConcat(After(w, a[0], r.cap), a[1..], b, r);
    }
  }

  lemma RanOne(w: World, s: Step, r: Rules)
    requires Allowed(w, s, r)
    ensures Ran(w, [s], r) == Some(After(w, s, r.cap))
  {
    assert [s][1..] == [];
  }

  /** One more step at the end. */
  lemma RanSnoc(w: World, steps: seq<Step>, s: Step, r: Rules)
    requires Ran(w, steps, r).Some? && Allowed(Ran(w, steps, r).value, s, r)
    ensures Ran(w, steps + [s], r) == Some(After(Ran(w, steps, r).value, s, r.cap))
  {
    RanConcat(w, steps, [s], r);
    RanOne(Ran(w, steps, r).value, s, r);
  }

  /** `moves(i)` may be made from every world that `inv` describes at `i`, and leads to one that it describes at `i + 1`. */
  ghost predicate Leads(inv: (World, nat) -> bool, moves: nat -> seq<Step>, i: nat, r: Rules) {
    forall w | inv(w, i) :: Ran(w, moves(i), r).Some? && inv(Ran(w, moves(i), r).value, i + 1)
  }

  lemma {:induction false} Sweep(w: World, n: nat, k: nat, inv: (World, nat) -> bool, moves: nat -> seq<Step>, r: Rules) returns (steps: seq<Step>)
    requires n <= k && inv(w, n) && forall i: nat | n <= i < k :: Leads(inv, moves, i, r)
    ensures Ran(w, steps, r).Some? && inv(Ran(w, steps, r).value, k)
    decreases k - n
  {
    if n == k {
      steps := [];
    } else {
      assert Leads(inv, moves, n, r);
      var rest := Sweep(Ran(w, moves(n), r).value, n + 1, k, inv, moves, r);
      steps := moves(n) + rest;
      RanConcat(w, moves(n), rest, r);
    }
  }

  // ---------- ids, and rows of threads ----------

  /** A supply of ids that are all different. */
  function Name(i: nat): string { seq(i, _ => 'a') }

  lemma NamesApart(i: nat, j: nat)
    ensures Name(i) == Name(j) <==> i == j
  {
    assert |Name(i)| == i && |Name(j)| == j;
  }

  function First(n: nat): set<string> { set i: nat | i < n :: Name(i) }

  lemma FirstHas(n: nat, i: nat)
    ensures Name(i) in First(n) <==> i < n
  {
    if Name(i) in First(n) {
      var j: nat :| j < n && Name(i) == Name(j);
      NamesApart(i, j);
    }
  }

  lemma FirstMore(n: nat)
    ensures First(n + 1) == First(n) + {Name(n)} && Name(n) !in First(n)
  {
    FirstHas(n, n);
  }

  lemma {:induction false} FirstSize(n: nat)
    ensures |First(n)| == n
  {
    if n > 0 {
      FirstSize(n - 1);
      FirstMore(n - 1);
    } else {
      assert First(0) == {};
    }
  }

  /** The first `k` ids are live; the first `t` threads have done something that the others have yet to do. */
  predicate Row(w: World, threads: nat, k: nat, t: nat, done: nat -> Phase, todo: nat -> Phase) {
    && w.sessions == First(k) && |w.threads| == threads && t <= threads
    && forall u: nat | u < threads :: w.threads[u] == if u < t then done(u) else todo(u)
  }

  function IdleAt(): nat -> Phase { (u: nat) => Idle }

  function MakingAt(k: nat): nat -> Phase { (u: nat) => Making(Name(k + u)) }

  function ScanningAt(k: nat): nat -> Phase { (u: nat) => Scanning(Name(k + u), First(k)) }

  function CheckingAt(k: nat): nat -> Phase { (u: nat) => Checking(Name(k + u), First(k), First(k)) }

  function ReadyAt(k: nat): nat -> Phase { (u: nat) => Ready(Name(k + u)) }

  /** One thread alone fills the store. */
  predicate Filled(w: World, threads: nat, n: nat) {
    w.threads == Resting(threads) && w.sessions == First(n) && First(n) <= w.touched
  }

  function FillMoves(n: nat): seq<Step> { [Begin(0, Name(n))] + [Pass(0)] + [Insert(0)] + [Stamp(0)] }

  lemma FillMore(w: World, threads: nat, n: nat, r: Rules)
    requires threads > 0 && n < r.cap && Filled(w, threads, n)
    ensures Ran(w, FillMoves(n), r).Some? && Filled(Ran(w, FillMoves(n), r).value, threads, n + 1)
  {
    var id := Name(n);
    FirstMore(n);
    FirstSize(n);
    var a := After(w, Begin(0, id), r.cap);
    RanOne(w, Begin(0, id), r);
    var b := After(a, Pass(0), r.cap);
    RanSnoc(w, [Begin(0, id)], Pass(0), r);
    var c := After(b, Insert(0), r.cap);
    assert c.threads == Resting(threads)[0 := Inserted(id)];
    RanSnoc(w, [Begin(0, id)] + [Pass(0)], Insert(0), r);
    var d := After(c, Stamp(0), r.cap);
    RanSnoc(w, [Begin(0, id)] + [Pass(0)] + [Insert(0)], Stamp(0), r);
    assert d.threads == Resting(threads);
  }

  lemma Fill(threads: nat, n: nat, r: Rules) returns (steps: seq<Step>)
    requires threads > 0 && n <= r.cap
    ensures Ran(Start(threads), steps, r).Some? && Filled(Ran(Start(threads), steps, r).value, threads, n)
  {
    var inv := (w: World, i: nat) => Filled(w, threads, i);
    forall i: nat | i < n
      ensures Leads(inv, FillMoves, i, r)
    {
      forall w | inv(w, i)
        ensures Ran(w, FillMoves(i), r).Some? && inv(Ran(w, FillMoves(i), r).value, i + 1)
      {
        FillMore(w, threads, i, r);
      }
    }
    steps := Sweep(Start(threads), 0, n, inv, FillMoves, r);
  }

  // ---------- all threads do the same in turn ----------

  lemma RowStep(w: World, threads: nat, k: nat, t: nat, done: nat -> Phase, todo: nat -> Phase, s: Step, r: Rules)
    requires t < threads && Row(w, threads, k, t, done, todo) && Allowed(w, s, r)
    requires After(w, s, r.cap) == Move(w, t, done(t))
    ensures Ran(w, [s], r).Some? && Row(Ran(w, [s], r).value, threads, k, t + 1, done, todo)
  {
    RanOne(w, s, r);
  }

  /** All threads from `t` on begin, each with an id of its own. */
  lemma AllBegin(w: World, threads: nat, k: nat, t: nat, r: Rules) returns (steps: seq<Step>)
    requires Row(w, threads, k, t, MakingAt(k), IdleAt())
    ensures Ran(w, steps, r).Some? && Row(Ran(w, steps, r).value, threads, k, threads, MakingAt(k), IdleAt())
    ensures Ran(w, steps, r).value.touched == w.touched
  {
    var inv := (v: World, i: nat) => Row(v, threads, k, i, MakingAt(k), IdleAt()) && v.touched == w.touched;
    var moves := (i: nat) => [Begin(i, Name(k + i))];
    forall i: nat | t <= i < threads
      ensures Leads(inv, moves, i, r)
    {
      forall v | inv(v, i)
        ensures Ran(v, moves(i), r).Some? && inv(Ran(v, moves(i), r).value, i + 1)
      {
        FirstHas(k, k + i);
        RowStep(v, threads, k, i, MakingAt(k), IdleAt(), Begin(i, Name(k + i)), r);
        RanOne(v, Begin(i, Name(k + i)), r);
      }
    }
    steps := Sweep(w, t, threads, inv, moves, r);
  }

  lemma AllPass(w: World, threads: nat, k: nat, r: Rules) returns (steps: seq<Step>)
    requires k < r.cap && Row(w, threads, k, 0, ReadyAt(k), MakingAt(k))
    ensures Ran(w, steps, r).Some? && Row(Ran(w, steps, r).value, threads, k, threads, ReadyAt(k), MakingAt(k))
  {
    var inv := (v: World, i: nat) => Row(v, threads, k, i, ReadyAt(k), MakingAt(k));
    var moves := (i: nat) => [Pass(i)];
    FirstSize(k);
    forall i: nat | i < threads
      ensures Leads(inv, moves, i, r)
    {
      forall v | inv(v, i)
        ensures Ran(v, moves(i), r).Some? && inv(Ran(v, moves(i), r).value, i + 1)
      {
        RowStep(v, threads, k, i, ReadyAt(k), MakingAt(k), Pass(i), r);
      }
    }
    steps := Sweep(w, 0, threads, inv, moves, r);
  }

  lemma AllLook(w: World, threads: nat, k: nat, r: Rules) returns (steps: seq<Step>)
    requires Row(w, threads, k, 0, ScanningAt(k), MakingAt(k)) && w.touched !! First(k)
    ensures Ran(w, steps, r).Some? && Row(Ran(w, steps, r).value, threads, k, threads, ScanningAt(k), MakingAt(k))
  {
    var inv := (v: World, i: nat) => Row(v, threads, k, i, ScanningAt(k), MakingAt(k)) && v.touched == w.touched;
    var moves := (i: nat) => [Look(i)];
    forall i: nat | i < threads
      ensures Leads(inv, moves, i, r)
    {
      forall v | inv(v, i)
        ensures Ran(v, moves(i), r).Some? && inv(Ran(v, moves(i), r).value, i + 1)
      {
        assert v.sessions - v.touched == First(k);
        RowStep(v, threads, k, i, ScanningAt(k), MakingAt(k), Look(i), r);
        RanOne(v, Look(i), r);
      }
    }
    steps := Sweep(w, 0, threads, inv, moves, r);
  }

  /** Every session is used while all threads search the stamps. */
  lemma AllUsed(w: World, threads: nat, k: nat, r: Rules) returns (steps: seq<Step>)
    requires Row(w, threads, k, threads, ScanningAt(k), MakingAt(k))
    ensures Ran(w, steps, r).Some? && Row(Ran(w, steps, r).value, threads, k, threads, ScanningAt(k), MakingAt(k))
    ensures First(k) <= Ran(w, steps, r).value.touched
  {
    var inv := (v: World, i: nat) => Row(v, threads, k, threads, ScanningAt(k), MakingAt(k)) && First(i) <= v.touched;
    var moves := (i: nat) => [Use(Name(i))];
    forall i: nat | i < k
      ensures Leads(inv, moves, i, r)
    {
      forall v | inv(v, i)
        ensures Ran(v, moves(i), r).Some? && inv(Ran(v, moves(i), r).value, i + 1)
      {
        RanOne(v, Use(Name(i)), r);
        FirstMore(i);
        var v' := After(v, Use(Name(i)), r.cap);
        assert v'.threads == v.threads && First(i + 1) <= v'.touched;
      }
    }
    steps := Sweep(w, 0, k, inv, moves, r);
  }

  lemma AllCheck(w: World, threads: nat, k: nat, r: Rules) returns (steps: seq<Step>)
    requires Row(w, threads, k, 0, CheckingAt(k), ScanningAt(k)) && First(k) <= w.touched
    ensures Ran(w, steps, r).Some? && Row(Ran(w, steps, r).value, threads, k, threads, CheckingAt(k), ScanningAt(k))
  {
    var inv := (v: World, i: nat) => Row(v, threads, k, i, CheckingAt(k), ScanningAt(k)) && v.touched == w.touched;
    var moves := (i: nat) => [Check(i)];
    forall i: nat | i < threads
      ensures Leads(inv, moves, i, r)
    {
      forall v | inv(v, i)
        ensures Ran(v, moves(i), r).Some? && inv(Ran(v, moves(i), r).value, i + 1)
      {
        assert v.sessions * v.touched == First(k);
        RowStep(v, threads, k, i, CheckingAt(k), ScanningAt(k), Check(i), r);
        RanOne(v, Check(i), r);
      }
    }
    steps := Sweep(w, 0, threads, inv, moves, r);
  }

  lemma AllGiveUp(w: World, threads: nat, k: nat, r: Rules) returns (steps: seq<Step>)
    requires Row(w, threads, k, 0, ReadyAt(k), CheckingAt(k))
    ensures Ran(w, steps, r).Some? && Row(Ran(w, steps, r).value, threads, k, threads, ReadyAt(k), CheckingAt(k))
  {
    var inv := (v: World, i: nat) => Row(v, threads, k, i, ReadyAt(k), CheckingAt(k));
    var moves := (i: nat) => [GiveUp(i)];
    forall i: nat | i < threads
      ensures Leads(inv, moves, i, r)
    {
      forall v | inv(v, i)
        ensures Ran(v, moves(i), r).Some? && inv(Ran(v, moves(i), r).value, i + 1)
      {
        RowStep(v, threads, k, i, ReadyAt(k), CheckingAt(k), GiveUp(i), r);
      }
    }
    steps := Sweep(w, 0, threads, inv, moves, r);
  }

  /** The first `t` of the ready threads have inserted. */
  predicate Arriving(w: World, threads: nat, k: nat, t: nat) {
    && w.sessions == First(k + t) && |w.threads| == threads
    && forall u: nat | u < threads :: if u < t then w.threads[u].Inserted? else w.threads[u] == ReadyAt(k)(u)
  }

  lemma AllInsert(w: World, threads: nat, k: nat, r: Rules) returns (steps: seq<Step>)
    requires Arriving(w, threads, k, 0)
    ensures Ran(w, steps, r).Some? && |Ran(w, steps, r).value.sessions| == k + threads
  {
    var inv := (v: World, i: nat) => Arriving(v, threads, k, i);
    var moves := (i: nat) => [Insert(i)];
    forall i: nat | i < threads
      ensures Leads(inv, moves, i, r)
    {
      forall v | inv(v, i)
        ensures Ran(v, moves(i), r).Some? && inv(Ran(v, moves(i), r).value, i + 1)
      {
        RanOne(v, Insert(i), r);
        FirstMore(k + i);
      }
    }
    steps := Sweep(w, 0, threads, inv, moves, r);
    FirstSize(k + threads);
  }

  // ---------- the bound is reached ----------

  /** The bound is the best possible: if all threads check the size before any inserts, cap + T - 1 sessions are held, with no stamp lost. */
  lemma BoundIsReached(threads: nat, r: Rules) returns (steps: seq<Step>)
    requires r.cap >= 1 && threads > 0
    ensures Ran(Start(threads), steps, r).Some? && |Ran(Start(threads), steps, r).value.sessions| == r.cap + threads - 1
  {
    var k := r.cap - 1;
    steps := Fill(threads, k, r);
    var w := Ran(Start(threads), steps, r).value;
    assert Row(w, threads, k, 0, MakingAt(k), IdleAt());
    var a := AllBegin(w, threads, k, 0, r);
    var v := Ran(w, a, r).value;
    assert Row(v, threads, k, 0, ReadyAt(k), MakingAt(k));
    var b := AllPass(v, threads, k, r);
    var u := Ran(v, b, r).value;
    assert Arriving(u, threads, k, 0);
    var c := AllInsert(u, threads, k, r);
    RanConcat(Start(threads), steps, a, r);
    RanConcat(Start(threads), steps + a, b, r);
    RanConcat(Start(threads), steps + a + b, c, r);
    steps := steps + a + b + c;
  }

  // ---------- and overrun when live sessions lose their stamps ----------

  /** With no session stamped all threads find nothing to evict; by the time they look for sessions without a stamp all have one again. */
  lemma OverrunUnstamped(w: World, threads: nat, t: nat, r: Rules) returns (steps: seq<Step>)
    requires Row(w, threads, r.cap, t, MakingAt(r.cap), IdleAt()) && w.touched !! First(r.cap)
    ensures Ran(w, steps, r).Some? && |Ran(w, steps, r).value.sessions| == r.cap + threads
  {
    var k := r.cap;
    steps := AllBegin(w, threads, k, t, r);
    var w1 := Ran(w, steps, r).value;
    assert Row(w1, threads, k, 0, ScanningAt(k), MakingAt(k));
    var a := AllLook(w1, threads, k, r);
    var w2 := Ran(w1, a, r).value;
    var b := AllUsed(w2, threads, k, r);
    var w3 := Ran(w2, b, r).value;
    assert Row(w3, threads, k, 0, CheckingAt(k), ScanningAt(k));
    var c := AllCheck(w3, threads, k, r);
    var w4 := Ran(w3, c, r).value;
    assert Row(w4, threads, k, 0, ReadyAt(k), CheckingAt(k));
    var d := AllGiveUp(w4, threads, k, r);
    var w5 := Ran(w4, d, r).value;
    assert Arriving(w5, threads, k, 0);
    var e := AllInsert(w5, threads, k, r);
    RanConcat(w, steps, a, r);
    RanConcat(w, steps + a, b, r);
    RanConcat(w, steps + a + b, c, r);
    RanConcat(w, steps + a + b + c, d, r);
    RanConcat(w, steps + a + b + c + d, e, r);
    steps := steps + a + b + c + d + e;
  }

  /** Takes in progress: each has removed the stamp and not yet the session. */
  lemma TakesOverrun(threads: nat, r: Rules) returns (steps: seq<Step>)
    requires r.cap >= 1 && threads > 0 && r.takes
    ensures Ran(Start(threads), steps, r).Some? && |Ran(Start(threads), steps, r).value.sessions| == r.cap + threads
  {
    var k := r.cap;
    steps := Fill(threads, k, r);
    var w := Ran(Start(threads), steps, r).value;
    var inv := (v: World, i: nat) => v.threads == Resting(threads) && v.sessions == First(k) && v.touched !! First(i);
    var moves := (i: nat) => [Forget(Name(i))];
    forall i: nat | i < k
      ensures Leads(inv, moves, i, r)
    {
      forall v | inv(v, i)
        ensures Ran(v, moves(i), r).Some? && inv(Ran(v, moves(i), r).value, i + 1)
      {
        RanOne(v, Forget(Name(i)), r);
        FirstMore(i);
        assert Each(Resting(threads), SeesLoss(Name(i))) == Resting(threads);
      }
    }
    assert First(0) == {};
    var a := Sweep(w, 0, k, inv, moves, r);
    var v := Ran(w, a, r).value;
    var b := OverrunUnstamped(v, threads, 0, r);
    RanConcat(Start(threads), steps, a, r);
    RanConcat(Start(threads), steps + a, b, r);
    steps := steps + a + b;
  }

  /** A session that its evictor is still dropping the stamp of comes back, gets a stamp, and loses it. */
  function LateMoves(i: nat): seq<Step> { Evicts(i) + Returns(i) + [Drop(0)] }

  function Evicts(i: nat): seq<Step> { [Look(0)] + [Evict(0, Name(i))] }

  function Returns(i: nat): seq<Step> { [Begin(1, Name(i))] + [Pass(1)] + [Insert(1)] + [Stamp(1)] }

  /** Thread 0 makes room for a new session; the first `i` of the others have lost their stamps. */
  predicate Losing(w: World, threads: nat, k: nat, i: nat) {
    threads > 0 && w.threads == Resting(threads)[0 := Making(Name(k))] && w.sessions == First(k) && w.touched !! First(i)
  }

  /** Thread 0 has removed session `x` and not yet its stamp. */
  predicate HalfEvicted(w: World, threads: nat, k: nat, x: string) {
    threads > 1 && w.threads == Resting(threads)[0 := Dropping(Name(k), x)]
  }

  lemma LateEviction(w: World, threads: nat, i: nat, r: Rules)
    requires threads > 1 && i < r.cap && Losing(w, threads, r.cap, i)
    ensures Ran(w, Evicts(i), r).Some?
    ensures var v := Ran(w, Evicts(i), r).value;
      HalfEvicted(v, threads, r.cap, Name(i)) && v.sessions == First(r.cap) - {Name(i)} && v.touched == w.touched
  {
    RanOne(w, Look(0), r);
    NamesApart(i, r.cap);
    RanSnoc(w, [Look(0)], Evict(0, Name(i)), r);
  }

  lemma LateReturn(w: World, threads: nat, i: nat, r: Rules)
    requires r.late && i < r.cap && HalfEvicted(w, threads, r.cap, Name(i)) && w.sessions == First(r.cap) - {Name(i)}
    ensures Ran(w, Returns(i), r).Some?
    ensures var v := Ran(w, Returns(i), r).value;
      HalfEvicted(v, threads, r.cap, Name(i)) && v.sessions == First(r.cap) && v.touched == w.touched + {Name(i)}
  {
    var x := Name(i);
    FirstSize(r.cap);
    FirstHas(r.cap, i);
    var a := After(w, Begin(1, x), r.cap);
    RanOne(w, Begin(1, x), r);
    var b := After(a, Pass(1), r.cap);
    RanSnoc(w, [Begin(1, x)], Pass(1), r);
    var c := After(b, Insert(1), r.cap);
    RanSnoc(w, [Begin(1, x)] + [Pass(1)], Insert(1), r);
    assert c.threads == w.threads[1 := Inserted(x)];
    RanSnoc(w, [Begin(1, x)] + [Pass(1)] + [Insert(1)], Stamp(1), r);
    assert After(c, Stamp(1), r.cap).threads == w.threads;
  }

  lemma LateLoss(w: World, threads: nat, i: nat, r: Rules)
    requires threads > 1 && r.late && i < r.cap && Losing(w, threads, r.cap, i)
    ensures Ran(w, LateMoves(i), r).Some? && Losing(Ran(w, LateMoves(i), r).value, threads, r.cap, i + 1)
  {
    LateEviction(w, threads, i, r);
    var v := Ran(w, Evicts(i), r).value;
    LateReturn(v, threads, i, r);
    RanConcat(w, Evicts(i), Returns(i), r);
    var u := Ran(v, Returns(i), r).value;
    RanSnoc(w, Evicts(i) + Returns(i), Drop(0), r);
    FirstMore(i);
    assert After(u, Drop(0), r.cap).threads == Resting(threads)[0 := Making(Name(r.cap))];
  }

  /** Two threads are enough for every live session to lose its stamp so. */
  lemma LateOverrun(threads: nat, r: Rules) returns (steps: seq<Step>)
    requires r.cap >= 1 && threads > 1 && r.late
    ensures Ran(Start(threads), steps, r).Some? && |Ran(Start(threads), steps, r).value.sessions| == r.cap + threads
  {
    var k := r.cap;
    steps := Fill(threads, k, r);
    var w := Ran(Start(threads), steps, r).value;
    FirstHas(k, k);
    RanSnoc(Start(threads), steps, Begin(0, Name(k)), r);
    steps := steps + [Begin(0, Name(k))];
    w := Ran(Start(threads), steps, r).value;
    assert First(0) == {};
    var inv := (v: World, i: nat) => Losing(v, threads, k, i);
    forall i: nat | i < k
      ensures Leads(inv, LateMoves, i, r)
    {
      forall v | inv(v, i)
        ensures Ran(v, LateMoves(i), r).Some? && inv(Ran(v, LateMoves(i), r).value, i + 1)
      {
        LateLoss(v, threads, i, r);
      }
    }
    var a := Sweep(w, 0, k, inv, LateMoves, r);
    var v := Ran(w, a, r).value;
    assert Row(v, threads, k, 1, MakingAt(k), IdleAt());
    var b := OverrunUnstamped(v, threads, 1, r);
    RanConcat(Start(threads), steps, a, r);
    RanConcat(Start(threads), steps + a, b, r);
    steps := steps + a + b;
  }

  // ---------- exactly when the bound holds ----------

  ghost predicate AlwaysBounded(threads: nat, r: Rules) {
    forall steps | Ran(Start(threads), steps, r).Some? :: |Ran(Start(threads), steps, r).value.sessions| <= r.cap + threads - 1
  }

  /**
   * T threads never hold more than cap + T - 1 sessions exactly if no live session's stamp is
   * forgotten and, with more than one thread, no id comes in while its stamp is still to be dropped.
   */
  lemma BoundedIff(threads: nat, r: Rules)
    requires r.cap >= 1 && threads > 0
    ensures AlwaysBounded(threads, r) <==> !r.takes && (!r.late || threads == 1)
  {
    if r.takes {
      var steps := TakesOverrun(threads, r);
    } else if r.late && threads > 1 {
      var steps := LateOverrun(threads, r);
    } else {
      forall steps | Ran(Start(threads), steps, r).Some?
        ensures |Ran(Start(threads), steps, r).value.sessions| <= r.cap + threads - 1
      {
        RunUnharmed(Start(threads), steps, r);
        RunBounded(threads, steps, r);
        var w := Ran(Start(threads), steps, r).value;
        assert w.sessions - w.stripped == w.sessions;
      }
    }
  }
}
