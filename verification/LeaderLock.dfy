/**
 The leader lock: one Postgres advisory lock shared by several autopilot instances. First the lock
 of one instance in the form of the code, then all instances and the database server together.
 */
module LeaderLock {
  import opened Common

  type Session = nat

  /** How the query for the lock ends on a pooled connection. */
  datatype Attempt =
    | NoConnection
    | QueryFailed(session: Session)
    | Refused(session: Session)
    | Granted(session: Session)

  /** The guard after the session was pinged: a failed ping drops it. */
  function AfterPing(guard: Option<Session>, pingOk: bool): Option<Session>
  {
    if guard.Some? && !pingOk then None else guard
  }

  /** The guard after trying to become leader: only a positive answer creates one. */
  function AfterAttempt(guard: Option<Session>, attempt: Attempt): Option<Session>
  {
    if attempt.Granted? then Some(attempt.session) else guard
  }

  /** What an instance knows of the lock: its guard, and when it may ask again. */
  datatype View = View(guard: Option<Session>, lastTry: int, tryEvery: nat)

  predicate Tries(v: View, now: int, pingOk: bool)
  {
    AfterPing(v.guard, pingOk).None? && now - v.lastTry >= v.tryEvery
  }

  function AfterAcquire(v: View, now: int, pingOk: bool, attempt: Attempt): View
  {
    var guard := AfterPing(v.guard, pingOk);
    if Tries(v, now, pingOk) then View(AfterAttempt(guard, attempt), now, v.tryEvery) else v.(guard := guard)
  }

  class Lock {
    var guard: Option<Session>
    var lastTry: int
    const tryEvery: nat

    constructor (now: int, tryEvery: nat)
      ensures guard == None && lastTry == now - tryEvery && this.tryEvery == tryEvery
    {
      this.tryEvery := tryEvery;
      guard := None;
      lastTry := now - tryEvery;
    }

    function Snapshot(): View
      reads this
    {
      View(guard, lastTry, tryEvery)
    }

    method TryAcquire(now: int, pingOk: bool, attempt: Attempt) returns (r: Result<bool, Failure>)
      modifies this
      ensures Snapshot() == AfterAcquire(old(Snapshot()), now, pingOk, attempt)
      // the answer says whether the guard is held, and an error means that it is not
      ensures r.Ok? ==> r.value == guard.Some?
      ensures r.Err? ==> guard.None?
      ensures r.Err? <==> Tries(old(Snapshot()), now, pingOk) && (attempt.NoConnection? || attempt.QueryFailed?)
    {
      if guard.Some? && !pingOk {
        guard := None;
      }
      if guard.None? && now - lastTry >= tryEvery {
        lastTry := now;
        match attempt
        case NoConnection => return Err(Failure);
        case QueryFailed(_) => return Err(Failure);
        case Refused(_) =>
        case Granted(session) => guard := Some(session);
      }
      return Ok(guard.Some?);
    }

    /** Returns the session the unlock statement is sent to. */
    method Release() returns (unlocked: Option<Session>)
      modifies this`guard
      ensures guard.None? && unlocked == old(guard)
    {
      unlocked := guard;
      guard := None;
    }
  }

  class Tracker {
    const lock: Lock?
    var isLeader: bool
    var wasLeader: bool

    constructor (lock: Lock?)
      requires lock != null ==> lock.guard.None?
      ensures this.lock == lock && Valid() && !wasLeader
    {
      this.lock := lock;
      isLeader, wasLeader := false, false;
    }

    /** The flag tells whether the guard is held. */
    predicate Valid()
      reads this, lock
    {
      lock != null ==> (isLeader <==> lock.guard.Some?)
    }

    /** Without a lock the instance always leads. */
    predicate Leads()
      reads this
    {
      lock == null || isLeader
    }

    predicate JustSteppedUp()
      reads this
    {
      lock != null && isLeader && !wasLeader
    }

    method TryAcquire(now: int, pingOk: bool, attempt: Attempt)
      requires Valid()
      modifies this, lock
      ensures Valid()
      ensures lock != null ==> wasLeader == old(isLeader)
      ensures lock != null ==>
                && (Leads() <==> lock.guard.Some?)
                && (JustSteppedUp() <==> old(lock.guard).None? && lock.guard.Some?)
                && lock.Snapshot() == AfterAcquire(old(lock.Snapshot()), now, pingOk, attempt)
    {
      if lock == null { return; }
      wasLeader := isLeader;
      var r := lock.TryAcquire(now, pingOk, attempt);
      isLeader := if r.Ok? then r.value else false;
    }

    /** Unlocks exactly when the guard is held. */
    method Release() returns (unlocked: Option<Session>)
      requires Valid()
      modifies lock
      ensures lock == null ==> unlocked == None
      ensures lock != null ==> unlocked == old(lock.guard) && lock.guard.None?
    {
      unlocked := None;
      if lock != null && isLeader {
        unlocked := lock.Release();
      }
    }
  }

  // ------------------------------------------------------- all instances and the server

  type Instance = nat

  datatype Member = Member(guard: Option<Session>, pool: set<Session>)

  /** An advisory lock belongs to a session, which may take it several times over. */
  datatype State = State(
    owner: Option<Session>,
    depth: nat,
    alive: set<Session>,
    used: set<Session>,
    members: map<Instance, Member>)

  datatype Step =
    | OpenSession(i: Instance, session: Session)
    | SessionDies(session: Session)
    | Ping(i: Instance, ok: bool, pooled: bool)
    | TryLock(i: Instance, attempt: Attempt, taken: bool, pooled: bool)
    | Unlock(i: Instance, executed: bool)

  function Sessions(m: Member): set<Session>
  {
    m.pool + if m.guard.Some? then {m.guard.value} else {}
  }

  function SetMember(s: State, i: Instance, m: Member): State
  {
    s.(members := s.members[i := m])
  }

  /** The server's side of a lock request: a free lock, or one the session has already, is granted. */
  predicate Grants(s: State, session: Session)
  {
    session in s.alive && (s.owner.None? || s.owner.value == session)
  }

  function TakeLock(s: State, session: Session): State
  {
    s.(owner := Some(session), depth := s.depth + 1)
  }

  /** Which outcomes a request on a session can have: answers are true, but any answer may get lost. */
  predicate Possible(s: State, attempt: Attempt, taken: bool)
  {
    match attempt
    case NoConnection => !taken
    case QueryFailed(session) => taken ==> Grants(s, session)
    case Refused(session) => !taken && session in s.alive && !Grants(s, session)
    case Granted(session) => taken && Grants(s, session)
  }

  /** Steps that are not possible change nothing. */
  function Next(s: State, step: Step): State
  {
    match step
    case OpenSession(i, session) =>
      if i !in s.members || session in s.used then s
      else
        SetMember(s, i, s.members[i].(pool := s.members[i].pool + {session}))
        .(alive := s.alive + {session}, used := s.used + {session})
    case SessionDies(session) =>
      s.(alive := s.alive - {session},
         owner := if s.owner == Some(session) then None else s.owner,
         depth := if s.owner == Some(session) then 0 else s.depth)
    case Ping(i, ok, pooled) =>
      if i !in s.members || s.members[i].guard.None? || (ok && s.members[i].guard.value !in s.alive) then s
      else
        var m := s.members[i];
        SetMember(s, i, Member(AfterPing(m.guard, ok), if !ok && pooled then m.pool + {m.guard.value} else m.pool))
    case TryLock(i, attempt, taken, pooled) =>
      if i !in s.members || s.members[i].guard.Some? || !Possible(s, attempt, taken) then s
      else if attempt.NoConnection? then s
      else if attempt.session !in s.members[i].pool then s
      else
        var m := s.members[i];
        var pool := if attempt.Granted? || !pooled then m.pool - {attempt.session} else m.pool;
        SetMember(if taken then TakeLock(s, attempt.session) else s, i, Member(AfterAttempt(m.guard, attempt), pool))
    case Unlock(i, executed) =>
      if i !in s.members || s.members[i].guard.None? then s
      else
        var m := s.members[i];
        var session := m.guard.value;
        var released := SetMember(s, i, Member(None, m.pool + {session}));
        if !executed || session !in s.alive || s.owner != Some(session) then released
        else if s.depth <= 1 then released.(owner := None, depth := 0)
        else released.(depth := s.depth - 1)
  }

  function Run(s: State, steps: seq<Step>): State
    decreases |steps|
  {
    if steps == [] then s else Run(Next(s, steps[0]), steps[1..])
  }

  predicate Initial(s: State)
  {
    s.owner.None? && s.depth == 0 && s.alive == {} && s.used == {} &&
    forall i | i in s.members :: s.members[i] == Member(None, {})
  }

  ghost predicate Inv(s: State)
  {
    && s.alive <= s.used
    && (if s.owner.Some? then s.owner.value in s.alive && s.depth > 0 else s.depth == 0)
    && (forall i | i in s.members :: Sessions(s.members[i]) <= s.used)
    && (forall i | i in s.members && s.members[i].guard.Some? ::
          && s.members[i].guard.value !in s.members[i].pool
          && (s.members[i].guard.value in s.alive ==> s.owner == s.members[i].guard))
    && (forall i, j | i in s.members && j in s.members && i != j ::
          Sessions(s.members[i]) !! Sessions(s.members[j]))
  }

  lemma LockStepKeepsInv(s: State, step: Step)
    requires Inv(s) && step.TryLock?
    ensures Inv(Next(s, step))
  {
  }

  lemma GuardStepKeepsInv(s: State, step: Step)
    requires Inv(s) && (step.Ping? || step.Unlock?)
    ensures Inv(Next(s, step))
  {
  }

  lemma SessionStepKeepsInv(s: State, step: Step)
    requires Inv(s) && (step.OpenSession? || step.SessionDies?)
    ensures Inv(Next(s, step))
  {
  }

  lemma StepKeepsInv(s: State, step: Step)
    requires Inv(s)
    ensures Inv(Next(s, step))
  {
    if step.TryLock? {
      LockStepKeepsInv(s, step);
    } else if step.Ping? || step.Unlock? {
      GuardStepKeepsInv(s, step);
    } else {
      SessionStepKeepsInv(s, step);
    }
  }

  lemma {:induction false} RunKeepsInv(s: State, steps: seq<Step>)
    requires Inv(s)
    ensures Inv(Run(s, steps))
    decreases |steps|
  {
    if steps != [] {
      StepKeepsInv(s, steps[0]);
      RunKeepsInv(Next(s, steps[0]), steps[1..]);
    }
  }

  predicate LeadsAlive(s: State, i: Instance)
  {
    i in s.members && s.members[i].guard.Some? && s.members[i].guard.value in s.alive
  }

  /**
   In every interleaving, with any answer lost and any session dying at any time, an instance
   holding a guard on a live session owns the server's lock, and there is at most one.
   */
  lemma OneLiveLeader(s0: State, steps: seq<Step>, i: Instance, j: Instance)
    requires Initial(s0)
    ensures
      var s := Run(s0, steps);
      && (LeadsAlive(s, i) ==> s.owner == s.members[i].guard)
      && (LeadsAlive(s, i) && LeadsAlive(s, j) ==> i == j)
  {
    RunKeepsInv(s0, steps);
    var s := Run(s0, steps);
    if LeadsAlive(s, i) && LeadsAlive(s, j) {
      assert s.members[i].guard.value in Sessions(s.members[i]);
      assert s.members[j].guard.value in Sessions(s.members[j]);
    }
  }

  // ------------------------------------------------------------------- when the lock is free

  /** The owner of the lock is held by a guard, and taken once. */
  ghost predicate NoOrphan(s: State)
  {
    s.owner.Some? ==> s.depth == 1 && exists i :: i in s.members && s.members[i].guard == s.owner
  }

  /**
   The step cannot take the lock away from the guards: a failed ping or an unlock that is not
   executed is about a dead session, and a request whose answer is lost did not get the lock.
   */
  predicate Harmless(s: State, step: Step)
  {
    match step
    case Ping(i, ok, _) =>
      !ok && i in s.members && s.members[i].guard.Some? ==> s.members[i].guard.value !in s.alive
    case TryLock(i, attempt, taken, _) =>
      !(&& attempt.QueryFailed? && taken && Possible(s, attempt, taken)
        && i in s.members && s.members[i].guard.None? && attempt.session in s.members[i].pool)
    case Unlock(i, executed) =>
      !executed && i in s.members && s.members[i].guard.Some? ==> s.members[i].guard.value !in s.alive
    case _ => true
  }

  /** A guard keeps holding the lock under every harmless step. */
  lemma HarmlessKeepsNoOrphan(s: State, step: Step)
    requires Inv(s) && NoOrphan(s) && Harmless(s, step)
    ensures NoOrphan(Next(s, step))
  {
    var s' := Next(s, step);
    if s.owner.Some? && s'.owner == s.owner {
      var i :| i in s.members && s.members[i].guard == s.owner;
      assert s.owner.value in Sessions(s.members[i]);
      assert s'.members[i].guard == s.owner;
    } else if s'.owner.Some? {
      assert step.TryLock? && s'.members[step.i].guard == s'.owner;
    }
  }

  /** Any other step leaves the lock taken and no guard that holds it. */
  lemma HarmfulOrphans(s: State, step: Step)
    requires Inv(s) && NoOrphan(s) && !Harmless(s, step)
    ensures !NoOrphan(Next(s, step))
  {
    var s', i := Next(s, step), step.i;
    assert s'.owner.Some?;
    forall j | j in s'.members
      ensures s'.members[j].guard != s'.owner
    {
      if j != i && s.members[j].guard.Some? {
        assert s.members[j].guard.value in Sessions(s.members[j]);
        assert s'.owner.value in Sessions(s.members[i]);
      }
    }
  }

  lemma NoOrphanIff(s: State, step: Step)
    requires Inv(s) && NoOrphan(s)
    ensures NoOrphan(Next(s, step)) <==> Harmless(s, step)
  {
    if Harmless(s, step) {
      HarmlessKeepsNoOrphan(s, step);
    } else {
      HarmfulOrphans(s, step);
    }
  }

  /** All steps of a run are harmless in the states they are taken in. */
  predicate HarmlessRun(s: State, steps: seq<Step>)
  {
    var n := |steps| - 1;
    steps == [] || (HarmlessRun(s, steps[..n]) && Harmless(RunUpTo(s, steps[..n]), steps[n]))
  }

  /** No state of a run has a lock without a guard. */
  ghost predicate NeverOrphaned(s: State, steps: seq<Step>)
  {
    NoOrphan(RunUpTo(s, steps)) && (steps == [] || NeverOrphaned(s, steps[..|steps| - 1]))
  }

  /** The same run, seen from its last step. */
  function RunUpTo(s: State, steps: seq<Step>): State
  {
    if steps == [] then s else Next(RunUpTo(s, steps[..|steps| - 1]), steps[|steps| - 1])
  }

  lemma {:induction false} RunUpToIsRun(s: State, steps: seq<Step>)
    ensures RunUpTo(s, steps) == Run(s, steps)
    decreases |steps|
  {
    if steps != [] {
      var n := |steps| - 1;
      RunUpToIsRun(s, steps[..n]);
      RunAppend(s, steps[..n], steps[n]);
      assert steps[..n] + [steps[n]] == steps;
    }
  }

  lemma {:induction false} RunAppend(s: State, steps: seq<Step>, step: Step)
    ensures Run(s, steps + [step]) == Next(Run(s, steps), step)
    decreases |steps|
  {
    if steps == [] {
      assert ([] + [step])[1..] == [];
    } else {
      assert (steps + [step])[1..] == steps[1..] + [step];
      RunAppend(Next(s, steps[0]), steps[1..], step);
    }
  }

  lemma InitialInv(s: State)
    requires Initial(s)
    ensures Inv(s) && NoOrphan(s)
  {
  }

  /** The lock is never orphaned in a run if and only if all its steps are harmless. */
  lemma {:induction false} NeverOrphanedIff(s0: State, steps: seq<Step>)
    requires Initial(s0)
    ensures Inv(RunUpTo(s0, steps))
    ensures NeverOrphaned(s0, steps) <==> HarmlessRun(s0, steps)
  {
    InitialInv(s0);
    if steps != [] {
      var n := |steps| - 1;
      NeverOrphanedIff(s0, steps[..n]);
      var s := RunUpTo(s0, steps[..n]);
      StepKeepsInv(s, steps[n]);
      if NoOrphan(s) {
        NoOrphanIff(s, steps[n]);
      }
    }
  }

  /**
   In a state without an orphaned lock, and so after every run of harmless steps, a follower's
   request on a live session is granted exactly when no instance leads on a live session.
   */
  lemma GrantedIffNoLiveLeader(s: State, i: Instance, session: Session)
    requires Inv(s) && NoOrphan(s)
    requires i in s.members && session in s.members[i].pool && session in s.alive
    ensures Grants(s, session) <==> forall j :: !LeadsAlive(s, j)
    // so an answer that arrives says who leads
    ensures Possible(s, Granted(session), true) <==> forall j :: !LeadsAlive(s, j)
    ensures Possible(s, Refused(session), false) <==> exists j :: LeadsAlive(s, j)
  {
    if s.owner.Some? {
      var j :| j in s.members && s.members[j].guard == s.owner;
      assert LeadsAlive(s, j);
      assert session in Sessions(s.members[i]) && s.owner.value in Sessions(s.members[j]);
    }
  }

  /** Leadership never gets stuck in a run of harmless steps. */
  lemma LeadershipNeverStuck(s0: State, steps: seq<Step>, i: Instance, session: Session)
    requires Initial(s0) && HarmlessRun(s0, steps)
    ensures
      var s := Run(s0, steps);
      i in s.members && session in s.members[i].pool && session in s.alive ==>
        (Grants(s, session) <==> forall j :: !LeadsAlive(s, j))
  {
    NeverOrphanedIff(s0, steps);
    RunUpToIsRun(s0, steps);
    var s := Run(s0, steps);
    if i in s.members && session in s.members[i].pool && session in s.alive {
      GrantedIffNoLiveLeader(s, i, session);
    }
  }

  /** It does after a ping that is lost on a live session: the lock is taken and there is no leader at all. */
  lemma LostPingOrphansLock(s: State, i: Instance, session: Session)
    requires Inv(s) && LeadsAlive(s, i)
    ensures
      var s' := Next(s, Ping(i, false, true));
      && (forall j :: !LeadsAlive(s', j))
      && (session != s.members[i].guard.value ==> !Grants(s', session))
  {
    var s' := Next(s, Ping(i, false, true));
    forall j
      ensures !LeadsAlive(s', j)
    {
      if j in s.members && j != i && s.members[j].guard.Some? {
        assert s.members[j].guard.value in Sessions(s.members[j]);
        assert s.members[i].guard.value in Sessions(s.members[i]);
      }
    }
  }

  /**
   When the session of a leader dies, another instance can lead at once. The old leader keeps its guard,
   and with it the work it has begun, until its next ping.
   */
  lemma LeadershipPassesOnDeath(s: State, i: Instance, j: Instance, session: Session)
    requires Inv(s) && LeadsAlive(s, i) && i != j
    requires j in s.members && session in s.members[j].pool && session in s.alive
    ensures
      var s' := Next(s, SessionDies(s.members[i].guard.value));
      Grants(s', session) && s'.members[i].guard == s.members[i].guard
  {
    assert s.members[i].guard.value in Sessions(s.members[i]) && session in Sessions(s.members[j]);
  }
}
