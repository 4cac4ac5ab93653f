/**
 The Redis mutex that serialises every read-modify-write section, modelled twice:

 - `LockKey` and `WithRedisLock` are the acquire loop and the compare-and-delete release of one
   caller, with every other caller reduced to what it may do to the key;
 - `World` and `Step` are the whole protocol: any number of clients, interleaved one Redis command
   or one clock reading at a time, each running a section that reads the shared value, computes,
   and writes the result back.
 */
module RedisLock {
  import opened Prelude

  /** The value stored under the lock key: the holder's token, and when Redis drops the key. */
  datatype Lease = Lease(token: nat, expiresAt: nat)

  /** Redis treats an expired key as absent. */
  predicate Live(lease: Option<Lease>, now: nat) {
    lease.Some? && now < lease.value.expiresAt
  }

  predicate HeldBy(lease: Option<Lease>, token: nat) {
    lease.Some? && lease.value.token == token
  }

  // ── One caller ────────────────────────────────────────────────────────────

  class LockKey {
    var now: nat
    var lease: Option<Lease>

    constructor ()
      ensures now == 0 && lease == None
    {
      now, lease := 0, None;
    }

    /** `SET key token PX ttl NX` */
    method SetNxPx(token: nat, ttlMs: nat) returns (ok: bool)
      modifies this
      ensures now == old(now)
      ensures ok <==> !Live(old(lease), now)
      ensures lease == if ok then Some(Lease(token, now + ttlMs)) else old(lease)
    {
      ok := !Live(lease, now);
      if ok {
        lease := Some(Lease(token, now + ttlMs));
      }
    }

    /** The release script: delete the key only while it still holds our token. */
    method CompareAndDelete(token: nat) returns (deleted: bool)
      modifies this
      ensures now == old(now)
      ensures deleted <==> Live(old(lease), now) && HeldBy(old(lease), token)
      ensures lease == if deleted then None else old(lease)
    {
      deleted := Live(lease, now) && HeldBy(lease, token);
      if deleted {
        lease := None;
      }
    }

    /**
     At least `ms` pass while other callers do whatever the protocol lets them: they never write a
     token that is not theirs, and no command of theirs removes or replaces our live lease.
     */
    method Elapse(ms: nat, mine: nat)
      modifies this
      ensures now >= old(now) + ms
      ensures HeldBy(lease, mine) ==> lease == old(lease)
      ensures HeldBy(old(lease), mine) && Live(old(lease), now) ==> lease == old(lease)
    {
      var late: nat, seen: Option<Lease> := *, *;
      now := now + ms + late;
      if !HeldBy(seen, mine) && !(HeldBy(lease, mine) && Live(lease, now)) {
        lease := seen;
      }
    }
  }

  /** What a call of `withRedisLock` did, with the moments a caller can reason about. */
  datatype Call =
    | Refused
    | Ran(enteredAt: nat, leftAt: nat, leaseAtRelease: Option<Lease>)

  /**
   The acquire loop, the section (of any length) and the release; a timer never fires within a
   millisecond. A refused call has waited its full
   `waitMs` and saw somebody else's live lease last. A call that ran leaves the key without its own
   token, leaves everybody else's lease alone, and held the key throughout if it ended within its TTL.
   */
  method WithRedisLock(key: LockKey, token: nat, ttlMs: nat, waitMs: nat, retryMs: nat, sectionMs: nat)
    returns (call: Call)
    requires !HeldBy(key.lease, token)
    modifies key
    ensures !(Live(key.lease, key.now) && HeldBy(key.lease, token))
    ensures call.Refused? ==>
              key.now >= old(key.now) + waitMs && Live(key.lease, key.now) && !HeldBy(key.lease, token)
    ensures call.Ran? ==> old(key.now) <= call.enteredAt && call.enteredAt + sectionMs <= call.leftAt == key.now
    ensures call.Ran? ==>
              key.lease == (if Live(call.leaseAtRelease, call.leftAt) && HeldBy(call.leaseAtRelease, token)
                            then None else call.leaseAtRelease)
    ensures call.Ran? && call.leftAt < call.enteredAt + ttlMs ==>
              call.leaseAtRelease == Some(Lease(token, call.enteredAt + ttlMs)) && key.lease == None
  {
    var deadline := key.now + waitMs;
    var acquired := false;
    while true
      invariant !acquired && !HeldBy(key.lease, token) && key.now >= old(key.now)
      decreases deadline - key.now
    {
      var ok := key.SetNxPx(token, ttlMs);
      if ok {
        acquired := true;
        break;
      }
      if key.now >= deadline {
        break;
      }
      key.Elapse(if retryMs == 0 then 1 else retryMs, token);
    }
    if !acquired {
      return Refused;
    }
    var enteredAt := key.now;
    key.Elapse(sectionMs, token);
    var found := key.lease;
    var _ := key.CompareAndDelete(token);
    return Ran(enteredAt, key.now, found);
  }

  // ── Every caller ──────────────────────────────────────────────────────────

  /** Where one client stands. `next` is the value it computed from what it read. */
  datatype Phase<Op, V> =
    | Idle
    | Trying(op: Op, token: nat, deadline: nat)
    | Denied(op: Op, token: nat, deadline: nat)
    | Entered(op: Op, token: nat, expiresAt: nat)
    | Ready(op: Op, token: nat, expiresAt: nat, next: V)
    | Leaving(token: nat)
  {
    predicate InSection() {
      Entered? || Ready?
    }
  }

  /** A finished section: the operation, and whether it changed the value or was refused by it. */
  datatype Entry<Op> = Entry(op: Op, changed: bool)

  /** Redis, the clock, the clients, and the finished sections in the order they took effect. */
  datatype World<Op, V> = World(
    now: nat, lease: Option<Lease>, stored: V, issued: nat, phases: map<nat, Phase<Op, V>>, log: seq<Entry<Op>>)

  datatype Step<Op> =
    | Tick(ms: nat)
    | Begin(client: nat, op: Op, waitMs: nat)
    | TrySet(client: nat, ttlMs: nat)
    | CheckClock(client: nat)
    | Read(client: nat)
    | Write(client: nat)
    | Release(client: nat)
    | ReleaseFails(client: nat)
    | Crash(client: nat)

  function Start<Op, V>(v: V): World<Op, V> {
    World(0, None, v, 0, map[], [])
  }

  function At<Op, V>(w: World<Op, V>, c: nat): Phase<Op, V> {
    if c in w.phases then w.phases[c] else Idle
  }

  function Put<Op, V>(w: World<Op, V>, c: nat, p: Phase<Op, V>): (r: World<Op, V>)
    ensures forall d :: At(r, d) == if d == c then p else At(w, d)
  {
    w.(phases := w.phases[c := p])
  }

  predicate Enabled<Op, V>(w: World<Op, V>, step: Step<Op>) {
    match step
    case Tick(_) => true
    case Begin(c, _, _) => At(w, c).Idle?
    case TrySet(c, _) => At(w, c).Trying?
    case CheckClock(c) => At(w, c).Denied?
    case Read(c) => At(w, c).Entered?
    case Write(c) => At(w, c).Ready?
    case Release(c) => At(w, c).Leaving?
    case ReleaseFails(c) => At(w, c).Leaving?
    case Crash(_) => true
  }

  /**
   One step. `apply` is what the section computes from the value it read: the value to write back,
   or nothing when it returns or throws without writing.
   */
  function Next<Op, V>(w: World<Op, V>, step: Step<Op>, apply: (Op, V) -> Option<V>): World<Op, V>
    requires Enabled(w, step)
  {
    match step
    case Tick(ms) => w.(now := w.now + ms)
    case Begin(c, op, waitMs) =>
      Put(w.(issued := w.issued + 1), c, Trying(op, w.issued, w.now + waitMs))
    case TrySet(c, ttlMs) =>
      var p := At(w, c);
      if Live(w.lease, w.now) then Put(w, c, Denied(p.op, p.token, p.deadline))
      else Put(w.(lease := Some(Lease(p.token, w.now + ttlMs))), c, Entered(p.op, p.token, w.now + ttlMs))
    case CheckClock(c) =>
      var p := At(w, c);
      if w.now >= p.deadline then Put(w, c, Idle) else Put(w, c, Trying(p.op, p.token, p.deadline))
    case Read(c) =>
      var p := At(w, c);
      var computed := apply(p.op, w.stored);
      if computed.Some? then Put(w, c, Ready(p.op, p.token, p.expiresAt, computed.value))
      else Put(w.(log := w.log + [Entry(p.op, false)]), c, Leaving(p.token))
    case Write(c) =>
      var p := At(w, c);
      Put(w.(stored := p.next, log := w.log + [Entry(p.op, true)]), c, Leaving(p.token))
    case Release(c) =>
      var t := At(w, c).token;
      Put(w.(lease := if Live(w.lease, w.now) && HeldBy(w.lease, t) then None else w.lease), c, Idle)
    case ReleaseFails(c) => Put(w, c, Idle)
    case Crash(c) => Put(w, c, Idle)
  }

  predicate Legal<Op, V>(w: World<Op, V>, steps: seq<Step<Op>>, apply: (Op, V) -> Option<V>)
    decreases |steps|, 0
  {
    steps == [] ||
    (Legal(w, steps[..|steps| - 1], apply) && Enabled(Exec(w, steps[..|steps| - 1], apply), steps[|steps| - 1]))
  }

  /** The world after a run of steps. */
  function Exec<Op, V>(w: World<Op, V>, steps: seq<Step<Op>>, apply: (Op, V) -> Option<V>): World<Op, V>
    requires Legal(w, steps, apply)
    decreases |steps|, 1
  {
    if steps == [] then w else Next(Exec(w, steps[..|steps| - 1], apply), steps[|steps| - 1], apply)
  }

  /** The TTL outlasts the section: a section that writes does so before its lease expires. */
  predicate Timely<Op, V>(w: World<Op, V>, step: Step<Op>)
    requires Enabled(w, step)
  {
    step.Write? ==> w.now < At(w, step.client).expiresAt
  }

  predicate TimelyRun<Op, V>(w: World<Op, V>, steps: seq<Step<Op>>, apply: (Op, V) -> Option<V>)
    requires Legal(w, steps, apply)
  {
    steps == [] ||
    (TimelyRun(w, steps[..|steps| - 1], apply) && Timely(Exec(w, steps[..|steps| - 1], apply), steps[|steps| - 1]))
  }

  /** The operations of `log`, one at a time, each with the outcome the log claims for it. */
  function Replay<Op, V>(v: V, log: seq<Entry<Op>>, apply: (Op, V) -> Option<V>): Option<V> {
    if log == [] then Some(v)
    else
      var last := log[|log| - 1];
      match Replay(v, log[..|log| - 1], apply)
      case None => None
      case Some(before) =>
        var after := apply(last.op, before);
        if after.Some? != last.changed then None
        else if last.changed then after else Some(before)
  }

  // ── What every run keeps ──────────────────────────────────────────────────

  /** Tokens are random ids: never shared between two clients, never ahead of the generator. */
  ghost predicate TokensUnique<Op, V>(w: World<Op, V>) {
    && (w.lease.Some? ==> w.lease.value.token < w.issued)
    && (forall c :: !At(w, c).Idle? ==> At(w, c).token < w.issued)
    && (forall c, d :: c != d && !At(w, c).Idle? && !At(w, d).Idle? ==> At(w, c).token != At(w, d).token)
  }

  /** A client inside its section owns the key for as long as its TTL runs. */
  ghost predicate LeaseKept<Op, V>(w: World<Op, V>) {
    forall c :: At(w, c).InSection() && w.now < At(w, c).expiresAt ==>
      w.lease == Some(Lease(At(w, c).token, At(w, c).expiresAt))
  }

  /** Until its TTL runs out, what a client is about to write is what the current value calls for. */
  ghost predicate NextCurrent<Op, V>(w: World<Op, V>, apply: (Op, V) -> Option<V>) {
    forall c :: At(w, c).Ready? && w.now < At(w, c).expiresAt ==>
      apply(At(w, c).op, w.stored) == Some(At(w, c).next)
  }

  /** A step moves one client, and a client's token changes only when it begins a new call. */
  lemma StepMovesOne<Op, V>(w: World<Op, V>, step: Step<Op>, apply: (Op, V) -> Option<V>, c: nat)
    requires Enabled(w, step)
    ensures var w' := Next(w, step, apply);
            && (step.Tick? || step.client != c ==> At(w', c) == At(w, c))
            && (!At(w', c).Idle? ==>
                  At(w', c).token == if At(w, c).Idle? then w.issued else At(w, c).token)
            && (At(w, c).Idle? && !At(w', c).Idle? ==> step.Begin? && w'.issued == w.issued + 1)
            && w.issued <= w'.issued
  {
  }

  lemma StepKeepsLease<Op, V>(w: World<Op, V>, step: Step<Op>, apply: (Op, V) -> Option<V>)
    requires Enabled(w, step) && TokensUnique(w) && LeaseKept(w)
    ensures TokensUnique(Next(w, step, apply)) && LeaseKept(Next(w, step, apply))
  {
    var w' := Next(w, step, apply);
    forall c ensures !At(w', c).Idle? ==> At(w', c).token < w'.issued {
      StepMovesOne(w, step, apply, c);
    }
    forall c, d | c != d && !At(w', c).Idle? && !At(w', d).Idle?
      ensures At(w', c).token != At(w', d).token
    {
      StepMovesOne(w, step, apply, c);
      StepMovesOne(w, step, apply, d);
    }
    forall c | At(w', c).InSection() && w'.now < At(w', c).expiresAt
      ensures w'.lease == Some(Lease(At(w', c).token, At(w', c).expiresAt))
    {
      if At(w, c).InSection() {
        assert w.lease == Some(Lease(At(w, c).token, At(w, c).expiresAt));
      }
    }
  }

  lemma StepKeepsNext<Op, V>(w: World<Op, V>, step: Step<Op>, apply: (Op, V) -> Option<V>)
    requires Enabled(w, step) && Timely(w, step)
    requires TokensUnique(w) && LeaseKept(w) && NextCurrent(w, apply)
    ensures NextCurrent(Next(w, step, apply), apply)
  {
    var w' := Next(w, step, apply);
    forall c | At(w', c).Ready? && w'.now < At(w', c).expiresAt
      ensures apply(At(w', c).op, w'.stored) == Some(At(w', c).next)
    {
      StepMovesOne(w, step, apply, c);
      if step.Write? {
        // the writer and `c` would both own the key
        assert false;
      }
    }
  }

  lemma {:induction false} RunKeepsLease<Op, V>(v: V, steps: seq<Step<Op>>, apply: (Op, V) -> Option<V>)
    requires Legal(Start(v), steps, apply)
    ensures TokensUnique(Exec(Start(v), steps, apply)) && LeaseKept(Exec(Start(v), steps, apply))
  {
    if steps != [] {
      var front := steps[..|steps| - 1];
      RunKeepsLease(v, front, apply);
      StepKeepsLease(Exec(Start(v), front, apply), steps[|steps| - 1], apply);
    }
  }

  /** Mutual exclusion, in every run: of the clients inside a section, only one has an unexpired TTL. */
  lemma MutualExclusion<Op, V>(v: V, steps: seq<Step<Op>>, apply: (Op, V) -> Option<V>, c: nat, d: nat)
    requires Legal(Start(v), steps, apply)
    requires var w := Exec(Start(v), steps, apply);
             && At(w, c).InSection() && w.now < At(w, c).expiresAt
             && At(w, d).InSection() && w.now < At(w, d).expiresAt
    ensures c == d
  {
    RunKeepsLease(v, steps, apply);
  }

  /**
   A release never deletes another client's lock, in every run, TTL overruns included: whatever
   lease another client's token owns before the release, it still owns after it.
   */
  lemma ReleaseSparesOthers<Op, V>(v: V, steps: seq<Step<Op>>, apply: (Op, V) -> Option<V>, c: nat, d: nat)
    requires Legal(Start(v), steps, apply)
    requires var w := Exec(Start(v), steps, apply);
             c != d && At(w, c).Leaving? && !At(w, d).Idle? && HeldBy(w.lease, At(w, d).token)
    ensures var w := Exec(Start(v), steps, apply);
            Next(w, Release(c), apply).lease == w.lease
  {
    RunKeepsLease(v, steps, apply);
  }

  /**
   No lost update: in every interleaving whose writes beat their TTL, the stored value is the
   finished operations applied one at a time, in the order they took effect, each with the
   outcome its caller was given.
   */
  lemma {:induction false} NoLostUpdate<Op, V>(v: V, steps: seq<Step<Op>>, apply: (Op, V) -> Option<V>)
    requires Legal(Start(v), steps, apply) && TimelyRun(Start(v), steps, apply)
    ensures var w := Exec(Start(v), steps, apply);
            Replay(v, w.log, apply) == Some(w.stored) && NextCurrent(w, apply)
  {
    if steps != [] {
      var front, step := steps[..|steps| - 1], steps[|steps| - 1];
      NoLostUpdate(v, front, apply);
      RunKeepsLease(v, front, apply);
      StepKeepsNext(Exec(Start(v), front, apply), step, apply);
      StepReplays(v, Exec(Start(v), front, apply), step, apply);
    }
  }

  /** A timely step adds to the log what it does to the stored value. */
  lemma StepReplays<Op, V>(v: V, w: World<Op, V>, step: Step<Op>, apply: (Op, V) -> Option<V>)
    requires Enabled(w, step) && Timely(w, step) && NextCurrent(w, apply)
    requires Replay(v, w.log, apply) == Some(w.stored)
    ensures Replay(v, Next(w, step, apply).log, apply) == Some(Next(w, step, apply).stored)
  {
    var log' := Next(w, step, apply).log;
    if log' != w.log {
      assert log'[..|log'| - 1] == w.log;
    }
  }

  /** Runs are built one step at a time. */
  lemma ExecSnoc<Op, V>(w: World<Op, V>, steps: seq<Step<Op>>, step: Step<Op>, apply: (Op, V) -> Option<V>)
    requires Legal(w, steps, apply) && Enabled(Exec(w, steps, apply), step)
    ensures Legal(w, steps + [step], apply)
    ensures Exec(w, steps + [step], apply) == Next(Exec(w, steps, apply), step, apply)
  {
    assert (steps + [step])[..|steps + [step]| - 1] == steps;
  }
}
