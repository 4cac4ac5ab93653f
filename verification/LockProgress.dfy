/** The lock protocol gets things done: an undisturbed call takes effect, and a waiting one gets its turn. */
module LockProgress {
  import opened Prelude
  import opened RedisLock

  /** The next steps of one client that finds the key free: begin, set, read, write if there is anything, release. */
  function WholeCall<Op, V>(w: World<Op, V>, c: nat, op: Op, waitMs: nat, ttlMs: nat, apply: (Op, V) -> Option<V>)
    : World<Op, V>
    requires At(w, c).Idle? && !Live(w.lease, w.now)
  {
    var held := Next(Next(w, Begin(c, op, waitMs), apply), TrySet(c, ttlMs), apply);
    var computed := Next(held, Read(c), apply);
    Next(if At(computed, c).Ready? then Next(computed, Write(c), apply) else computed, Release(c), apply)
  }

  /**
   A call that finds the key free and is not disturbed does what it is for: the stored value becomes what the
   operation makes of it, the outcome is recorded, and the key is free again.
   */
  lemma WholeCallTakesEffect<Op, V>(w: World<Op, V>, c: nat, op: Op, waitMs: nat, ttlMs: nat,
                                    apply: (Op, V) -> Option<V>)
    requires At(w, c).Idle? && !Live(w.lease, w.now) && ttlMs > 0
    ensures var w', made := WholeCall(w, c, op, waitMs, ttlMs, apply), apply(op, w.stored);
            && w'.stored == (if made.Some? then made.value else w.stored)
            && w'.log == w.log + [Entry(op, made.Some?)]
            && w'.lease == None && At(w', c).Idle? && w'.now == w.now
            && forall d :: d != c ==> At(w', d) == At(w, d)
  {
  }

  /**
   Whoever tries while somebody holds the key is turned away, and tries again until its own deadline; once the
   holder has released, the next try gets in.
   */
  lemma WaitingForTheKey<Op, V>(w: World<Op, V>, c: nat, d: nat, ttlMs: nat, apply: (Op, V) -> Option<V>)
    requires c != d && Live(w.lease, w.now) && At(w, c).Leaving? && HeldBy(w.lease, At(w, c).token) && At(w, d).Trying?
    ensures var denied := Next(w, TrySet(d, ttlMs), apply);
            && denied.lease == w.lease && At(denied, d).Denied?
            && var later := Next(denied, CheckClock(d), apply);
            && (At(later, d) == if w.now >= At(w, d).deadline then Idle else At(w, d))
    ensures var entered := Next(Next(w, Release(c), apply), TrySet(d, ttlMs), apply);
            At(entered, d).Entered? && entered.lease == Some(Lease(At(w, d).token, w.now + ttlMs))
  {
  }
}
