/** The lock protocol at work on the access-rule array: the property it exists for, and its limit. */
module RuleConcurrency {
  import opened Prelude
  import opened AccessRules
  import opened RedisLock

  /** What each locked rule mutation computes from the array it read. */
  function Section(gw: Gateway): (RuleOp, seq<Rule>) -> Option<seq<Rule>> {
    (op: RuleOp, rules: seq<Rule>) => Apply(gw, op, rules)
  }

  lemma {:induction false} ReplayKeepsDistinctIds(gw: Gateway, rules: seq<Rule>, log: seq<Entry<RuleOp>>)
    requires DistinctIds(rules) && forall e :: e in log ==> KeepsIds(e.op)
    ensures Replay(rules, log, Section(gw)).Some? ==> DistinctIds(Replay(rules, log, Section(gw)).value)
  {
    if log != [] {
      var front, last := log[..|log| - 1], log[|log| - 1];
      ReplayKeepsDistinctIds(gw, rules, front);
      var before := Replay(rules, front, Section(gw));
      if before.Some? && Apply(gw, last.op, before.value).Some? {
        ApplyKeepsDistinctIds(gw, last.op, before.value);
      }
    }
  }

  /**
   Any number of admins adding, replacing, deleting and reconfiguring rules at once, each write
   beating its TTL: the stored array is their operations applied one at a time in write order, every
   caller got the outcome of that order, and no two rules share an id.
   */
  lemma RulesNeverLost(gw: Gateway, rules: seq<Rule>, steps: seq<Step<RuleOp>>)
    requires Legal(Start(rules), steps, Section(gw)) && TimelyRun(Start(rules), steps, Section(gw))
    requires DistinctIds(rules)
    ensures var w := Exec(Start(rules), steps, Section(gw));
            && Replay(rules, w.log, Section(gw)) == Some(w.stored)
            && ((forall e :: e in w.log ==> KeepsIds(e.op)) ==> DistinctIds(w.stored))
  {
    NoLostUpdate(rules, steps, Section(gw));
    var w := Exec(Start(rules), steps, Section(gw));
    if forall e :: e in w.log ==> KeepsIds(e.op) {
      ReplayKeepsDistinctIds(gw, rules, w.log);
    }
  }

  // ── How long a section may take ───────────────────────────────────────────

  /**
   Leases last `ttl`, which Redis takes as an expiry only if it is positive, and a section that writes does
   so within `d` of getting its lease.
   */
  predicate Bounded(w: World<RuleOp, seq<Rule>>, step: Step<RuleOp>, ttl: nat, d: nat)
    requires Enabled(w, step)
  {
    && (step.TrySet? ==> step.ttlMs == ttl && ttl > 0)
    && (step.Write? ==> w.now + ttl <= At(w, step.client).expiresAt + d)
  }

  predicate BoundedRun(w: World<RuleOp, seq<Rule>>, steps: seq<Step<RuleOp>>, ttl: nat, d: nat, gw: Gateway)
    requires Legal(w, steps, Section(gw))
    decreases |steps|
  {
    steps == [] ||
    (BoundedRun(w, steps[..|steps| - 1], ttl, d, gw)
     && Bounded(Exec(w, steps[..|steps| - 1], Section(gw)), steps[|steps| - 1], ttl, d))
  }

  lemma {:induction false} BoundedIsTimely(rules: seq<Rule>, steps: seq<Step<RuleOp>>, ttl: nat, d: nat, gw: Gateway)
    requires d < ttl && Legal(Start(rules), steps, Section(gw)) && BoundedRun(Start(rules), steps, ttl, d, gw)
    ensures TimelyRun(Start(rules), steps, Section(gw))
  {
    if steps != [] {
      BoundedIsTimely(rules, steps[..|steps| - 1], ttl, d, gw);
    }
  }

  /** With a TTL that Redis refuses nobody ever gets in. */
  lemma {:induction false} NobodyEnters(rules: seq<Rule>, steps: seq<Step<RuleOp>>, d: nat, gw: Gateway)
    requires Legal(Start(rules), steps, Section(gw)) && BoundedRun(Start(rules), steps, 0, d, gw)
    ensures TimelyRun(Start(rules), steps, Section(gw))
    ensures forall c :: !At(Exec(Start(rules), steps, Section(gw)), c).InSection()
  {
    if steps != [] {
      var front, last := steps[..|steps| - 1], steps[|steps| - 1];
      NobodyEnters(rules, front, d, gw);
      StaysOutside(Exec(Start(rules), front, Section(gw)), last, gw);
    }
  }

  lemma StaysOutside(w: World<RuleOp, seq<Rule>>, step: Step<RuleOp>, gw: Gateway)
    requires Enabled(w, step) && !step.TrySet? && forall c :: !At(w, c).InSection()
    ensures !step.Write? && forall c :: !At(Next(w, step, Section(gw)), c).InSection()
  {
    assert (step.Read? || step.Write?) ==> !At(w, step.client).InSection();
    forall c ensures !At(Next(w, step, Section(gw)), c).InSection() {
      assert !At(w, c).InSection();
    }
  }

  /** In no run of this kind does the stored array differ from the finished operations, one at a time. */
  ghost predicate NothingLost(ttl: nat, d: nat, gw: Gateway) {
    forall rules, steps :: Legal(Start(rules), steps, Section(gw)) && BoundedRun(Start(rules), steps, ttl, d, gw) ==>
      Replay(rules, Exec(Start(rules), steps, Section(gw)).log, Section(gw))
          == Some(Exec(Start(rules), steps, Section(gw)).stored)
  }

  /** Exactly the sections bounded below the TTL never lose an operation, whatever TTL Redis accepts. */
  lemma NothingLostExactly(ttl: nat, d: nat, gw: Gateway)
    ensures NothingLost(ttl, d, gw) <==> ttl == 0 || d < ttl
  {
    if ttl == 0 || d < ttl {
      forall rules, steps | Legal(Start(rules), steps, Section(gw)) && BoundedRun(Start(rules), steps, ttl, d, gw)
        ensures Replay(rules, Exec(Start(rules), steps, Section(gw)).log, Section(gw))
                == Some(Exec(Start(rules), steps, Section(gw)).stored)
      {
        if ttl == 0 {
          NobodyEnters(rules, steps, d, gw);
        } else {
          BoundedIsTimely(rules, steps, ttl, d, gw);
        }
        NoLostUpdate(rules, steps, Section(gw));
      }
    } else {
      var a, b := AnyRule("a"), AnyRule("b");
      assert a.id != b.id;
      LateWriteLosesRule(gw, a, b, ttl, d);
    }
  }

  function AnyRule(id: string): Rule {
    Rule(id, Upstream("", None, None), "", [], [], Handler("allow", NoConfig), [], [])
  }

  /** Two adds; the first caller pauses for its whole TTL between its read and its write. */
  function LateRun(a: Rule, b: Rule, ttl: nat): seq<Step<RuleOp>> {
    [Begin(0, Add(a), 0), TrySet(0, ttl), Read(0), Tick(ttl),
     Begin(1, Add(b), 0), TrySet(1, ttl), Read(1), Write(1), Write(0)]
  }

  /**
   A write that comes a whole TTL after its lease erases the rule another caller added meanwhile,
   although both callers were told they succeeded.
   */
  lemma LateWriteLosesRule(gw: Gateway, a: Rule, b: Rule, ttl: nat, d: nat)
    requires a.id != b.id && 0 < ttl <= d
    ensures Legal(Start([]), LateRun(a, b, ttl), Section(gw)) && BoundedRun(Start([]), LateRun(a, b, ttl), ttl, d, gw)
    ensures var w := Exec(Start([]), LateRun(a, b, ttl), Section(gw));
            && w.log == [Entry(Add(b), true), Entry(Add(a), true)]
            && w.stored == [a]
            && Replay([], w.log, Section(gw)) == Some([b, a])
  {
    var steps := LateRun(a, b, ttl);
    var w3 := FirstReads(gw, a, b, ttl, d);
    var w6 := SecondEnters(gw, a, b, w3, ttl, d);
    LateWrite(gw, a, b, w6, ttl, d);
    ReplayTwo(gw, a, b);
  }

  lemma SecondEnters(gw: Gateway, a: Rule, b: Rule, w3: World<RuleOp, seq<Rule>>, ttl: nat, d: nat)
    returns (w6: World<RuleOp, seq<Rule>>)
    requires ttl > 0 && Reached(LateRun(a, b, ttl), 3, w3, ttl, d, gw)
    requires Shape(w3, 0, Some(Lease(0, ttl)), [], 1, Ready(Add(a), 0, ttl, [a]), Idle, [])
    ensures Reached(LateRun(a, b, ttl), 6, w6, ttl, d, gw)
    ensures Shape(w6, ttl, Some(Lease(1, 2 * ttl)), [], 2, Ready(Add(a), 0, ttl, [a]), Entered(Add(b), 1, 2 * ttl), [])
  {
    var w5 := SecondBegins(gw, a, b, w3, ttl, d);
    w6 := OneMore(LateRun(a, b, ttl), 5, w5, ttl, d, gw);
  }

  lemma SecondBegins(gw: Gateway, a: Rule, b: Rule, w3: World<RuleOp, seq<Rule>>, ttl: nat, d: nat)
    returns (w5: World<RuleOp, seq<Rule>>)
    requires ttl > 0 && Reached(LateRun(a, b, ttl), 3, w3, ttl, d, gw)
    requires Shape(w3, 0, Some(Lease(0, ttl)), [], 1, Ready(Add(a), 0, ttl, [a]), Idle, [])
    ensures Reached(LateRun(a, b, ttl), 5, w5, ttl, d, gw)
    ensures Shape(w5, ttl, Some(Lease(0, ttl)), [], 2, Ready(Add(a), 0, ttl, [a]), Trying(Add(b), 1, ttl), [])
  {
    var steps := LateRun(a, b, ttl);
    var w4 := OneMore(steps, 3, w3, ttl, d, gw);
    w5 := OneMore(steps, 4, w4, ttl, d, gw);
  }

  lemma LateWrite(gw: Gateway, a: Rule, b: Rule, w6: World<RuleOp, seq<Rule>>, ttl: nat, d: nat)
    requires a.id != b.id && 0 < ttl <= d
    requires Reached(LateRun(a, b, ttl), 6, w6, ttl, d, gw)
    requires Shape(w6, ttl, Some(Lease(1, 2 * ttl)), [], 2, Ready(Add(a), 0, ttl, [a]), Entered(Add(b), 1, 2 * ttl), [])
    ensures Legal(Start([]), LateRun(a, b, ttl), Section(gw)) && BoundedRun(Start([]), LateRun(a, b, ttl), ttl, d, gw)
    ensures var w := Exec(Start([]), LateRun(a, b, ttl), Section(gw));
            w.log == [Entry(Add(b), true), Entry(Add(a), true)] && w.stored == [a]
  {
    var steps := LateRun(a, b, ttl);
    Adding(gw, a, b);
    var w7 := OneMore(steps, 6, w6, ttl, d, gw);
    assert Shape(w7, ttl, Some(Lease(1, 2 * ttl)), [], 2, Ready(Add(a), 0, ttl, [a]), Ready(Add(b), 1, 2 * ttl, [b]),
           []);
    var w8 := OneMore(steps, 7, w7, ttl, d, gw);
    assert Shape(w8, ttl, Some(Lease(1, 2 * ttl)), [b], 2, Ready(Add(a), 0, ttl, [a]), Leaving(1),
           [Entry(Add(b), true)]);
    var w9 := OneMore(steps, 8, w8, ttl, d, gw);
    assert steps[..9] == steps;
  }

  ghost predicate Shape(
    w: World<RuleOp, seq<Rule>>, now: nat, lease: Option<Lease>, stored: seq<Rule>, issued: nat,
    p0: Phase<RuleOp, seq<Rule>>, p1: Phase<RuleOp, seq<Rule>>, log: seq<Entry<RuleOp>>)
  {
    && w.now == now && w.lease == lease && w.stored == stored && w.issued == issued
    && At(w, 0) == p0 && At(w, 1) == p1 && w.log == log
  }

  /** The world after the first `n` steps. */
  ghost predicate Reached(steps: seq<Step<RuleOp>>, n: nat, w: World<RuleOp, seq<Rule>>, ttl: nat, d: nat,
      gw: Gateway) {
    && n <= |steps| && Legal(Start([]), steps[..n], Section(gw))
    && BoundedRun(Start([]), steps[..n], ttl, d, gw)
    && w == Exec(Start([]), steps[..n], Section(gw))
  }

  lemma FirstReads(gw: Gateway, a: Rule, b: Rule, ttl: nat, d: nat) returns (w3: World<RuleOp, seq<Rule>>)
    requires a.id != b.id && ttl > 0
    ensures Reached(LateRun(a, b, ttl), 3, w3, ttl, d, gw)
    ensures Shape(w3, 0, Some(Lease(0, ttl)), [], 1, Ready(Add(a), 0, ttl, [a]), Idle, [])
  {
    var steps := LateRun(a, b, ttl);
    assert steps[..0] == [];
    var w1 := OneMore(steps, 0, Start([]), ttl, d, gw);
    var w2 := OneMore(steps, 1, w1, ttl, d, gw);
    Adding(gw, a, b);
    w3 := OneRead(gw, a, b, w2, ttl, d);
  }

  lemma OneRead(gw: Gateway, a: Rule, b: Rule, w2: World<RuleOp, seq<Rule>>, ttl: nat, d: nat)
    returns (w3: World<RuleOp, seq<Rule>>)
    requires Reached(LateRun(a, b, ttl), 2, w2, ttl, d, gw) && Section(gw)(Add(a), []) == Some([a])
    requires Shape(w2, 0, Some(Lease(0, ttl)), [], 1, Entered(Add(a), 0, ttl), Idle, [])
    ensures Reached(LateRun(a, b, ttl), 3, w3, ttl, d, gw)
    ensures Shape(w3, 0, Some(Lease(0, ttl)), [], 1, Ready(Add(a), 0, ttl, [a]), Idle, [])
  {
    w3 := OneMore(LateRun(a, b, ttl), 2, w2, ttl, d, gw);
  }

  lemma Adding(gw: Gateway, a: Rule, b: Rule)
    requires a.id != b.id
    ensures Section(gw)(Add(a), []) == Some([a])
    ensures Section(gw)(Add(b), []) == Some([b])
    ensures Section(gw)(Add(a), [b]) == Some([b, a])
  {
    assert [] + [a] == [a] && [] + [b] == [b] && [b] + [a] == [b, a];
    assert IndexOf([b], a.id) == 1;
  }

  lemma ReplayTwo(gw: Gateway, a: Rule, b: Rule)
    requires a.id != b.id
    ensures Replay([], [Entry(Add(b), true), Entry(Add(a), true)], Section(gw)) == Some([b, a])
  {
    Adding(gw, a, b);
    var log := [Entry(Add(b), true), Entry(Add(a), true)];
    assert log[..1] == [Entry(Add(b), true)] && log[..1][..0] == [];
    assert Replay([], log[..1], Section(gw)) == Some([b]);
  }

  lemma OneMore(steps: seq<Step<RuleOp>>, n: nat, w: World<RuleOp, seq<Rule>>, ttl: nat, d: nat, gw: Gateway)
    returns (w': World<RuleOp, seq<Rule>>)
    requires n < |steps| && Reached(steps, n, w, ttl, d, gw)
    requires Enabled(w, steps[n]) && Bounded(w, steps[n], ttl, d)
    ensures Reached(steps, n + 1, w', ttl, d, gw) && w' == Next(w, steps[n], Section(gw))
  {
    assert steps[..n + 1] == steps[..n] + [steps[n]];
    assert steps[..n + 1][..n] == steps[..n];
    ExecSnoc(Start([]), steps[..n], steps[n], Section(gw));
    w' := Next(w, steps[n], Section(gw));
  }
}
