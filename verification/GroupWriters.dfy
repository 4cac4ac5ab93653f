/**
 Who writes one user's group membership, and under which lock. Every writer reads the stored groups and
 writes a list computed from what it read. Group edits and the clean-up after a deleted group hold the user's
 lock from the read to the write; recertification revokes, and the generic identity writes, which put back the
 whole identity they have read, do not.
 */
module GroupWriters {
  import opened Prelude
  import Lock = RedisLock
  import opened GroupList

  /** The groups stored for the user; absent stands for the base group. */
  type Membership = Option<seq<string>>

  function InEffect(m: Membership): seq<string> {
    m.GetOr([BASE_GROUP])
  }

  /** `Edit` replaces the list, unless that adds or removes what the actor may not. */
  datatype GroupOp =
    | Edit(groups: seq<string>, mayNotAdd: set<string>, mayNotRemove: set<string>)
    | CleanUp(name: string)
    | Revoke(name: string)
    | Rewrite

  datatype Kind = Edits | CleanUps | Revokes | Rewrites

  function KindOf(op: GroupOp): Kind {
    match op case Edit(_, _, _) => Edits case CleanUp(_) => CleanUps case Revoke(_) => Revokes case Rewrite => Rewrites
  }

  predicate TakesLock(op: GroupOp) {
    op.Edit? || op.CleanUp?
  }

  function Final(groups: seq<string>): seq<string> {
    if groups == [] then [BASE_GROUP] else groups
  }

  predicate Allowed(op: GroupOp, was: seq<string>)
    requires op.Edit?
  {
    && (forall g :: g in Final(op.groups) && g !in was ==> g !in op.mayNotAdd)
    && (forall g :: g in was && g !in Final(op.groups) ==> g !in op.mayNotRemove)
  }

  /** What a writer that has read `m` writes, if it writes. */
  function Apply(op: GroupOp, m: Membership): Option<Membership> {
    match op
    case Edit(groups, _, _) => if Allowed(op, InEffect(m)) then Some(Some(Final(groups))) else None
    case CleanUp(name) => Dropped(m, name)
    case Revoke(name) => Dropped(m, name)
    case Rewrite => Some(m)
  }

  function Dropped(m: Membership, name: string): Option<Membership> {
    if name in InEffect(m) then Some(Some(Stripped(InEffect(m), {name}))) else None
  }

  function Section(): (GroupOp, Membership) -> Option<Membership> {
    (op: GroupOp, m: Membership) => Apply(op, m)
  }

  /**
   What each writer makes of the groups in effect. An edit goes through exactly if it gains nothing the actor may not
   add and loses nothing the actor may not remove; a revoke or a clean-up takes the one group, if it is there, and
   leaves the others in order.
   */
  lemma WriterMakes(op: GroupOp, m: Membership)
    ensures var held := if m.Some? then m.value else ["users"];
            match op
            case Edit(groups, mayNotAdd, mayNotRemove) =>
              var next := if groups == [] then ["users"] else groups;
              Apply(op, m) == if (forall g :: g in next && g in mayNotAdd ==> g in held)
                                 && (forall g :: g in held && g in mayNotRemove ==> g in next)
                              then Some(Some(next)) else None
            case Rewrite => Apply(op, m) == Some(m)
            case _ =>
              var rest := Filter(held, g => g != op.name);
              Apply(op, m) == if op.name !in held then None else Some(Some(if rest == [] then ["users"] else rest))
  {
    if op.CleanUp? || op.Revoke? {
      WithoutFilters(InEffect(m), {op.name}, g => g != op.name);
    }
  }

  // ── Writers at work ───────────────────────────────────────────────────────

  /** A writer between its read and its write. */
  datatype Open = Open(op: GroupOp, read: Membership)

  datatype World = World(stored: Membership, open: map<nat, Open>, log: seq<Lock.Entry<GroupOp>>)

  datatype Step = Begin(client: nat, op: GroupOp) | Finish(client: nat) | Fail(client: nat)

  function Start(m: Membership): World {
    World(m, map[], [])
  }

  /** The lock lets in one of its holders at a time (their sections end within its TTL); the others just begin. */
  predicate Enabled(w: World, step: Step) {
    match step
    case Begin(c, op) => c !in w.open && (TakesLock(op) ==> forall d :: d in w.open ==> !TakesLock(w.open[d].op))
    case Finish(c) => c in w.open
    case Fail(c) => c in w.open
  }

  function Next(w: World, step: Step): World
    requires Enabled(w, step)
  {
    match step
    case Begin(c, op) => w.(open := w.open[c := Open(op, w.stored)])
    case Finish(c) =>
      var o := w.open[c];
      var out := Apply(o.op, o.read);
      World(out.GetOr(w.stored), w.open - {c}, w.log + [Lock.Entry(o.op, out.Some?)])
    case Fail(c) => w.(open := w.open - {c})
  }

  /** A writer nobody disturbs writes what it makes of the stored groups, and is recorded. */
  lemma LoneWriter(w: World, c: nat, op: GroupOp)
    requires Enabled(w, Begin(c, op))
    ensures var w', out := Next(Next(w, Begin(c, op)), Finish(c)), Apply(op, w.stored);
            w'.stored == (if out.Some? then out.value else w.stored) && w'.open == w.open
            && w'.log == w.log + [Lock.Entry(op, out.Some?)]
  {
    assert w.open[c := Open(op, w.stored)] - {c} == w.open;
  }

  predicate Legal(w: World, steps: seq<Step>)
    decreases |steps|, 0
  {
    steps == [] ||
    (Legal(w, steps[..|steps| - 1]) && Enabled(Exec(w, steps[..|steps| - 1]), steps[|steps| - 1]))
  }

  function Exec(w: World, steps: seq<Step>): World
    requires Legal(w, steps)
    decreases |steps|, 1
  {
    if steps == [] then w else Next(Exec(w, steps[..|steps| - 1]), steps[|steps| - 1])
  }

  lemma Snoc(w: World, steps: seq<Step>, step: Step)
    requires Legal(w, steps) && Enabled(Exec(w, steps), step)
    ensures Legal(w, steps + [step]) && Exec(w, steps + [step]) == Next(Exec(w, steps), step)
  {
    assert (steps + [step])[..|steps|] == steps;
  }

  lemma FourSteps(w: World, a: Step, b: Step, c: Step, d: Step)
    requires Enabled(w, a) && Enabled(Next(w, a), b) && Enabled(Next(Next(w, a), b), c)
    requires Enabled(Next(Next(Next(w, a), b), c), d)
    ensures Legal(w, [a, b, c, d]) && Exec(w, [a, b, c, d]) == Next(Next(Next(Next(w, a), b), c), d)
  {
    Snoc(w, [], a);
    assert [] + [a] == [a] && [a] + [b] == [a, b] && [a, b] + [c] == [a, b, c] && [a, b, c] + [d] == [a, b, c, d];
    Snoc(w, [a], b);
    Snoc(w, [a, b], c);
    Snoc(w, [a, b, c], d);
  }

  /** No update is lost: the stored groups are the finished operations, one at a time, each as its caller saw it. */
  ghost predicate NoneLost(m: Membership, w: World) {
    Lock.Replay(m, w.log, Section()) == Some(w.stored)
  }

  // ── When nothing is lost ──────────────────────────────────────────────────

  /** Whoever finishes finds stored what it had read. */
  predicate Undisturbed(w: World, steps: seq<Step>)
    requires Legal(w, steps)
    decreases |steps|
  {
    steps == [] ||
    var front, last := steps[..|steps| - 1], steps[|steps| - 1];
    && Undisturbed(w, front)
    && (last.Finish? ==> Exec(w, front).open[last.client].read == Exec(w, front).stored)
  }

  lemma {:induction false} UndisturbedLosesNothing(m: Membership, steps: seq<Step>)
    requires Legal(Start(m), steps) && Undisturbed(Start(m), steps)
    ensures NoneLost(m, Exec(Start(m), steps))
  {
    if steps != [] {
      var front, last := steps[..|steps| - 1], steps[|steps| - 1];
      UndisturbedLosesNothing(m, front);
      var w := Exec(Start(m), front);
      if last.Finish? {
        assert Next(w, last).log[..|w.log|] == w.log;
      }
    }
  }

  /** Only writers of these kinds take part. */
  predicate Uses(steps: seq<Step>, kinds: set<Kind>) {
    forall i :: 0 <= i < |steps| && steps[i].Begin? ==> KindOf(steps[i].op) in kinds
  }

  /** The holders of the lock are alone and up to date. */
  ghost predicate OneHolder(w: World) {
    && (forall c :: c in w.open ==> TakesLock(w.open[c].op) && w.open[c].read == w.stored)
    && (forall c, d :: c in w.open && d in w.open ==> c == d)
  }

  lemma LockedStep(w: World, step: Step)
    requires OneHolder(w) && Enabled(w, step) && (step.Begin? ==> TakesLock(step.op))
    ensures OneHolder(Next(w, step))
  {
  }

  /** Holders of the lock alone: one at a time, so what it has read is still stored. */
  lemma {:induction false} LockedUndisturbed(m: Membership, steps: seq<Step>)
    requires Legal(Start(m), steps) && Uses(steps, {Edits, CleanUps})
    ensures Undisturbed(Start(m), steps)
    ensures OneHolder(Exec(Start(m), steps))
  {
    if steps != [] {
      var front, last := steps[..|steps| - 1], steps[|steps| - 1];
      LockedUndisturbed(m, front);
      var w := Exec(Start(m), front);
      LockedStep(w, last);
    }
  }

  /** Rewrites alone: they all put back the same. */
  lemma {:induction false} RewritesUndisturbed(m: Membership, steps: seq<Step>)
    requires Legal(Start(m), steps) && Uses(steps, {Rewrites})
    ensures Undisturbed(Start(m), steps)
    ensures var w := Exec(Start(m), steps);
            w.stored == m && forall c :: c in w.open ==> w.open[c] == Open(Rewrite, m)
  {
    if steps != [] {
      RewritesUndisturbed(m, steps[..|steps| - 1]);
    }
  }

  // ── When something is ─────────────────────────────────────────────────────

  /**
   A generic write that has read the identity before another writer's update puts the old groups back; the
   update is lost exactly if it changed anything.
   */
  lemma RewriteReverts(m: Membership, op: GroupOp)
    requires Apply(op, m).Some?
    ensures var steps := [Begin(0, Rewrite), Begin(1, op), Finish(1), Finish(0)];
            && Legal(Start(m), steps)
            && var w := Exec(Start(m), steps);
            && w.stored == m && w.log == [Lock.Entry(op, true), Lock.Entry(Rewrite, true)]
            && (NoneLost(m, w) <==> Apply(op, m) == Some(m))
  {
    var w := Start(m);
    var a, b, c, d := Begin(0, Rewrite), Begin(1, op), Finish(1), Finish(0);
    var w2 := Next(Next(w, a), b);
    assert w2.open == map[0 := Open(Rewrite, m), 1 := Open(op, m)];
    FourSteps(w, a, b, c, d);
    ReplayTwo(m, op, Rewrite);
  }

  lemma ReplayTwo(m: Membership, op: GroupOp, after: GroupOp)
    requires Apply(op, m).Some?
    ensures Lock.Replay(m, [Lock.Entry(op, true), Lock.Entry(after, true)], Section())
            == Apply(after, Apply(op, m).value)
  {
    var log := [Lock.Entry(op, true), Lock.Entry(after, true)];
    assert log[..1] == [Lock.Entry(op, true)] && log[..1][..0] == [];
    assert Lock.Replay(m, log[..1], Section()) == Apply(op, m);
  }

  /**
   Two revokes for one user in two campaigns, the second reading before the first has written: both campaigns
   record a revoke that was applied, and the first group is still held exactly if the groups differ.
   */
  lemma RevokesOverlap(groups: seq<string>, a: string, b: string)
    requires a in groups && b in groups && a != BASE_GROUP
    ensures var steps := [Begin(0, Revoke(a)), Begin(1, Revoke(b)), Finish(0), Finish(1)];
            && Legal(Start(Some(groups)), steps)
            && var w := Exec(Start(Some(groups)), steps);
            && w.log == [Lock.Entry(Revoke(a), true), Lock.Entry(Revoke(b), true)]
            && (a in InEffect(w.stored) <==> a != b)
            && (a != b ==> !NoneLost(Some(groups), w))
  {
    var m: Membership := Some(groups);
    var s0, s1, s2, s3 := Begin(0, Revoke(a)), Begin(1, Revoke(b)), Finish(0), Finish(1);
    var w2 := Next(Next(Start(m), s0), s1);
    assert w2.open == map[0 := Open(Revoke(a), m), 1 := Open(Revoke(b), m)];
    FourSteps(Start(m), s0, s1, s2, s3);
    var w := Exec(Start(m), [s0, s1, s2, s3]);
    assert w.stored == Some(Stripped(groups, {b}));
    ReplayTwo(m, Revoke(a), Revoke(b));
  }

  /** Whatever these writers do at the same time, no update is lost. */
  ghost predicate Safe(kinds: set<Kind>) {
    forall m, steps :: Legal(Start(m), steps) && Uses(steps, kinds) ==> NoneLost(m, Exec(Start(m), steps))
  }

  /**
   Exactly which kinds of writers may be at work at the same time: any holders of the lock, or generic writes
   among themselves; no revokes, not even among themselves, and no generic write beside anybody else.
   */
  lemma SafeExactly(kinds: set<Kind>)
    ensures Safe(kinds) <==> kinds <= {Edits, CleanUps} || kinds <= {Rewrites}
  {
    if kinds <= {Edits, CleanUps} {
      forall m, steps | Legal(Start(m), steps) && Uses(steps, kinds) ensures NoneLost(m, Exec(Start(m), steps)) {
        LockedUndisturbed(m, steps);
        UndisturbedLosesNothing(m, steps);
      }
    } else if kinds <= {Rewrites} {
      forall m, steps | Legal(Start(m), steps) && Uses(steps, kinds) ensures NoneLost(m, Exec(Start(m), steps)) {
        RewritesUndisturbed(m, steps);
        UndisturbedLosesNothing(m, steps);
      }
    } else if Revokes in kinds {
      RevokesUnsafe(kinds);
    } else {
      var other :| other in kinds && other !in {Edits, CleanUps};
      assert other == Rewrites;
      RewritesUnsafe(kinds);
    }
  }

  lemma RevokesUnsafe(kinds: set<Kind>)
    requires Revokes in kinds
    ensures !Safe(kinds)
  {
    var a, b := "a", "b";
    assert a != b && a != BASE_GROUP;
    RevokesOverlap([a, b], a, b);
    assert Uses([Begin(0, Revoke(a)), Begin(1, Revoke(b)), Finish(0), Finish(1)], kinds);
  }

  lemma RewritesUnsafe(kinds: set<Kind>)
    requires Rewrites in kinds && !(kinds <= {Rewrites}) && Revokes !in kinds
    ensures !Safe(kinds)
  {
    var other :| other in kinds && other != Rewrites;
    var m: Membership := Some(["a"]);
    var op := OpThatChanges(other);
    RewriteReverts(m, op);
    assert Uses([Begin(0, Rewrite), Begin(1, op), Finish(1), Finish(0)], kinds);
  }

  lemma OpThatChanges(kind: Kind) returns (op: GroupOp)
    requires kind == Edits || kind == CleanUps
    ensures KindOf(op) == kind && Apply(op, Some(["a"])).Some? && Apply(op, Some(["a"])) != Some(Some(["a"]))
  {
    if kind == Edits {
      op := Edit(["b"], {}, {});
    } else {
      op := CleanUp("a");
      assert "a" !in Stripped(["a"], {"a"});
    }
  }
}
