/**
 * The work the writers do, beside the lease: a hook flush, a queue check or a fetch that is under way.
 * Stopping a writer does not wait for it, so it can outlive the stop.
 */
module LeaseWork {
  import opened ClaimFile
  import opened LeaseProtocol
  import opened LeaseSafety
  import opened LeaseTheorems
  import opened Wrappers

  /** The machine, and the processes with work under way. */
  datatype Site = Site(machine: Machine, busy: set<nat>)

  datatype Doing = Lease(event: Event) | Begin(p: nat) | End(p: nat)

  /** Work begins only while a writer is on; `outlives` says that it can go on after the last one is stopped. */
  ghost function ApplyWork(w: World, outlives: bool, s: Site, d: Doing): Site {
    match d
    case Lease(e) =>
      var m := Apply(w, s.machine, e);
      Site(m, set p | p in s.busy && p < |m.procs| && !m.procs[p].crashed && (outlives || WritersOn(m.procs[p])))
    case Begin(p) =>
      if p < |s.machine.procs| && WritersOn(s.machine.procs[p]) then s.(busy := s.busy + {p}) else s
    case End(p) => s.(busy := s.busy - {p})
  }

  ghost function RunWork(w: World, outlives: bool, s: Site, ds: seq<Doing>): Site
    decreases |ds|
  {
    if ds == [] then s else RunWork(w, outlives, ApplyWork(w, outlives, s, ds[0]), ds[1..])
  }

  predicate Works(s: Site, p: nat) {
    p < |s.machine.procs| && (WritersOn(s.machine.procs[p]) || p in s.busy)
  }

  ghost predicate OneWorks(s: Site) {
    forall p, q | Works(s, p) && Works(s, q) :: p == q
  }

  ghost predicate AlwaysOneWorks(w: World, outlives: bool) {
    forall left, ds :: OneWorks(RunWork(w, outlives, Site(Boot(w, left), {}), ds))
  }

  /**
   * Work of two processes never overlaps, if and only if there is one process, or writers do not overlap
   * and no work outlives its writer.
   */
  lemma OneWorksExactly(w: World, outlives: bool)
    ensures AlwaysOneWorks(w, outlives) <==> w.contenders <= 1 || (KeepsOneWriter(w) && !outlives)
  {
    OneWriterExactly(w);
    if w.contenders <= 1 || (KeepsOneWriter(w) && !outlives) {
      forall left, ds ensures OneWorks(RunWork(w, outlives, Site(Boot(w, left), {}), ds)) {
        KeptOneWorks(w, outlives, left, ds);
      }
    } else if !KeepsOneWriter(w) {
      var left, es :| !AtMostOneWriter(Run(w, Boot(w, left), es));
      LiftedRun(w, outlives, Site(Boot(w, left), {}), es);
      var s := RunWork(w, outlives, Site(Boot(w, left), {}), Lifted(es));
      var p, q :| 0 <= p < |s.machine.procs| && 0 <= q < |s.machine.procs| && p != q
                  && WritersOn(s.machine.procs[p]) && WritersOn(s.machine.procs[q]);
      assert Works(s, p) && Works(s, q);
    } else {
      var ds := WorkOutlivesRelease(w);
    }
  }

  // ------------------------------------------------------------------ when it never does

  function LeaseEvents(ds: seq<Doing>): seq<Event> {
    if ds == [] then [] else (if ds[0].Lease? then [ds[0].event] else []) + LeaseEvents(ds[1..])
  }

  lemma {:induction false} MachineOf(w: World, outlives: bool, s: Site, ds: seq<Doing>)
    ensures RunWork(w, outlives, s, ds).machine == Run(w, s.machine, LeaseEvents(ds))
    decreases |ds|
  {
    if ds != [] {
      MachineOf(w, outlives, ApplyWork(w, outlives, s, ds[0]), ds[1..]);
      if ds[0].Lease? {
        assert LeaseEvents(ds)[1..] == LeaseEvents(ds[1..]);
      } else {
        assert LeaseEvents(ds) == LeaseEvents(ds[1..]);
      }
    }
  }

  ghost predicate EndsWithItsWriter(s: Site) {
    forall p | p in s.busy :: p < |s.machine.procs| && WritersOn(s.machine.procs[p])
  }

  lemma {:induction false} WorkEndsWithItsWriter(w: World, s: Site, ds: seq<Doing>)
    requires EndsWithItsWriter(s)
    ensures EndsWithItsWriter(RunWork(w, false, s, ds))
    decreases |ds|
  {
    if ds != [] {
      WorkEndsWithItsWriter(w, ApplyWork(w, false, s, ds[0]), ds[1..]);
    }
  }

  lemma KeptOneWorks(w: World, outlives: bool, left: bool, ds: seq<Doing>)
    requires w.contenders <= 1 || (KeepsOneWriter(w) && !outlives)
    ensures OneWorks(RunWork(w, outlives, Site(Boot(w, left), {}), ds))
  {
    MachineOf(w, outlives, Site(Boot(w, left), {}), ds);
    EveryProcessKeepsInv(w, Boot(w, left), LeaseEvents(ds));
    if w.contenders > 1 {
      KeptOneWriter(w, left, LeaseEvents(ds));
      WorkEndsWithItsWriter(w, Site(Boot(w, left), {}), ds);
    }
  }

  // ------------------------------------------------------------------ when it can

  function Lifted(es: seq<Event>): seq<Doing> {
    seq(|es|, i requires 0 <= i < |es| => Lease(es[i]))
  }

  lemma {:induction false} CrashedStays(w: World, s: Machine, es: seq<Event>, p: nat)
    requires p < |s.procs| && s.procs[p].crashed
    ensures p < |Run(w, s, es).procs| && Run(w, s, es).procs[p].crashed
    decreases |es|
  {
    if es != [] {
      CrashedStays(w, Apply(w, s, es[0]), es[1..], p);
    }
  }

  /** The same events, and whoever has not crashed is busy still when work outlives its writer. */
  lemma {:induction false} LiftedRun(w: World, outlives: bool, s: Site, es: seq<Event>)
    ensures var s' := RunWork(w, outlives, s, Lifted(es));
            && s'.machine == Run(w, s.machine, es)
            && (outlives ==> forall p | p in s.busy && p < |s.machine.procs| && p < |s'.machine.procs| ::
                  s'.machine.procs[p].crashed || p in s'.busy)
    decreases |es|
  {
    if es != [] {
      assert Lifted(es)[1..] == Lifted(es[1..]);
      var s1 := ApplyWork(w, outlives, s, Lease(es[0]));
      LiftedRun(w, outlives, s1, es[1..]);
      forall p | p in s.busy && p < |s.machine.procs| && p !in s1.busy && outlives
        ensures p < |Run(w, s1.machine, es[1..]).procs| && Run(w, s1.machine, es[1..]).procs[p].crashed
      {
        CrashedStays(w, s1.machine, es[1..], p);
      }
    }
  }

  lemma {:induction false} RunWorkAppend(w: World, outlives: bool, s: Site, ds: seq<Doing>, more: seq<Doing>)
    ensures RunWork(w, outlives, s, ds + more) == RunWork(w, outlives, RunWork(w, outlives, s, ds), more)
    decreases |ds|
  {
    if ds == [] {
      assert ds + more == more;
    } else {
      assert (ds + more)[1..] == ds[1..] + more;
      RunWorkAppend(w, outlives, ApplyWork(w, outlives, s, ds[0]), ds[1..], more);
    }
  }

  /** The leader shuts down and releases, its lease in order, and another process leads. */
  lemma HandsOver(w: World, s: Machine) returns (es: seq<Event>)
    requires |s.procs| >= 2 && s.procs[0] == Leader(1, 0) && s.procs[1] == STARTED && HasToken(s.lock, 1)
    ensures var s' := Run(w, s, es);
            |s'.procs| == |s.procs| && !s'.procs[0].crashed && WritersOn(s'.procs[1])
  {
    var s1, s2, s3;
    es, s1 := ReadsItsOwn(w, s, [], s);
    es, s2 := Then(w, s, es, s1, Act(0, ShutOk));
    assert s2.lock.file.None? && s2.procs[1] == STARTED && !s2.procs[0].crashed;
    es, s3 := TakesFree(w, s, es, s2, 1);
  }

  /** Work begun before the shutdown goes on beside the next leader's writers. */
  lemma WorkOutlivesRelease(w: World) returns (ds: seq<Doing>)
    requires w.contenders >= 2
    ensures !OneWorks(RunWork(w, true, Site(Boot(w, false), {}), ds))
  {
    var q := Boot(w, false);
    var es1, s1 := TakesFree(w, q, [], q, 0);
    var begun := RunWork(w, true, Site(q, {}), Lifted(es1));
    LiftedRun(w, true, Site(q, {}), es1);
    var busy := ApplyWork(w, true, begun, Begin(0));
    var es2 := HandsOver(w, s1);
    LiftedRun(w, true, busy, es2);
    ds := Lifted(es1) + ([Begin(0)] + Lifted(es2));
    RunWorkAppend(w, true, Site(q, {}), Lifted(es1), [Begin(0)] + Lifted(es2));
    assert ([Begin(0)] + Lifted(es2))[1..] == Lifted(es2);
    var s := RunWork(w, true, busy, Lifted(es2));
    assert RunWork(w, true, Site(q, {}), ds) == s;
    assert Works(s, 0) && Works(s, 1);
  }
}
