/**
 The publication ledger: at most so many draft PRs per budget window, and a cooldown between
 any two publications to one repository, however many controllers share the ledger.
 */
module Publications {
  import opened Results
  import opened Calendar
  import opened Timestamps

  datatype Config = Config(maxPrsPerWindow: nat, cooldownDays: nat)

  datatype Slot = Slot(
    runId: string, windowKey: string, repository: string, issueNumber: int,
    status: string, createdAt: Instant, prUrl: Option<string>)

  datatype Refusal = CapExhausted | InsideCooldown

  function Cooldown(c: Config): nat {
    c.cooldownDays * DAY
  }

  /** `now - cooldown` is a date that Python can form. */
  predicate ClockInRange(c: Config, now: Instant) {
    Representable(now - Cooldown(c))
  }

  // ---- the queries of `_assert_available` ----

  function CountInWindow(slots: seq<Slot>, windowKey: string): nat {
    if slots == [] then 0
    else
      var last := slots[|slots| - 1];
      CountInWindow(slots[..|slots| - 1], windowKey)
      + if last.windowKey == windowKey && last.status != "released" then 1 else 0
  }

  function Holding(slots: seq<Slot>, windowKey: string): set<nat> {
    set i: nat | i < |slots| && slots[i].windowKey == windowKey && slots[i].status != "released"
  }

  /** The count is the number of slots of the window that are not released: no more and no fewer. */
  lemma {:induction false} CountIsCardinality(slots: seq<Slot>, windowKey: string)
    ensures CountInWindow(slots, windowKey) == |Holding(slots, windowKey)|
  {
    if slots != [] {
      CountIsCardinality(slots[..|slots| - 1], windowKey);
      HoldingStep(slots, windowKey);
      hide Holding;
    }
  }

  lemma HoldingStep(slots: seq<Slot>, windowKey: string)
    requires slots != []
    ensures var (n, front) := (|slots| - 1, Holding(slots[..|slots| - 1], windowKey));
            var held := slots[n].windowKey == windowKey && slots[n].status != "released";
            |Holding(slots, windowKey)| == |front| + if held then 1 else 0
  {
    var (n, front) := (|slots| - 1, Holding(slots[..|slots| - 1], windowKey));
    assert n !in front;
    if slots[n].windowKey == windowKey && slots[n].status != "released" {
      assert Holding(slots, windowKey) == front + {n};
    } else {
      assert Holding(slots, windowKey) == front;
    }
  }

  /** `created_at BETWEEN cutoff AND now`, as TEXT. */
  predicate Recent(c: Config, s: Slot, repository: string, now: Instant)
    requires ClockInRange(c, now)
  {
    && s.repository == repository && s.status != "released"
    && !TextLess(IsoText(s.createdAt), IsoText(now - Cooldown(c)))
    && !TextLess(IsoText(now), IsoText(s.createdAt))
  }

  /** `created_at > now`, as TEXT. */
  predicate Future(s: Slot, repository: string, now: Instant) {
    s.repository == repository && s.status != "released" && TextLess(IsoText(now), IsoText(s.createdAt))
  }

  function Availability(c: Config, slots: seq<Slot>, windowKey: string, repository: string, now: Instant)
    : Result<(), Refusal>
    requires ClockInRange(c, now)
  {
    if CountInWindow(slots, windowKey) >= c.maxPrsPerWindow then Err(CapExhausted)
    else if (exists i :: 0 <= i < |slots| && Recent(c, slots[i], repository, now))
         || (exists i :: 0 <= i < |slots| && Future(slots[i], repository, now)) then Err(InsideCooldown)
    else Ok(())
  }

  lemma BlockedMeansYounger(c: Config, s: Slot, repository: string, now: Instant)
    requires ClockInRange(c, now)
    ensures Recent(c, s, repository, now) || Future(s, repository, now) <==>
            s.repository == repository && s.status != "released" && now <= s.createdAt + Cooldown(c)
  {
    hide IsoText;
    IsoTextOrder(s.createdAt, now - Cooldown(c));
    IsoTextOrder(now, s.createdAt);
  }

  /** The TEXT comparisons are the intended time tests: only slots older than the cooldown pass. */
  lemma CooldownMeansOlder(c: Config, slots: seq<Slot>, windowKey: string, repository: string, now: Instant)
    requires ClockInRange(c, now)
    ensures Availability(c, slots, windowKey, repository, now).Ok? <==>
            && CountInWindow(slots, windowKey) < c.maxPrsPerWindow
            && forall i :: 0 <= i < |slots| && slots[i].repository == repository && slots[i].status != "released"
                 ==> slots[i].createdAt + c.cooldownDays * DAY < now
    ensures Availability(c, slots, windowKey, repository, now) == Err(CapExhausted)
       <==> CountInWindow(slots, windowKey) >= c.maxPrsPerWindow
  {
    hide Recent, Future;
    forall i | 0 <= i < |slots|
      ensures Recent(c, slots[i], repository, now) || Future(slots[i], repository, now) <==>
              slots[i].repository == repository && slots[i].status != "released" &&
              now <= slots[i].createdAt + Cooldown(c)
    {
      BlockedMeansYounger(c, slots[i], repository, now);
    }
  }

  predicate HasRun(slots: seq<Slot>, runId: string) {
    exists i :: 0 <= i < |slots| && slots[i].runId == runId
  }

  function AfterReserve(c: Config, slots: seq<Slot>, slot: Slot): seq<Slot>
    requires ClockInRange(c, slot.createdAt)
  {
    if !HasRun(slots, slot.runId) && Availability(c, slots, slot.windowKey, slot.repository, slot.createdAt).Ok?
    then slots + [slot] else slots
  }

  /** A reservation adds the slot as requested, exactly when the run is new and the slot available. */
  lemma ReserveExactly(c: Config, slots: seq<Slot>, slot: Slot)
    requires ClockInRange(c, slot.createdAt)
    ensures AfterReserve(c, slots, slot) ==
            if !HasRun(slots, slot.runId) && |Holding(slots, slot.windowKey)| < c.maxPrsPerWindow
               && (forall i ::
                   0 <= i < |slots| && slots[i].repository == slot.repository && slots[i].status != "released" ==>
                   slots[i].createdAt + c.cooldownDays * DAY < slot.createdAt)
            then slots + [slot] else slots
  {
    CooldownMeansOlder(c, slots, slot.windowKey, slot.repository, slot.createdAt);
    CountIsCardinality(slots, slot.windowKey);
    hide Availability, HasRun, Holding;
  }

  function AfterFinish(slots: seq<Slot>, runId: string, url: string): (r: seq<Slot>)
    ensures |r| == |slots|
    ensures forall i :: 0 <= i < |r| ==>
      r[i] == if slots[i].runId == runId then slots[i].(status := "published", prUrl := Some(url)) else slots[i]
  {
    seq(|slots|, i requires 0 <= i < |slots| =>
      if slots[i].runId == runId then slots[i].(status := "published", prUrl := Some(url)) else slots[i])
  }

  class PublicationLedger {
    var slots: seq<Slot>

    constructor ()
      ensures slots == []
    {
      slots := [];
    }

    method AssertAvailable(c: Config, windowKey: string, repository: string, now: Instant)
      returns (r: Result<(), Refusal>)
      requires ClockInRange(c, now)
      ensures r == Availability(c, slots, windowKey, repository, now)
    {
      hide Recent, Future;
      var count := CountInWindow(slots, windowKey);
      if count >= c.maxPrsPerWindow {
        return Err(CapExhausted);
      }
      var i := 0;
      while i < |slots|
        invariant 0 <= i <= |slots|
        invariant forall k :: 0 <= k < i ==>
          !Recent(c, slots[k], repository, now) && !Future(slots[k], repository, now)
      {
        if Recent(c, slots[i], repository, now) || Future(slots[i], repository, now) {
          return Err(InsideCooldown);
        }
        i := i + 1;
      }
      r := Ok(());
    }

    /** One `BEGIN IMMEDIATE` transaction; a repeated run id commits without a check. */
    method Reserve(c: Config, runId: string, windowKey: string, repository: string, issueNumber: int, now: Instant)
      returns (r: Result<(), Refusal>)
      requires ClockInRange(c, now)
      modifies this
      ensures slots
          == AfterReserve(c, old(slots), Slot(runId, windowKey, repository, issueNumber, "reserved", now, None))
      ensures r == if HasRun(old(slots), runId) then Ok(())
                   else Availability(c, old(slots), windowKey, repository, now)
    {
      if HasRun(slots, runId) {
        return Ok(());
      }
      r := AssertAvailable(c, windowKey, repository, now);
      if r.Ok? {
        slots := slots + [Slot(runId, windowKey, repository, issueNumber, "reserved", now, None)];
      }
    }

    method Finish(runId: string, url: string)
      modifies this
      ensures slots == AfterFinish(old(slots), runId, url)
    {
      var i := 0;
      ghost var before := slots;
      while i < |slots|
        invariant 0 <= i <= |slots| == |before|
        invariant forall k :: 0 <= k < |slots| ==>
          slots[k] == if k < i then AfterFinish(before, runId, url)[k] else before[k]
      {
        if slots[i].runId == runId {
          slots := slots[i := slots[i].(status := "published", prUrl := Some(url))];
        }
        i := i + 1;
      }
    }
  }

  // ---- any number of controllers over one ledger ----

  /** One atomic step of some controller.  Each reads its own clock, which may run backwards. */
  datatype Step =
    | Reserve(slot: Slot)
    | Publish(runId: string)
    | Finish(runId: string, url: string)

  /** `granted` holds the runs whose reserve returned, `published` those that then called publish. */
  datatype System = System(slots: seq<Slot>, attempted: set<string>, granted: map<string, Slot>, published: set<string>)

  predicate StepInRange(c: Config, s: Step) {
    s.Reserve? ==> ClockInRange(c, s.slot.createdAt) && s.slot.status == "reserved"
  }

  /**
   A run reserves once under its own id and publishes at most once, only after its reserve
   returned.  A step that its controller cannot take leaves the system as it is.
   */
  function Apply(c: Config, y: System, s: Step): System
    requires StepInRange(c, s)
  {
    match s
    case Reserve(slot) =>
      if slot.runId in y.attempted then y
      else
        var slots := AfterReserve(c, y.slots, slot);
        var ok := HasRun(y.slots, slot.runId)
               || Availability(c, y.slots, slot.windowKey, slot.repository, slot.createdAt).Ok?;
        System(slots, y.attempted + {slot.runId}, if ok then y.granted[slot.runId := slot] else y.granted, y.published)
    case Publish(runId) => if runId in y.granted then y.(published := y.published + {runId}) else y
    case Finish(runId, url) => y.(slots := AfterFinish(y.slots, runId, url))
  }

  predicate AvailableTo(c: Config, y: System, slot: Slot)
    requires ClockInRange(c, slot.createdAt)
  {
    Availability(c, y.slots, slot.windowKey, slot.repository, slot.createdAt).Ok?
  }

  /** A run publishes only with a grant, and a first reservation grants exactly what was available or already held. */
  lemma GrantsExactly(c: Config, y: System, s: Step, runId: string)
    requires StepInRange(c, s)
    ensures var z := Apply(c, y, s);
            var first := s.Reserve? && s.slot.runId == runId && runId !in y.attempted;
            && (runId in z.granted <==>
                  runId in y.granted || (first && (HasRun(y.slots, runId) || AvailableTo(c, y, s.slot))))
            && (runId in z.published <==> runId in y.published || (s == Publish(runId) && runId in y.granted))
            && (runId in z.attempted <==> runId in y.attempted || (s.Reserve? && s.slot.runId == runId))
  {
    hide Availability, HasRun;
  }

  function Run(c: Config, steps: seq<Step>): System
    requires forall i :: 0 <= i < |steps| ==> StepInRange(c, steps[i])
  {
    if steps == [] then System([], {}, map[], {})
    else Apply(c, Run(c, steps[..|steps| - 1]), steps[|steps| - 1])
  }

  /** Slots of one repository were created more than `gap` apart, in order. */
  predicate Spaced(gap: nat, slots: seq<Slot>) {
    forall i, j :: 0 <= i < j < |slots| && slots[i].repository == slots[j].repository ==>
      slots[i].createdAt + gap < slots[j].createdAt
  }

  predicate Held(y: System, runId: string)
    requires runId in y.granted
  {
    exists i :: 0 <= i < |y.slots| && y.slots[i].runId == runId
             && y.slots[i].windowKey == y.granted[runId].windowKey
             && y.slots[i].repository == y.granted[runId].repository
  }

  ghost predicate Inv(c: Config, y: System) {
    && (forall w :: CountInWindow(y.slots, w) <= c.maxPrsPerWindow)
    && (forall i :: 0 <= i < |y.slots| ==> y.slots[i].status != "released" && y.slots[i].runId in y.attempted)
    && Spaced(Cooldown(c), y.slots)
    && (forall r :: r in y.granted ==> r in y.attempted && Held(y, r))
    && y.published <= y.granted.Keys
  }

  lemma {:induction false} FinishKeepsCounts(slots: seq<Slot>, runId: string, url: string, w: string)
    requires forall i :: 0 <= i < |slots| ==> slots[i].status != "released"
    ensures CountInWindow(AfterFinish(slots, runId, url), w) == CountInWindow(slots, w)
  {
    if slots != [] {
      var n := |slots| - 1;
      var after := AfterFinish(slots, runId, url);
      assert after[..n] == AfterFinish(slots[..n], runId, url);
      FinishKeepsCounts(slots[..n], runId, url, w);
    }
  }

  lemma ReserveKeepsInv(c: Config, y: System, slot: Slot)
    requires Inv(c, y) && ClockInRange(c, slot.createdAt) && slot.status == "reserved"
    ensures Inv(c, Apply(c, y, Reserve(slot)))
  {
    if slot.runId !in y.attempted {
      var z := Apply(c, y, Reserve(slot));
      CooldownMeansOlder(c, y.slots, slot.windowKey, slot.repository, slot.createdAt);
      if z.slots != y.slots {
        assert z.slots[..|y.slots|] == y.slots;
      }
      GrantsStayHeld(c, y, slot);
    }
  }

  lemma GrantsStayHeld(c: Config, y: System, slot: Slot)
    requires Inv(c, y) && slot.runId !in y.attempted && ClockInRange(c, slot.createdAt) && slot.status == "reserved"
    ensures var z := Apply(c, y, Reserve(slot)); forall r :: r in z.granted ==> r in z.attempted && Held(z, r)
  {
    var z := Apply(c, y, Reserve(slot));
    forall r | r in z.granted
      ensures r in z.attempted && Held(z, r)
    {
      if r == slot.runId {
        assert z.slots[|y.slots|] == slot;
      } else {
        assert Held(y, r);
        var i :| 0 <= i < |y.slots| && y.slots[i].runId == r && y.slots[i].windowKey == y.granted[r].windowKey
                 && y.slots[i].repository == y.granted[r].repository;
        assert z.slots[i] == y.slots[i];
      }
    }
  }

  lemma FinishKeepsInv(c: Config, y: System, runId: string, url: string)
    requires Inv(c, y)
    ensures Inv(c, Apply(c, y, Finish(runId, url)))
  {
    var z := Apply(c, y, Finish(runId, url));
    forall w
      ensures CountInWindow(z.slots, w) <= c.maxPrsPerWindow
    {
      FinishKeepsCounts(y.slots, runId, url, w);
    }
    forall r | r in z.granted
      ensures Held(z, r)
    {
      assert Held(y, r);
      var i :| 0 <= i < |y.slots| && y.slots[i].runId == r && y.slots[i].windowKey == y.granted[r].windowKey
               && y.slots[i].repository == y.granted[r].repository;
      assert z.slots[i].runId == r;
    }
  }

  lemma {:induction false} RunKeepsInv(c: Config, steps: seq<Step>)
    requires forall i :: 0 <= i < |steps| ==> StepInRange(c, steps[i])
    ensures Inv(c, Run(c, steps))
  {
    if steps != [] {
      var (front, last) := (steps[..|steps| - 1], steps[|steps| - 1]);
      RunKeepsInv(c, front);
      match last
      case Reserve(slot) => ReserveKeepsInv(c, Run(c, front), slot);
      case Publish(_) =>
      case Finish(runId, url) => FinishKeepsInv(c, Run(c, front), runId, url);
    }
  }

  /** Distinct runs that each hold a live slot of a window are at most the count of that window. */
  lemma {:induction false} RunsFitInCount(slots: seq<Slot>, w: string, runs: set<string>)
    requires forall r :: r in runs ==>
      exists i :: 0 <= i < |slots| && slots[i].runId == r && slots[i].windowKey == w && slots[i].status != "released"
    ensures |runs| <= CountInWindow(slots, w)
  {
    if slots == [] {
      if r :| r in runs {
        assert false;
      }
    } else {
      var (front, last) := (slots[..|slots| - 1], slots[|slots| - 1]);
      if last.windowKey == w && last.status != "released" {
        RunsFitInCount(front, w, runs - {last.runId});
        assert |runs| <= |runs - {last.runId}| + 1;
      } else {
        RunsFitInCount(front, w, runs);
      }
    }
  }

  function PublishedIn(y: System, w: string): set<string>
    requires y.published <= y.granted.Keys
  {
    set r | r in y.published && y.granted[r].windowKey == w
  }

  /**
   The window cap over every interleaving: the runs that call publish for one window never
   number more than the cap, whatever their clocks say and whether or not they finish.
   */
  lemma PublishesNeverExceedCap(c: Config, steps: seq<Step>, w: string)
    requires forall i :: 0 <= i < |steps| ==> StepInRange(c, steps[i])
    ensures Inv(c, Run(c, steps))
    ensures |PublishedIn(Run(c, steps), w)| <= c.maxPrsPerWindow
  {
    var y := Run(c, steps);
    RunKeepsInv(c, steps);
    forall r | r in PublishedIn(y, w)
      ensures exists i :: 0 <= i < |y.slots| && y.slots[i].runId == r && y.slots[i].windowKey == w
                       && y.slots[i].status != "released"
    {
      assert Held(y, r);
    }
    RunsFitInCount(y.slots, w, PublishedIn(y, w));
  }

  predicate InInterval(slot: Slot, repository: string, start: int, length: nat) {
    slot.repository == repository && start <= slot.createdAt <= start + length
  }

  /** The slots of one repository created in [start, start + length]. */
  function Within(slots: seq<Slot>, repository: string, start: int, length: nat): seq<Slot> {
    if slots == [] then []
    else
      var last := slots[|slots| - 1];
      Within(slots[..|slots| - 1], repository, start, length)
      + if InInterval(last, repository, start, length) then [last] else []
  }

  /** The least time that `n` steps of more than the gap take: n times the gap and a microsecond. */
  function Gaps(n: nat, gap: nat): nat {
    n * (gap + 1)
  }

  lemma GapsAdd(n: nat, gap: nat)
    ensures Gaps(n + 1, gap) == Gaps(n, gap) + gap + 1 && Gaps(0, gap) == 0
  {
  }

  /** A slot of the repository before the last one is more than the gap older. */
  lemma AfterTheGap(gap: nat, slots: seq<Slot>, k: nat)
    requires Spaced(gap, slots) && k + 1 < |slots| && slots[k].repository == slots[|slots| - 1].repository
    ensures slots[k].createdAt + gap < slots[|slots| - 1].createdAt
  {
  }

  lemma SpacedPrefix(gap: nat, slots: seq<Slot>)
    requires Spaced(gap, slots) && slots != []
    ensures Spaced(gap, slots[..|slots| - 1])
  {
  }

  /** Where the latest slot of the interval stands: far enough after the start for all before it. */
  lemma {:induction false} SpacedCount(gap: nat, slots: seq<Slot>, repository: string, start: int, length: nat)
      returns (k: nat)
    requires Spaced(gap, slots)
    ensures var n := |Within(slots, repository, start, length)|;
            n > 0 ==>
              && k < |slots| && InInterval(slots[k], repository, start, length)
              && start + Gaps(n - 1, gap) <= slots[k].createdAt
  {
    GapsAdd(0, gap);
    hide Gaps;
    k := 0;
    if slots != [] {
      var n := |slots| - 1;
      SpacedPrefix(gap, slots);
      k := SpacedCount(gap, slots[..n], repository, start, length);
      if InInterval(slots[n], repository, start, length) {
        var before := |Within(slots[..n], repository, start, length)|;
        if before > 0 {
          AfterTheGap(gap, slots, k);
          GapsAdd(before - 1, gap);
        }
        k := n;
      }
      hide Spaced;
    }
  }

  /**
   The cooldown over every interleaving: any two slots of a repository are more than the cooldown
   apart, so an interval of length L holds at most 1 + L / (cooldown + 1 microsecond) of them.
   */
  lemma CooldownBoundsRate(c: Config, steps: seq<Step>, repository: string, start: int, length: nat)
    requires forall i :: 0 <= i < |steps| ==> StepInRange(c, steps[i])
    ensures Spaced(Cooldown(c), Run(c, steps).slots)
    ensures var n := |Within(Run(c, steps).slots, repository, start, length)|;
            n > 0 ==> Gaps(n - 1, Cooldown(c)) <= length
  {
    RunKeepsInv(c, steps);
    hide Run, Cooldown, Spaced, Gaps, Within;
    var _ := SpacedCount(Cooldown(c), Run(c, steps).slots, repository, start, length);
  }
}
