/** Device-load admission in `_gpu_admission.py`: a verdict in truncated figures, and a count of unreadable readings. */
module Admission {
  import opened Options
  import opened Sets

  /** One observation of the device, in mebibytes. */
  datatype Reading = Reading(torch: bool, cuda: bool, free: Option<real>, own: Option<real>)

  datatype Reason = NoReason | TorchMissing | NoDevice | BelowFloor | DeviceUnreadable | LoadInProgress

  datatype Verdict = Verdict(admitted: bool, free: Option<int>, own: Option<int>, floor: int, reason: Reason,
                             capability: bool)

  const UNREADABLE_ADMISSION_LIMIT := 3

  /** `int(x)`: toward zero. */
  function Truncated(x: real): int {
    if x >= 0.0 then x.Floor else -(-x).Floor
  }

  function TruncatedFigure(x: Option<real>): Option<int> {
    if x.None? then None else Some(Truncated(x.value))
  }

  function OrZero(x: Option<int>): int { if x.None? then 0 else x.value }

  function AdmissionFromReading(r: Reading, floor: int, streak: nat): Verdict {
    var own := TruncatedFigure(r.own);
    if !r.torch then Verdict(false, None, own, floor, TorchMissing, false)
    else if !r.cuda then Verdict(false, None, own, floor, NoDevice, false)
    else if r.free.None? then
      if streak >= UNREADABLE_ADMISSION_LIMIT then Verdict(false, None, own, floor, DeviceUnreadable, false)
      else Verdict(true, None, own, floor, NoReason, false)
    else
      var free := Truncated(r.free.value);
      var admitted := free + OrZero(own) >= floor;
      Verdict(admitted, Some(free), own, floor, if admitted then NoReason else BelowFloor, false)
  }

  function CapabilityVerdict(): Verdict { Verdict(true, None, None, 0, NoReason, true) }

  function FailedProbeVerdict(): Verdict { Verdict(false, None, None, 0, NoDevice, false) }

  /** The causes the gate itself refuses on. */
  predicate Refuses(v: Verdict) { v.reason in {BelowFloor, DeviceUnreadable, LoadInProgress} }

  predicate FloorWasEvaluated(v: Verdict) { v.free.Some? || v.capability }

  // ---------- truncation ----------

  predicate Compares(r: Reading) { r.torch && r.cuda && r.free.Some? }

  function Sum(r: Reading): real
    requires r.free.Some?
  {
    r.free.value + if r.own.None? then 0.0 else r.own.value
  }

  predicate NonNegative(r: Reading) {
    (r.free.Some? ==> r.free.value >= 0.0) && (r.own.Some? ==> r.own.value >= 0.0)
  }

  lemma TruncatedBounds(x: real)
    requires x >= 0.0
    ensures Truncated(x) as real <= x < Truncated(x) as real + 1.0
  {}

  lemma TruncatedSum(a: real, b: real, floor: int)
    requires a >= 0.0 && b >= 0.0
    ensures Truncated(a) + Truncated(b) >= floor ==> a + b >= floor as real
    ensures Truncated(a) + Truncated(b) < floor ==> a + b < floor as real + 1.0
  {
    TruncatedBounds(a);
    TruncatedBounds(b);
    var x, y := Truncated(a), Truncated(b);
    if x + y < floor { assert (x + y + 1) as real <= floor as real; }
  }

  /** No load is admitted that the exact figures would refuse, and none refused unless they fall short of the floor plus
      one mebibyte. */
  lemma TruncationIsSafe(r: Reading, floor: int, streak: nat)
    requires Compares(r) && NonNegative(r)
    ensures var v := AdmissionFromReading(r, floor, streak);
      && (v.admitted ==> Sum(r) >= floor as real)
      && (!v.admitted ==> v.reason == BelowFloor && Sum(r) < floor as real + 1.0)
  {
    hide Truncated;
    TruncatedSum(r.free.value, if r.own.None? then 0.0 else r.own.value, floor);
    if r.own.None? { assert Truncated(0.0) == 0 by { TruncatedZero(); } }
  }

  lemma TruncatedZero()
    ensures Truncated(0.0) == 0
  {}

  /** Two fractions can cost a load that fits. The bound needs figures that are not negative, as every figure the device
      probe returns is: below zero truncation would overstate. */
  lemma TruncationMargins()
    ensures var short := Reading(true, true, Some(0.9), Some(0.9));
      !AdmissionFromReading(short, 1, 0).admitted && Sum(short) >= 1.0
    ensures var negative := Reading(true, true, Some(-0.5), None);
      AdmissionFromReading(negative, 0, 0).admitted && Sum(negative) < 0.0
  {}

  // ---------- the unreadable streak ----------

  /** The device is present and its free memory is not to be had. */
  predicate Unread(r: Reading) { r.free.None? && r.cuda }

  function NextStreak(streak: nat, r: Reading): nat {
    if r.free.Some? then 0 else if r.cuda then streak + 1 else streak
  }

  function Streak(history: seq<Reading>): nat {
    if history == [] then 0 else NextStreak(Streak(history[..|history| - 1]), history[|history| - 1])
  }

  /** How many of the readings since the last figure were unreadable. */
  function UnreadSinceFigure(history: seq<Reading>): set<nat> {
    set i | 0 <= i < |history| && Unread(history[i]) && forall k :: i <= k < |history| ==> history[k].free.None?
  }

  lemma OneMoreReading(before: seq<Reading>, last: Reading)
    ensures UnreadSinceFigure(before + [last])
         == if last.free.Some? then {}
            else UnreadSinceFigure(before) + if last.cuda then {|before|} else {}
    ensures |before| !in UnreadSinceFigure(before)
  {
    var history := before + [last];
    assert history[|before|] == last && forall k :: 0 <= k < |before| ==> history[k] == before[k];
  }

  lemma {:induction false} StreakCounts(history: seq<Reading>)
    ensures Streak(history) == |UnreadSinceFigure(history)|
  {
    hide UnreadSinceFigure;
    if history == [] {
      assert UnreadSinceFigure([]) == {} by { NothingUnread(); }
    } else {
      var n := |history| - 1;
      var before, last := history[..n], history[n];
      StreakCounts(before);
      assert history == before + [last];
      OneMoreReading(before, last);
    }
  }

  lemma NothingUnread()
    ensures UnreadSinceFigure([]) == {}
  {}

  /** At least two unreadable readings before the last, with no figure from the first of them on. */
  ghost predicate TwoEarlier(history: seq<Reading>) {
    exists i, j :: 0 <= i < j < |history| - 1 && Unread(history[i]) && Unread(history[j])
                && forall k :: i <= k < |history| ==> history[k].free.None?
  }

  /** Over any history of readings, the last is refused as unreadable exactly when it, and at least two before it since
      the last figure, found the device present and the figure absent. */
  lemma RefusedIffThird(history: seq<Reading>, floor: int)
    requires history != []
    ensures var last := history[|history| - 1];
      AdmissionFromReading(last, floor, Streak(history)).reason == DeviceUnreadable
      <==> last.torch && Unread(last) && TwoEarlier(history)
  {
    hide Truncated;
    var n := |history| - 1;
    var marks := UnreadSinceFigure(history);
    StreakCounts(history);
    if Unread(history[n]) {
      assert n in marks;
      if TwoEarlier(history) {
        var i, j :| 0 <= i < j < n && Unread(history[i]) && Unread(history[j])
                 && forall k :: i <= k < |history| ==> history[k].free.None?;
        assert {i, j, n} <= marks;
        SubsetSize({i, j, n}, marks);
      }
      if |marks| >= 3 {
        var i, j := TwoBesides(marks, n);
        assert Unread(history[i]) && Unread(history[j]);
      }
    }
  }

  lemma TwoBesides(marks: set<nat>, n: nat) returns (i: nat, j: nat)
    requires n in marks && |marks| >= 3
    ensures i in marks && j in marks && i < j && i != n && j != n
  {
    var rest := marks - {n};
    assert |rest| >= 2;
    var a :| a in rest;
    assert |rest - {a}| >= 1;
    var b :| b in rest - {a};
    i, j := if a < b then a else b, if a < b then b else a;
  }

  predicate Neutral(r: Reading) { r.free.None? && !r.cuda }

  function WithoutNeutral(history: seq<Reading>): seq<Reading> {
    if history == [] then [] else
    var before, last := WithoutNeutral(history[..|history| - 1]), history[|history| - 1];
    if Neutral(last) then before else before + [last]
  }

  /** Readings that never reached the question neither extend a streak nor launder one. */
  lemma {:induction false} NeutralReadingsChangeNothing(history: seq<Reading>)
    ensures Streak(WithoutNeutral(history)) == Streak(history)
  {
    if history != [] {
      var before, last := history[..|history| - 1], history[|history| - 1];
      NeutralReadingsChangeNothing(before);
      var kept := WithoutNeutral(before);
      assert (kept + [last])[..|kept|] == kept;
    }
  }

  /** A reading that is not unreadable itself is answered with zero only after a figure or with no streak running: the
      count handed back is the running one. */
  lemma ZeroForTheRest(streak: nat, r: Reading)
    requires !Unread(r)
    ensures NextStreak(streak, r) == 0 <==> r.free.Some? || streak == 0
  {}

  /** The shortest history on which zero is not the answer: an unreadable reading, then one that never asked. */
  lemma NonzeroForTheRest(unread: Reading, neutral: Reading)
    requires Unread(unread) && Neutral(neutral)
    ensures !Unread(neutral) && Streak([unread, neutral]) == 1
  {
    assert [unread, neutral][..1] == [unread] && [unread][..0] == [];
    assert Streak([unread]) == 1;
  }

  // ---------- what the gate refuses ----------

  /** The figures of a reading that compares, truncated, miss the floor; an unreadable own figure credits nothing. */
  predicate MissesFloor(r: Reading, floor: int) {
    Compares(r) && Truncated(r.free.value) + (if r.own.Some? then Truncated(r.own.value) else 0) < floor
  }

  /** Toward zero, on either side of it. */
  lemma TruncatedIff(x: real, n: int)
    ensures Truncated(x) == n
       <==> if x >= 0.0 then n as real <= x < n as real + 1.0 else n as real - 1.0 < x <= n as real
  {}

  /** The last of these readings is one the gate is there to refuse: the third unreadable one, at least, since a figure,
      or figures that miss the floor. */
  ghost predicate MustRefuse(history: seq<Reading>, floor: int)
    requires history != []
  {
    var last := history[|history| - 1];
    (last.torch && Unread(last) && TwoEarlier(history)) || MissesFloor(last, floor)
  }

  /** The verdict on a reading gives a cause the gate refuses on exactly then, the cause tells which, and the figures it
      reports reproduce it. */
  lemma RefusesIff(history: seq<Reading>, floor: int)
    requires history != []
    ensures var last := history[|history| - 1];
      var v := AdmissionFromReading(last, floor, Streak(history));
      && (Refuses(v) <==> MustRefuse(history, floor))
      && (v.admitted <==> last.torch && last.cuda && !MustRefuse(history, floor))
      && v.reason == (if MissesFloor(last, floor) then BelowFloor
                      else if MustRefuse(history, floor) then DeviceUnreadable
                      else if !last.torch then TorchMissing
                      else if !last.cuda then NoDevice else NoReason)
      && (FloorWasEvaluated(v) <==> Compares(last))
      && (v.free.Some? ==> (v.admitted <==> v.free.value + OrZero(v.own) >= v.floor == floor))
  {
    hide Truncated, TwoEarlier, Streak;
    RefusedIffThird(history, floor);
  }

  // ---------- the gate of one process ----------

  datatype Claim = Held | Contended | Unavailable

  datatype Probe = Measured(reading: Reading) | Capability | Failed

  datatype Outcome = Ridden(loaded: bool) | Loaded | LoadFailed | Refused(verdict: Verdict)

  /** The verdict on a probe; the streak counts its reading if it has one. */
  function VerdictFor(probe: Probe, floor: int, streak: nat): Verdict {
    match probe
    case Measured(reading) => AdmissionFromReading(reading, floor, streak)
    case Capability => CapabilityVerdict()
    case Failed => FailedProbeVerdict()
  }

  /** What a call comes to, by the latch it reads, the answer to its claim of the window, and the verdict. */
  function OutcomeOf(latched: bool, claim: Claim, v: Verdict, floor: int, loads: bool): Outcome {
    if latched then Ridden(loads)
    else if claim.Contended? then Refused(Verdict(false, None, None, floor, LoadInProgress, false))
    else if Refuses(v) then Refused(v)
    else if loads then Loaded
    else LoadFailed
  }

  class Gate {
    var admitted: bool
    var unreadableStreak: nat
    /** The load window, while this process holds it. */
    var holdsWindow: bool
    /** Every reading taken so far. */
    ghost var history: seq<Reading>

    ghost predicate Valid()
      reads this
    {
      unreadableStreak == Streak(history)
    }

    constructor ()
      ensures Valid() && !admitted && !holdsWindow && history == []
    {
      admitted, holdsWindow, unreadableStreak := false, false, 0;
      history := [];
    }

    method ObserveUnreadableStreak(reading: Reading) returns (streak: nat)
      requires Valid()
      modifies this`unreadableStreak, this`history
      ensures Valid() && history == old(history) + [reading] && streak == Streak(history)
    {
      history := history + [reading];
      assert history[..|history| - 1] == old(history);
      if reading.free.Some? {
        unreadableStreak := 0;
      } else if reading.cuda {
        unreadableStreak := unreadableStreak + 1;
      }
      return unreadableStreak;
    }

    method JudgeDeviceReading(reading: Reading, floor: int) returns (v: Verdict)
      requires Valid()
      modifies this`unreadableStreak, this`history
      ensures Valid() && history == old(history) + [reading]
      ensures v == AdmissionFromReading(reading, floor, Streak(history))
    {
      var streak := ObserveUnreadableStreak(reading);
      v := AdmissionFromReading(reading, floor, streak);
    }

    method EvaluateDeviceAdmission(probe: Probe, floor: int) returns (v: Verdict)
      requires Valid()
      modifies this`unreadableStreak, this`history
      ensures Valid() && history == if probe.Measured? then old(history) + [probe.reading] else old(history)
      ensures v == VerdictFor(probe, floor, Streak(history))
    {
      match probe {
        case Capability => v := CapabilityVerdict();
        case Measured(reading) => v := JudgeDeviceReading(reading, floor);
        case Failed => v := FailedProbeVerdict();
      }
    }

    /** One call, with what the lock, the device and the loader would answer. The window brackets the check and the load
        and nothing else, and only a verdict that reached the floor latches. */
    method AdmitAcceleratorLoad(claim: Claim, probe: Probe, floor: int, loads: bool) returns (outcome: Outcome)
      requires Valid() && !holdsWindow
      modifies this
      ensures Valid() && !holdsWindow
      ensures history == if old(admitted) || claim.Contended? || !probe.Measured? then old(history)
                         else old(history) + [probe.reading]
      ensures outcome == OutcomeOf(old(admitted), claim, VerdictFor(probe, floor, Streak(history)), floor, loads)
      // what it comes to, in what was read
      ensures old(admitted) ==> outcome == Ridden(loads)
      ensures !old(admitted) && claim.Contended? ==> outcome.Refused? && outcome.verdict.reason == LoadInProgress
      ensures !old(admitted) && !claim.Contended? ==>
                if probe.Measured? && MustRefuse(history, floor)
                then outcome.Refused?
                     && outcome.verdict.reason
                        == if MissesFloor(probe.reading, floor) then BelowFloor else DeviceUnreadable
                else outcome == if loads then Loaded else LoadFailed
      // only a load under figures that met the floor, or under the capability verdict, latches
      ensures admitted == (old(admitted)
                           || (outcome.Loaded?
                               && (probe.Capability? || (probe.Measured? && Compares(probe.reading)))))
    {
      hide AdmissionFromReading, MustRefuse, MissesFloor, Compares;
      if admitted {
        return Ridden(loads);
      }
      if claim.Contended? {
        return Refused(Verdict(false, None, None, floor, LoadInProgress, false));
      }
      holdsWindow := claim.Held?;
      var verdict := EvaluateDeviceAdmission(probe, floor);
      if probe.Measured? { RefusesIff(history, floor); }
      if Refuses(verdict) {
        holdsWindow := false;
        return Refused(verdict);
      }
      if !loads {
        holdsWindow := false;
        return LoadFailed;
      }
      var evaluated := FloorWasEvaluated(verdict);
      holdsWindow := false;
      if evaluated {
        admitted := true;
      }
      return Loaded;
    }

    method ClearAcceleratorAdmissionLatch()
      modifies this`admitted
      ensures !admitted
    {
      admitted := false;
    }
  }
}
