/** app/calm/page.tsx: the 4-2-6 breathing exercise. The page's state and the two
    variables captured by the interval callback are fields of one class; each firing of
    the two one-second intervals is one call of `Tick`. */
module Calm {
  import opened Text

  datatype Phase = Inhale | Hold | Exhale

  /** `phaseConfig[p].duration`, in seconds. */
  function Duration(p: Phase): nat {
    match p
    case Inhale => 4
    case Hold => 2
    case Exhale => 6
  }

  /** `cycle[i]` for `cycle = ['inhale', 'hold', 'exhale']`. */
  function CycleAt(i: nat): Phase
    requires i < 3
  {
    if i == 0 then Inhale else if i == 1 then Hold else Exhale
  }

  /** A snapshot of the page: what it shows (`phase`, `countdown`, the two counters),
      whether the intervals run, and the callback's `currentPhaseIndex` and `currentCount`. */
  datatype Breath = Breath(
    isPlaying: bool,
    phase: Phase,
    countdown: int,
    cycleCount: nat,
    totalTime: nat,
    phaseIndex: nat,
    currentCount: int)

  const Initial: Breath := Breath(false, Inhale, 4, 0, 0, 0, 4)

  /** The callback's variables are in range: a phase index, and a count between one and
      that phase's duration. */
  predicate Valid(b: Breath) {
    b.phaseIndex < 3 && 1 <= b.currentCount <= Duration(CycleAt(b.phaseIndex))
  }

  /** The display agrees with the callback: the phase shown is the current one, and so is the count. */
  predicate Synced(b: Breath) {
    Valid(b) && b.phase == CycleAt(b.phaseIndex) && b.countdown == b.currentCount
  }

  /** One second: the phase interval's callback, then the total-time interval's; nothing
      while the intervals are cleared. */
  function TickOf(b: Breath): (r: Breath)
    ensures !b.isPlaying ==> r == b
    ensures b.isPlaying ==> r.isPlaying && r.totalTime == b.totalTime + 1
    ensures b.isPlaying && b.currentCount != 1 ==>
      r.phaseIndex == b.phaseIndex && r.currentCount == b.currentCount - 1 && r.phase == b.phase
    ensures b.isPlaying && b.currentCount == 1 ==>
      r.phaseIndex == (b.phaseIndex + 1) % 3 && r.phase == CycleAt(r.phaseIndex) &&
      r.currentCount == Duration(r.phase)
    ensures b.isPlaying ==> r.countdown == r.currentCount
    ensures r.cycleCount == b.cycleCount + (if b.isPlaying && b.currentCount == 1 && r.phaseIndex == 0 then 1 else 0)
    ensures Valid(b) ==> Valid(r)
  {
    if !b.isPlaying then b
    else
      var count := b.currentCount - 1;
      if count == 0 then
        var index := (b.phaseIndex + 1) % 3;
        var next := CycleAt(index);
        b.(phase := next, countdown := Duration(next),
           cycleCount := b.cycleCount + (if next == Inhale then 1 else 0),
           totalTime := b.totalTime + 1, phaseIndex := index, currentCount := Duration(next))
      else
        b.(countdown := count, totalTime := b.totalTime + 1, currentCount := count)
  }

  /** `startBreathing` as written: playing, both counters zeroed, and a new callback that
      starts at inhale with count 4; the phase and countdown shown are not touched. */
  function StartOf(b: Breath): Breath {
    b.(isPlaying := true, cycleCount := 0, totalTime := 0, phaseIndex := 0, currentCount := Duration(Inhale))
  }

  /** `pauseBreathing`: the intervals are cleared and nothing else changes. */
  function PauseOf(b: Breath): Breath {
    b.(isPlaying := false)
  }

  /** `resetBreathing`: stopped, showing inhale and 4, both counters zero. */
  function ResetOf(b: Breath): (r: Breath)
    ensures !r.isPlaying && r.phase == Inhale && r.countdown == 4 && r.cycleCount == 0 && r.totalTime == 0
    ensures r.phaseIndex == b.phaseIndex && r.currentCount == b.currentCount
  {
    b.(isPlaying := false, phase := Inhale, countdown := Duration(Inhale), cycleCount := 0, totalTime := 0)
  }

  /** `n` seconds. */
  function Ticks(b: Breath, n: nat): Breath
    decreases n
  {
    if n == 0 then b else Ticks(TickOf(b), n - 1)
  }

  lemma {:induction false} TicksAdd(b: Breath, m: nat, n: nat)
    ensures Ticks(b, m + n) == Ticks(Ticks(b, m), n)
    decreases m
  {
    if m > 0 {
      TicksAdd(TickOf(b), m - 1, n);
    }
  }

  /** While playing, a phase with `c` seconds left ends after exactly `c` ticks: the next
      phase starts with its full duration, shown as such, and a cycle is counted exactly
      when the next phase is inhale. */
  lemma {:induction false} PhaseRun(b: Breath)
    requires b.isPlaying && Valid(b)
    ensures var r := Ticks(b, b.currentCount);
      && r.isPlaying && Synced(r)
      && r.phaseIndex == (b.phaseIndex + 1) % 3 && r.currentCount == Duration(CycleAt(r.phaseIndex))
      && r.totalTime == b.totalTime + b.currentCount
      && r.cycleCount == b.cycleCount + (if r.phaseIndex == 0 then 1 else 0)
    decreases b.currentCount
  {
    var t := TickOf(b);
    if b.currentCount > 1 {
      PhaseRun(t);
      assert Ticks(b, b.currentCount) == Ticks(t, t.currentCount);
    } else {
      assert Ticks(b, 1) == Ticks(t, 0) == t;
    }
  }

  /** A whole cycle is twelve seconds: from the start of an inhale, twelve ticks come back
      to the start of an inhale with one more cycle counted. */
  lemma FullCycle(b: Breath)
    requires b.isPlaying && b.phaseIndex == 0 && b.currentCount == 4
    ensures var r := Ticks(b, 12);
      && r.isPlaying && r.phaseIndex == 0 && r.currentCount == 4 && r.phase == Inhale && r.countdown == 4
      && r.cycleCount == b.cycleCount + 1 && r.totalTime == b.totalTime + 12
  {
    PhaseRun(b);
    var b1 := Ticks(b, 4);
    PhaseRun(b1);
    var b2 := Ticks(b1, 2);
    PhaseRun(b2);
    TicksAdd(b, 4, 2);
    TicksAdd(b, 6, 6);
  }

  /** Ticking keeps the display in agreement with the callback. */
  lemma {:induction false} SyncedTicks(b: Breath, n: nat)
    requires Synced(b)
    ensures Synced(Ticks(b, n))
    decreases n
  {
    if n > 0 {
      SyncedTicks(TickOf(b), n - 1);
    }
  }

  /** Started after a reset, the display agrees with the callback for as long as it runs. */
  lemma StartAfterReset(b: Breath, n: nat)
    ensures Synced(Ticks(StartOf(ResetOf(b)), n))
  {
    SyncedTicks(StartOf(ResetOf(b)), n);
  }

  /** Started after a pause in the hold phase, the page keeps showing hold for the first
      four seconds of the new inhale, because `startBreathing` never calls `updatePhase`. */
  lemma StalePhaseAfterRestart()
    ensures var paused := PauseOf(Ticks(StartOf(Initial), 4));
      var restarted := StartOf(paused);
      && paused.phase == Hold
      && !Synced(restarted)
      && Ticks(restarted, 3).phase == Hold && CycleAt(Ticks(restarted, 3).phaseIndex) == Inhale
  {
    var s := StartOf(Initial);
    assert Ticks(s, 4) == Breath(true, Hold, 2, 0, 4, 1, 2) by {
      assert Ticks(s, 1) == Breath(true, Inhale, 3, 0, 1, 0, 3);
      assert Ticks(s, 2) == Breath(true, Inhale, 2, 0, 2, 0, 2) by { TicksAdd(s, 1, 1); }
      assert Ticks(s, 3) == Breath(true, Inhale, 1, 0, 3, 0, 1) by { TicksAdd(s, 2, 1); }
      TicksAdd(s, 3, 1);
    }
    var r := StartOf(PauseOf(Ticks(s, 4)));
    assert r == Breath(true, Hold, 2, 0, 0, 0, 4);
    assert Ticks(r, 3) == Breath(true, Hold, 1, 0, 3, 0, 1) by {
      assert Ticks(r, 1) == Breath(true, Hold, 3, 0, 1, 0, 3);
      assert Ticks(r, 2) == Breath(true, Hold, 2, 0, 2, 0, 2) by { TicksAdd(r, 1, 1); }
      TicksAdd(r, 2, 1);
    }
  }

  /** The evident intent of `startBreathing`: also show the inhale phase and its count,
      as `updatePhase` does. */
  function StartSynced(b: Breath): (r: Breath)
    ensures r.isPlaying && r.cycleCount == 0 && r.totalTime == 0 && Synced(r) && r.phase == Inhale
  {
    StartOf(b).(phase := Inhale, countdown := Duration(Inhale))
  }

  /** With that start, the display agrees with the callback on every later tick, whatever came before. */
  lemma StartSyncedStaysSynced(b: Breath, n: nat)
    ensures Synced(Ticks(StartSynced(b), n))
  {
    SyncedTicks(StartSynced(b), n);
  }

  /** `formatTime`: whole minutes, a colon, and the seconds padded to two digits. */
  function FormatTime(seconds: nat): string {
    NatToString(seconds / 60) + ":" + PadTwo(NatToString(seconds % 60))
  }

  /** The minutes and seconds can be read back from the text: the last three characters are
      the colon and two digits of the seconds, and the digits before them are the minutes. */
  lemma FormatTimeParts(seconds: nat)
    ensures var t := FormatTime(seconds);
      && |t| >= 4 && t[|t| - 3] == ':'
      && AllDigits(t[..|t| - 3]) && DigitsValue(t[..|t| - 3]) == seconds / 60
      && AllDigits(t[|t| - 2..]) && DigitsValue(t[|t| - 2..]) == seconds % 60
  {
    var m := NatToString(seconds / 60);
    var s := NatToString(seconds % 60);
    var p := PadTwo(s);
    var t := FormatTime(seconds);
    NatToStringValue(seconds / 60);
    NatToStringValue(seconds % 60);
    assert |s| <= 2 by {
      var x := seconds % 60;
      if x >= 10 {
        assert s == NatToString(x / 10) + [DigitChar(x % 10)];
      }
    }
    assert t[..|t| - 3] == m;
    assert t[|t| - 3] == ':';
    assert t[|t| - 2..] == p;
    if |s| == 1 {
      DigitsValueLeadingZero(s);
    }
  }

  /** The minutes and seconds an `m:ss` text shows. */
  function ReadTime(t: string): (nat, nat) {
    if |t| >= 4 && AllDigits(t[..|t| - 3]) && AllDigits(t[|t| - 2..])
    then (DigitsValue(t[..|t| - 3]), DigitsValue(t[|t| - 2..]))
    else (0, 0)
  }

  /** Reading a formatted time back gives its whole minutes and its remaining seconds. */
  lemma FormatTimeRead(seconds: nat)
    ensures ReadTime(FormatTime(seconds)) == (seconds / 60, seconds % 60)
  {
    FormatTimeParts(seconds);
  }

  lemma DivModSixty(a: nat, b: nat)
    requires a / 60 == b / 60 && a % 60 == b % 60
    ensures a == b
  {
    assert a == (a / 60) * 60 + a % 60;
    assert b == (b / 60) * 60 + b % 60;
  }

  /** Different times are written differently. */
  lemma FormatTimeInjective(a: nat, b: nat)
    requires FormatTime(a) == FormatTime(b)
    ensures a == b
  {
    FormatTimeRead(a);
    FormatTimeRead(b);
    DivModSixty(a, b);
  }

  class CalmPage {
    var isPlaying: bool
    var phase: Phase
    var countdown: int
    var cycleCount: nat
    var totalTime: nat
    var phaseIndex: nat
    var currentCount: int

    function State(): Breath
      reads this
    {
      Breath(isPlaying, phase, countdown, cycleCount, totalTime, phaseIndex, currentCount)
    }

    /** While the exercise runs, the display agrees with the callback. */
    predicate InStep()
      reads this
    {
      isPlaying ==> Synced(State())
    }

    constructor ()
      ensures State() == Initial && InStep()
    {
      isPlaying, phase, countdown, cycleCount, totalTime := false, Inhale, 4, 0, 0;
      phaseIndex, currentCount := 0, 4;
    }

    /** Both intervals fire once. */
    method Tick()
      modifies this
      ensures State() == TickOf(old(State()))
      ensures old(InStep()) ==> InStep()
    {
      if isPlaying {
        currentCount := currentCount - 1;
        countdown := currentCount;
        if currentCount == 0 {
          phaseIndex := (phaseIndex + 1) % 3;
          var newPhase := CycleAt(phaseIndex);
          currentCount := Duration(newPhase);
          if newPhase == Inhale {
            cycleCount := cycleCount + 1;
          }
          phase := newPhase;
          countdown := currentCount;
        }
        totalTime := totalTime + 1;
      }
    }

    /** The start button, shown only while stopped, with the display set as `updatePhase`
        sets it: the corrected `startBreathing` (`StartOf` is the one as written). */
    method Start()
      requires !isPlaying
      modifies this
      ensures State() == StartSynced(old(State()))
      ensures InStep()
    {
      isPlaying := true;
      cycleCount := 0;
      totalTime := 0;
      phaseIndex := 0;
      currentCount := Duration(Inhale);
      phase := Inhale;
      countdown := currentCount;
    }

    method Pause()
      modifies this
      ensures State() == PauseOf(old(State()))
      ensures InStep()
    {
      isPlaying := false;
    }

    method Reset()
      modifies this
      ensures State() == ResetOf(old(State()))
      ensures InStep()
    {
      Pause();
      phase := Inhale;
      countdown := 4;
      cycleCount := 0;
      totalTime := 0;
    }
  }
}
