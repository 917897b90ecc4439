/** The signal calibration engine: three user controls (frequency, phase, noise
    suppression) in [0, 100], the signal readings derived from them, a four-state
    status machine with a failure hold, failure detection and a ten-entry log.

    The hook's `state`, `logs` and its two refs (`previousValues`, `lastChangeTime`)
    are the fields of class `Engine`; each control setter is one atomic step on
    them. The clock is the `now` argument, and the random log id together with the
    formatted log time is the `Stamp` argument. */
module SignalEngine {
  import opened Common
  import Text

  const IdealFrequency: real := 50.0
  const IdealPhase: real := 75.0
  const IdealSuppression: real := 30.0
  const LockThreshold: real := 80.0
  const PatternThreshold: real := 60.0
  const FailureSpeedThreshold: real := 20.0
  /** Milliseconds within which a large move counts as too fast. */
  const FailureTimeWindow: int := 500
  /** Milliseconds during which SIGNAL_LOST survives a recomputation. */
  const LostHold: int := 2000
  const LogCapacity: nat := 10
  const SearchInitiated: string := "SIGNAL SEARCH INITIATED"

  datatype Status = Searching | PatternDetected | SignalLock | SignalLost

  datatype Severity = Info | Success | Warning | Error

  /** The random id and the formatted wall-clock time a new log entry receives. */
  datatype Stamp = Stamp(id: string, timestamp: string)

  datatype LogEntry = LogEntry(id: string, timestamp: string, message: string, severity: Severity)

  datatype SignalState = SignalState(
    signalStrength: real,
    noiseLevel: real,
    coherence: real,
    frequency: real,
    phase: real,
    noiseSuppression: real,
    status: Status,
    isLocked: bool,
    lastFailureTime: Option<int>)

  /** What `calculateSignal` returns. */
  datatype Reading = Reading(signalStrength: real, noiseLevel: real, coherence: real, status: Status, isLocked: bool)

  datatype Control = Frequency | Phase | Suppression

  /** The values of the three controls, as kept in the `previousValues` ref. */
  datatype Controls = Controls(frequency: real, phase: real, noiseSuppression: real)

  /** Why a control change was refused. */
  datatype Cause = MovedTooFast(control: Control) | SuppressionTooHigh | PhaseMisalignment

  const InitialState: SignalState :=
    SignalState(0.0, 100.0, 0.0, 25.0, 50.0, 50.0, Searching, false, None)

  const InitialControls: Controls := Controls(25.0, 50.0, 50.0)

  // ------------------------------------------------------------ arithmetic

  function Abs(x: real): real { if x < 0.0 then -x else x }
  function Min(x: real, y: real): real { if x <= y then x else y }
  function Max(x: real, y: real): real { if x >= y then x else y }

  /** `Math.max(0, Math.min(100, v))`. */
  function Clamp(v: real): (r: real)
    ensures 0.0 <= r <= 100.0
    ensures 0.0 <= v <= 100.0 ==> r == v
    ensures v < 0.0 ==> r == 0.0
    ensures v > 100.0 ==> r == 100.0
  {
    Max(0.0, Min(100.0, v))
  }

  predicate InRange(v: real) { 0.0 <= v <= 100.0 }

  /** The averaged distance of the three controls from their ideal values. */
  function Distance(freq: real, phase: real, supp: real): real
  {
    (Abs(freq - IdealFrequency) + Abs(phase - IdealPhase) + Abs(supp - IdealSuppression)) / 3.0
  }

  /** The status each coherence band allows: LOCK from 80 up, PATTERN from 60 to 80,
      SEARCHING and LOST below 60. */
  predicate BandAgrees(status: Status, coherence: real)
  {
    match status
    case SignalLock => coherence >= LockThreshold
    case PatternDetected => PatternThreshold <= coherence < LockThreshold
    case Searching => coherence < PatternThreshold
    case SignalLost => coherence < PatternThreshold
  }

  /** Whether a SIGNAL_LOST recorded at `lastFailureTime` is still being held at `now`
      (`now - (lastFailureTime || 0) < 2000`). */
  predicate StillHeld(lastFailureTime: Option<int>, now: int)
  {
    now - (match lastFailureTime case Some(t) => t case None => 0) < LostHold
  }

  // ------------------------------------------------------------ calculateSignal

  /** `calculateSignal(freq, phase, supp)`; `prevStatus` and `lastFailureTime` are the
      fields of the state it reads, `now` the clock. */
  function Calculate(freq: real, phase: real, supp: real, prevStatus: Status,
                     lastFailureTime: Option<int>, now: int): (r: Reading)
    ensures 0.0 <= r.coherence <= 100.0 && 0.0 <= r.noiseLevel <= 100.0
    ensures 0.0 <= r.signalStrength <= 100.0
    ensures r.isLocked <==> r.status == SignalLock
    ensures BandAgrees(r.status, r.coherence)
    ensures r.status == SignalLost ==> prevStatus == SignalLost && StillHeld(lastFailureTime, now)
  {
    var freqDist := Abs(freq - IdealFrequency);
    var totalDist := Distance(freq, phase, supp);
    var coherence := Max(0.0, Min(100.0, 100.0 - totalDist));
    var noiseLevel := Min(100.0, totalDist);
    var signalStrength := Max(0.0, Min(100.0, 100.0 - freqDist * 2.0));
    var status :=
      if coherence >= LockThreshold then SignalLock
      else if coherence >= PatternThreshold then PatternDetected
      else if prevStatus == SignalLost && StillHeld(lastFailureTime, now) then SignalLost
      else Searching;
    Reading(signalStrength, noiseLevel, coherence, status, status == SignalLock)
  }

  /** The ideal setting gives full coherence, no noise, full strength and a lock. */
  lemma IdealSettingLocks(prevStatus: Status, lastFailureTime: Option<int>, now: int)
    ensures Calculate(IdealFrequency, IdealPhase, IdealSuppression, prevStatus, lastFailureTime, now)
            == Reading(100.0, 0.0, 100.0, SignalLock, true)
  {
  }

  /** With every control in [0, 100] the averaged distance is at most 65, so neither clamp
      binds: coherence is 100 minus the distance, noise is the distance itself, and the two
      add up to 100. */
  lemma {:induction false} ReadingInRange(freq: real, phase: real, supp: real, prevStatus: Status,
                                          lastFailureTime: Option<int>, now: int)
    requires InRange(freq) && InRange(phase) && InRange(supp)
    ensures var r := Calculate(freq, phase, supp, prevStatus, lastFailureTime, now);
      && r.coherence == 100.0 - Distance(freq, phase, supp)
      && r.noiseLevel == Distance(freq, phase, supp)
      && 35.0 <= r.coherence <= 100.0
      && r.coherence + r.noiseLevel == 100.0
      && r.signalStrength == Clamp(100.0 - 2.0 * Abs(freq - IdealFrequency))
  {
    assert Abs(freq - IdealFrequency) <= 50.0;
    assert Abs(phase - IdealPhase) <= 75.0;
    assert Abs(supp - IdealSuppression) <= 70.0;
  }

  /** The order in which the status is chosen: lock, then pattern, then the SIGNAL_LOST
      hold, then searching. */
  lemma StatusChoice(freq: real, phase: real, supp: real, prevStatus: Status,
                     lastFailureTime: Option<int>, now: int)
    ensures var r := Calculate(freq, phase, supp, prevStatus, lastFailureTime, now);
      && (r.status == SignalLock <==> r.coherence >= LockThreshold)
      && (r.status == PatternDetected <==> PatternThreshold <= r.coherence < LockThreshold)
      && (r.status == SignalLost <==>
            r.coherence < PatternThreshold && prevStatus == SignalLost && StillHeld(lastFailureTime, now))
      && (r.status == Searching <==>
            r.coherence < PatternThreshold && !(prevStatus == SignalLost && StillHeld(lastFailureTime, now)))
  {
  }

  // ------------------------------------------------------------ the log

  /** `[...prev.slice(-9), entry]`: the newest entry last, at most ten kept. */
  function Appended(logs: seq<LogEntry>, entry: LogEntry): (r: seq<LogEntry>)
    ensures 1 <= |r| <= LogCapacity
    ensures |r| == if |logs| < LogCapacity then |logs| + 1 else LogCapacity
    ensures r[|r| - 1] == entry
  {
    Last(logs, LogCapacity - 1) + [entry]
  }

  function AppendedAll(logs: seq<LogEntry>, entries: seq<LogEntry>): seq<LogEntry>
    decreases |entries|
  {
    if entries == [] then logs else AppendedAll(Appended(logs, entries[0]), entries[1..])
  }

  /** One addition keeps the ten most recent entries of the extended log. */
  lemma AppendedIsLast(logs: seq<LogEntry>, entry: LogEntry)
    requires |logs| <= LogCapacity
    ensures Appended(logs, entry) == Last(logs + [entry], LogCapacity)
  {
    if |logs| == LogCapacity {
      assert (logs + [entry])[1..] == logs[1..] + [entry];
    }
  }

  /** However many entries are added one at a time, the log holds the ten most recent of
      everything recorded, oldest first. */
  lemma {:induction false} AppendedAllKeepsNewest(logs: seq<LogEntry>, entries: seq<LogEntry>)
    requires |logs| <= LogCapacity
    ensures AppendedAll(logs, entries) == Last(logs + entries, LogCapacity)
    decreases |entries|
  {
    if entries == [] {
      assert logs + entries == logs;
    } else {
      var e, rest := entries[0], entries[1..];
      AppendedIsLast(logs, e);
      AppendedAllKeepsNewest(Appended(logs, e), rest);
      LastAppendOne(logs, e, rest, LogCapacity);
      assert entries == [e] + rest;
    }
  }

  function Entry(stamp: Stamp, message: string, severity: Severity): LogEntry
  {
    LogEntry(stamp.id, stamp.timestamp, message, severity)
  }

  // ------------------------------------------------------------ checkFailure

  /** The first failure condition that holds, if any: a move of more than 20 within 500 ms
      of the last accepted change, then suppression above 80, then phase outside [20, 90].
      The last two read the state before the update, whichever control is moving. */
  function FailureCause(state: SignalState, lastChangeTime: int, newValue: real, oldValue: real,
                        control: Control, now: int): (r: Option<Cause>)
    ensures r == Some(MovedTooFast(control)) <==>
              now - lastChangeTime < FailureTimeWindow && Abs(newValue - oldValue) > FailureSpeedThreshold
    ensures r == None <==>
              !(now - lastChangeTime < FailureTimeWindow && Abs(newValue - oldValue) > FailureSpeedThreshold)
              && state.noiseSuppression <= 80.0 && 20.0 <= state.phase <= 90.0
  {
    if now - lastChangeTime < FailureTimeWindow && Abs(newValue - oldValue) > FailureSpeedThreshold then
      Some(MovedTooFast(control))
    else if state.noiseSuppression > 80.0 then Some(SuppressionTooHigh)
    else if state.phase < 20.0 || state.phase > 90.0 then Some(PhaseMisalignment)
    else None
  }

  function ControlName(control: Control): string
  {
    match control
    case Frequency => "FREQUENCY"
    case Phase => "PHASE"
    case Suppression => "SUPPRESSION"
  }

  function CauseMessage(cause: Cause): string
  {
    match cause
    case MovedTooFast(c) => "SIGNAL LOST - " + ControlName(c) + " MOVED TOO FAST"
    case SuppressionTooHigh => "SIGNAL LOST - NOISE SUPPRESSION TOO HIGH"
    case PhaseMisalignment => "SIGNAL LOST - PHASE MISALIGNMENT"
  }

  // ------------------------------------------------------------ the setters

  function ControlValue(state: SignalState, control: Control): real
  {
    match control
    case Frequency => state.frequency
    case Phase => state.phase
    case Suppression => state.noiseSuppression
  }

  function PreviousValue(values: Controls, control: Control): real
  {
    match control
    case Frequency => values.frequency
    case Phase => values.phase
    case Suppression => values.noiseSuppression
  }

  function WithControl(state: SignalState, control: Control, v: real): SignalState
  {
    match control
    case Frequency => state.(frequency := v)
    case Phase => state.(phase := v)
    case Suppression => state.(noiseSuppression := v)
  }

  function WithPrevious(values: Controls, control: Control, v: real): Controls
  {
    match control
    case Frequency => values.(frequency := v)
    case Phase => values.(phase := v)
    case Suppression => values.(noiseSuppression := v)
  }

  /** Everything the hook keeps between calls. */
  datatype Snapshot = Snapshot(state: SignalState, logs: seq<LogEntry>, previousValues: Controls, lastChangeTime: int)

  /** The failure path: the control takes the clamped value, the status is SIGNAL_LOST. */
  function Lost(state: SignalState, control: Control, clamped: real, now: int): SignalState
  {
    WithControl(state, control, clamped).(
      status := SignalLost, isLocked := false, lastFailureTime := Some(now),
      coherence := 0.0, noiseLevel := 100.0)
  }

  /** The success path: the control takes the clamped value and the readings are recomputed. */
  function Recomputed(state: SignalState, control: Control, clamped: real, now: int): SignalState
  {
    var s := WithControl(state, control, clamped);
    var r := Calculate(s.frequency, s.phase, s.noiseSuppression, state.status, state.lastFailureTime, now);
    s.(signalStrength := r.signalStrength, noiseLevel := r.noiseLevel, coherence := r.coherence,
       status := r.status, isLocked := r.isLocked)
  }

  /** One call of `setFrequency`, `setPhase` or `setNoiseSuppression`. */
  function SetControl(e: Snapshot, control: Control, value: real, now: int, stamp: Stamp): (r: Snapshot)
    ensures ControlValue(r.state, control) == Clamp(value)
    ensures r.logs != e.logs ==> r.state.status == SignalLost && r.logs != [] && r.logs[|r.logs| - 1].severity == Error
    ensures r.lastChangeTime != e.lastChangeTime ==> r.lastChangeTime == now && r.logs == e.logs
  {
    var clamped := Clamp(value);
    match FailureCause(e.state, e.lastChangeTime, clamped, PreviousValue(e.previousValues, control), control, now)
    case Some(cause) =>
      e.(state := Lost(e.state, control, clamped, now),
         logs := Appended(e.logs, Entry(stamp, CauseMessage(cause), Error)))
    case None =>
      e.(state := Recomputed(e.state, control, clamped, now),
         previousValues := WithPrevious(e.previousValues, control, clamped),
         lastChangeTime := now)
  }

  /** Mounting the hook: the initial state, one "SIGNAL SEARCH INITIATED" entry and the
      refs at their initial values. */
  function Mount(now: int, stamp: Stamp): (r: Snapshot)
    ensures r.state.status == Searching && !r.state.isLocked && r.state.lastFailureTime == None
    ensures |r.logs| == 1 && r.logs[0].message == SearchInitiated && r.logs[0].severity == Info
    ensures r.lastChangeTime == now
  {
    Snapshot(InitialState, [Entry(stamp, SearchInitiated, Info)], InitialControls, now)
  }

  /** `reset`: the initial state and a log of one entry; the refs are left as they were. */
  function Restarted(e: Snapshot, stamp: Stamp): (r: Snapshot)
    ensures r.state.status == Searching && r.state.lastFailureTime == None
    ensures |r.logs| == 1 && r.logs[0].message == SearchInitiated && r.logs[0].severity == Info
    ensures r.previousValues == e.previousValues && r.lastChangeTime == e.lastChangeTime
  {
    e.(state := InitialState, logs := Appended([], Entry(stamp, SearchInitiated, Info)))
  }

  /** Each setter stores the clamped input in its own control, on both paths, and leaves
      the two other controls alone. */
  lemma SetterStoresClamped(e: Snapshot, control: Control, value: real, now: int, stamp: Stamp, other: Control)
    ensures ControlValue(SetControl(e, control, value, now, stamp).state, control) == Clamp(value)
    ensures other != control ==>
      ControlValue(SetControl(e, control, value, now, stamp).state, other) == ControlValue(e.state, other)
  {
  }

  /** A refused change: SIGNAL_LOST with coherence 0, noise 100 and the failure time, exactly
      one error entry, and signal strength, previous values and last change time untouched. */
  lemma FailurePath(e: Snapshot, control: Control, value: real, now: int, stamp: Stamp)
    requires FailureCause(e.state, e.lastChangeTime, Clamp(value), PreviousValue(e.previousValues, control), control, now).Some?
    ensures var e' := SetControl(e, control, value, now, stamp);
      && e'.state.status == SignalLost && !e'.state.isLocked
      && e'.state.coherence == 0.0 && e'.state.noiseLevel == 100.0
      && e'.state.lastFailureTime == Some(now)
      && e'.state.signalStrength == e.state.signalStrength
      && e'.previousValues == e.previousValues && e'.lastChangeTime == e.lastChangeTime
      && e'.logs[..|e'.logs| - 1] == Last(e.logs, LogCapacity - 1)
      && e'.logs[|e'.logs| - 1].severity == Error
  {
  }

  /** An accepted change: no log entry, and only that control's previous value and the
      single shared last change time move. */
  lemma SuccessPath(e: Snapshot, control: Control, value: real, now: int, stamp: Stamp)
    requires FailureCause(e.state, e.lastChangeTime, Clamp(value), PreviousValue(e.previousValues, control), control, now).None?
    ensures var e' := SetControl(e, control, value, now, stamp);
      && e'.logs == e.logs
      && e'.lastChangeTime == now
      && PreviousValue(e'.previousValues, control) == Clamp(value)
      && (forall c :: c != control ==> PreviousValue(e'.previousValues, c) == PreviousValue(e.previousValues, c))
      && e'.state.lastFailureTime == e.state.lastFailureTime
  {
  }

  /** `reset` restores the initial state and leaves one info entry, but keeps the refs. */
  lemma ResetRestores(e: Snapshot, stamp: Stamp)
    ensures var e' := Restarted(e, stamp);
      && e'.state == InitialState
      && e'.logs == [LogEntry(stamp.id, stamp.timestamp, "SIGNAL SEARCH INITIATED", Info)]
      && e'.previousValues == e.previousValues && e'.lastChangeTime == e.lastChangeTime
  {
  }

  // ------------------------------------------------------------ invariants

  /** What holds in every state the hook can reach. */
  ghost predicate Inv(e: Snapshot)
  {
    var s := e.state;
    && InRange(s.frequency) && InRange(s.phase) && InRange(s.noiseSuppression)
    && InRange(s.signalStrength) && InRange(s.coherence)
    && s.coherence + s.noiseLevel == 100.0
    && (s.isLocked <==> s.status == SignalLock)
    && (s.status == SignalLost ==> s.lastFailureTime.Some?)
    && BandAgrees(s.status, s.coherence)
    && |e.logs| <= LogCapacity
  }

  lemma MountEstablishes(now: int, stamp: Stamp)
    ensures Inv(Mount(now, stamp))
  {
  }

  lemma {:induction false} SetControlPreserves(e: Snapshot, control: Control, value: real, now: int, stamp: Stamp)
    requires Inv(e)
    ensures Inv(SetControl(e, control, value, now, stamp))
  {
    var clamped := Clamp(value);
    var s := WithControl(e.state, control, clamped);
    ReadingInRange(s.frequency, s.phase, s.noiseSuppression, e.state.status, e.state.lastFailureTime, now);
  }

  datatype Action = Set(control: Control, value: real, now: int, stamp: Stamp) | ResetAction(stamp: Stamp)

  function Step(e: Snapshot, a: Action): Snapshot
  {
    match a
    case Set(c, v, now, stamp) => SetControl(e, c, v, now, stamp)
    case ResetAction(stamp) => Restarted(e, stamp)
  }

  /** The snapshot after a sequence of calls. */
  function Run(e: Snapshot, actions: seq<Action>): Snapshot
    decreases |actions|
  {
    if actions == [] then e else Run(Step(e, actions[0]), actions[1..])
  }

  lemma {:induction false} RunPreserves(e: Snapshot, actions: seq<Action>)
    requires Inv(e)
    ensures Inv(Run(e, actions))
    decreases |actions|
  {
    if actions != [] {
      if actions[0].Set? {
        var a := actions[0];
        SetControlPreserves(e, a.control, a.value, a.now, a.stamp);
      }
      RunPreserves(Step(e, actions[0]), actions[1..]);
    }
  }

  /** In every reachable state: all values in range, coherence and noise add up to 100,
      the lock flag agrees with the status, and SIGNAL_LOST has a failure time. */
  lemma Reachable(now: int, stamp: Stamp, actions: seq<Action>)
    ensures Inv(Run(Mount(now, stamp), actions))
  {
    MountEstablishes(now, stamp);
    RunPreserves(Mount(now, stamp), actions);
  }

  // ------------------------------------------------------------ the status-logging effect

  /** `Math.round`: the nearest integer, halves rounded up. */
  function Round(x: real): int { (x + 0.5).Floor }

  /** The entry the status-change effect would append, as the effect is written: its first
      test compares the current status with itself, its second asks for SIGNAL_LOCK while
      unlocked. */
  function StatusLogEntry(s: SignalState, stamp: Stamp): Option<LogEntry>
  {
    var prevStatus := s.status;
    if prevStatus == Searching && s.status == PatternDetected then
      Some(Entry(stamp, "COHERENCE " + Text.IntToString(Round(s.coherence)) + "% - PATTERN DETECTED", Info))
    else if s.status == SignalLock && !s.isLocked then
      Some(Entry(stamp, "COHERENCE " + Text.IntToString(Round(s.coherence)) + "% - SIGNAL LOCK", Success))
    else None
  }

  /** The status-change effect never appends anything in a reachable state. */
  lemma StatusLogNeverFires(now: int, stamp: Stamp, actions: seq<Action>, effectStamp: Stamp)
    ensures StatusLogEntry(Run(Mount(now, stamp), actions).state, effectStamp) == None
  {
    Reachable(now, stamp, actions);
  }

  // ------------------------------------------------------------ coupling of the controls

  /** A failed call still moves the control: with the phase pinned above 90, setting it
      back to 50 is refused as a misalignment but leaves the phase at 50. */
  lemma PinnedPhaseMovesBack(e: Snapshot, now: int, stamp: Stamp)
    requires e.state.phase > 90.0 && e.state.noiseSuppression <= 80.0
    requires now - e.lastChangeTime >= FailureTimeWindow
    ensures var e' := SetControl(e, Phase, 50.0, now, stamp);
      && e'.state.phase == 50.0 && e'.state.status == SignalLost
      && e'.logs[|e'.logs| - 1].message == "SIGNAL LOST - PHASE MISALIGNMENT"
  {
  }

  /** Setting a phase above 90 twice: the first, slow call is accepted, the second is
      refused because the phase it finds is out of range, although nothing moved. */
  lemma RepeatedHighPhaseFails(e: Snapshot, now: int, later: int, stamp: Stamp)
    requires Inv(e)
    requires e.state.noiseSuppression <= 80.0 && 20.0 <= e.state.phase <= 90.0
    requires e.previousValues.phase == 90.0
    requires now - e.lastChangeTime >= FailureTimeWindow
    ensures var e1 := SetControl(e, Phase, 95.0, now, stamp);
      && e1.state.phase == 95.0 && e1.state.status != SignalLost
      && SetControl(e1, Phase, 95.0, later, stamp).state.status == SignalLost
  {
  }

  /** Repeating an accepted call changes nothing when the controls it leaves behind are in
      the safe ranges and the status it computed was not the SIGNAL_LOST hold. */
  lemma {:induction false} RepeatIsStable(e: Snapshot, control: Control, value: real, now: int, later: int, stamp: Stamp)
    requires FailureCause(e.state, e.lastChangeTime, Clamp(value), PreviousValue(e.previousValues, control), control, now).None?
    requires var s := SetControl(e, control, value, now, stamp).state;
      s.noiseSuppression <= 80.0 && 20.0 <= s.phase <= 90.0 && s.status != SignalLost
    ensures var e1 := SetControl(e, control, value, now, stamp);
      var e2 := SetControl(e1, control, value, later, stamp);
      e2.state == e1.state && e2.logs == e1.logs && e2.previousValues == e1.previousValues
  {
    var e1 := SetControl(e, control, value, now, stamp);
    var clamped := Clamp(value);
    assert e1.state == Recomputed(e.state, control, clamped, now);
    assert e1.previousValues == WithPrevious(e.previousValues, control, clamped);
    PreviousAfterWith(e.previousValues, control, clamped);
    assert FailureCause(e1.state, e1.lastChangeTime, clamped, clamped, control, later).None?;
    RecomputedIsFixed(e.state, control, clamped, now, later);
  }

  /** A recomputation that did not end in the SIGNAL_LOST hold gives the same state when it
      is done again with the same control value, at any time. */
  lemma RecomputedIsFixed(state: SignalState, control: Control, clamped: real, now: int, later: int)
    requires Recomputed(state, control, clamped, now).status != SignalLost
    ensures var s1 := Recomputed(state, control, clamped, now);
      Recomputed(s1, control, clamped, later) == s1
  {
    var s := WithControl(state, control, clamped);
    var s1 := Recomputed(state, control, clamped, now);
    assert WithControl(s1, control, clamped) == s1 by {
      match control
      case Frequency =>
      case Phase =>
      case Suppression =>
    }
    var r1 := Calculate(s.frequency, s.phase, s.noiseSuppression, state.status, state.lastFailureTime, now);
    var r2 := Calculate(s.frequency, s.phase, s.noiseSuppression, s1.status, s1.lastFailureTime, later);
    assert s1.frequency == s.frequency && s1.phase == s.phase && s1.noiseSuppression == s.noiseSuppression;
    assert r1 == r2;
  }

  /** Recording a control's previous value and reading it back, or recording it again. */
  lemma PreviousAfterWith(values: Controls, control: Control, v: real)
    ensures PreviousValue(WithPrevious(values, control, v), control) == v
    ensures WithPrevious(WithPrevious(values, control, v), control, v) == WithPrevious(values, control, v)
  {
  }

  // ------------------------------------------------------------ the hook

  class Engine {
    var state: SignalState
    var logs: seq<LogEntry>
    var previousValues: Controls
    var lastChangeTime: int

    function View(): Snapshot
      reads this
    {
      Snapshot(state, logs, previousValues, lastChangeTime)
    }

    ghost predicate Valid()
      reads this
    {
      Inv(View())
    }

    /** Mounting: initial state, initial refs, and the mount effect's one log entry. */
    constructor (now: int, stamp: Stamp)
      ensures View() == Mount(now, stamp) && Valid()
    {
      state := InitialState;
      // the mount effect's `addLog` on the empty log
      logs := [Entry(stamp, SearchInitiated, Info)];
      previousValues := InitialControls;
      lastChangeTime := now;
      MountEstablishes(now, stamp);
    }

    method AddLog(message: string, severity: Severity, stamp: Stamp)
      modifies this`logs
      ensures logs == Appended(old(logs), Entry(stamp, message, severity))
    {
      var entry := LogEntry(stamp.id, stamp.timestamp, message, severity);
      var kept := if |logs| > LogCapacity - 1 then logs[|logs| - (LogCapacity - 1)..] else logs;
      logs := kept + [entry];
    }

    method CheckFailure(newValue: real, oldValue: real, control: Control, now: int, stamp: Stamp)
      returns (failed: bool)
      modifies this`logs
      ensures var cause := FailureCause(state, lastChangeTime, newValue, oldValue, control, now);
        && failed == cause.Some?
        && logs == if failed then Appended(old(logs), Entry(stamp, CauseMessage(cause.value), Error)) else old(logs)
    {
      // the three checks, in their order, are those of `FailureCause`
      var cause := FailureCause(state, lastChangeTime, newValue, oldValue, control, now);
      if cause.Some? {
        AddLog(CauseMessage(cause.value), Error, stamp);
        return true;
      }
      return false;
    }

    method SetFrequency(value: real, now: int, stamp: Stamp)
      requires Valid()
      modifies this
      ensures View() == SetControl(old(View()), Frequency, value, now, stamp) && Valid()
    {
      SetControlPreserves(View(), Frequency, value, now, stamp);
      var clamped := Clamp(value);
      var failed := CheckFailure(clamped, previousValues.frequency, Frequency, now, stamp);
      if failed {
        state := state.(frequency := clamped, status := SignalLost, isLocked := false,
                        lastFailureTime := Some(now), coherence := 0.0, noiseLevel := 100.0);
        return;
      }
      var calculated := Calculate(clamped, state.phase, state.noiseSuppression, state.status, state.lastFailureTime, now);
      state := state.(frequency := clamped, signalStrength := calculated.signalStrength,
                      noiseLevel := calculated.noiseLevel, coherence := calculated.coherence,
                      status := calculated.status, isLocked := calculated.isLocked);
      previousValues := previousValues.(frequency := clamped);
      lastChangeTime := now;
    }

    method SetPhase(value: real, now: int, stamp: Stamp)
      requires Valid()
      modifies this
      ensures View() == SetControl(old(View()), Phase, value, now, stamp) && Valid()
    {
      SetControlPreserves(View(), Phase, value, now, stamp);
      var clamped := Clamp(value);
      var failed := CheckFailure(clamped, previousValues.phase, Phase, now, stamp);
      if failed {
        state := state.(phase := clamped, status := SignalLost, isLocked := false,
                        lastFailureTime := Some(now), coherence := 0.0, noiseLevel := 100.0);
        return;
      }
      var calculated := Calculate(state.frequency, clamped, state.noiseSuppression, state.status, state.lastFailureTime, now);
      state := state.(phase := clamped, signalStrength := calculated.signalStrength,
                      noiseLevel := calculated.noiseLevel, coherence := calculated.coherence,
                      status := calculated.status, isLocked := calculated.isLocked);
      previousValues := previousValues.(phase := clamped);
      lastChangeTime := now;
    }

    method SetNoiseSuppression(value: real, now: int, stamp: Stamp)
      requires Valid()
      modifies this
      ensures View() == SetControl(old(View()), Suppression, value, now, stamp) && Valid()
    {
      SetControlPreserves(View(), Suppression, value, now, stamp);
      var clamped := Clamp(value);
      var failed := CheckFailure(clamped, previousValues.noiseSuppression, Suppression, now, stamp);
      if failed {
        state := state.(noiseSuppression := clamped, status := SignalLost, isLocked := false,
                        lastFailureTime := Some(now), coherence := 0.0, noiseLevel := 100.0);
        return;
      }
      var calculated := Calculate(state.frequency, state.phase, clamped, state.status, state.lastFailureTime, now);
      state := state.(noiseSuppression := clamped, signalStrength := calculated.signalStrength,
                      noiseLevel := calculated.noiseLevel, coherence := calculated.coherence,
                      status := calculated.status, isLocked := calculated.isLocked);
      previousValues := previousValues.(noiseSuppression := clamped);
      lastChangeTime := now;
    }

    method Reset(stamp: Stamp)
      requires Valid()
      modifies this
      ensures View() == Restarted(old(View()), stamp) && Valid()
    {
      state := InitialState;
      logs := [];
      logs := Appended(logs, Entry(stamp, SearchInitiated, Info));
    }
  }
}
