/** The personnel tracker: manual traces added from the form, and the activity log that each
    scan extends. Random draws, the clock and the formatted time are passed in. */
module LiveUsers {
  import Text

  datatype UserStatus = Active | Offline | Mia | Breach

  datatype User = User(id: string, name: string, role: string, location: string, status: UserStatus, clearance: int)

  datatype LogType = Info | Warning | Error

  datatype LogEntry = LogEntry(id: int, timestamp: string, message: string, kind: LogType)

  datatype Dimension = Real | UpsideDown

  const Locations: seq<string> :=
    ["CONTROL ROOM", "SUBSTATION", "THE GATE", "THE TANK", "LABORATORY B", "PERIMETER",
     "ARCHIVES", "CAFETERIA", "UPSIDE DOWN (UNCERTAIN)"]

  const Actions: seq<string> :=
    ["SIGNAL DETECTED", "PING RECEIVED", "PACKET LOSS", "ENCRYPTION HANDSHAKE", "ROUTING DATA"]

  const LogCapacity: nat := 10
  const ManualRole: string := "MANUAL TRACE"
  const RiftPrefix: string := "[UPSIDE DOWN] "

  // ------------------------------------------------------------ manual traces

  /** `TRC-` and the number `floor(random * 900) + 100`, for a draw `floor(random * 900)`. */
  function TraceId(draw: nat): (r: string)
    requires draw < 900
    ensures |r| == 7 && r[..4] == "TRC-"
    ensures Text.AllDigits(r[4..]) && 100 <= Text.DigitsValue(r[4..]) <= 999
  {
    var n := draw + 100;
    ThreeDigits(n);
    Text.NatToStringRoundTrip(n);
    var r := "TRC-" + Text.NatToString(n);
    assert r[4..] == Text.NatToString(n);
    r
  }

  /** A number from 100 to 999 is written with three digits. */
  lemma ThreeDigits(n: nat)
    requires 100 <= n <= 999
    ensures |Text.NatToString(n)| == 3
  {
    assert |Text.NatToString(n / 100)| == 1;
    assert |Text.NatToString(n / 10)| == 2;
  }

  /** Different draws give different trace ids. */
  lemma TraceIdInjective(a: nat, b: nat)
    requires a < 900 && b < 900 && TraceId(a) == TraceId(b)
    ensures a == b
  {
    assert TraceId(a)[4..] == TraceId(b)[4..];
    Text.NatToStringRoundTrip(a + 100);
    Text.NatToStringRoundTrip(b + 100);
    assert TraceId(a)[4..] == Text.NatToString(a + 100);
    assert TraceId(b)[4..] == Text.NatToString(b + 100);
  }

  /** The location a trace is filed under: the upper-cased custom location when one is
      being added, the selected one otherwise. */
  function TraceLocation(selected: string, custom: string, addingCustom: bool): (r: string)
    ensures addingCustom ==> r == Text.Upper(custom)
    ensures !addingCustom ==> r == selected
  {
    if addingCustom then Text.Upper(custom) else selected
  }

  /** The user record of a manual trace. */
  function Trace(name: string, dimension: Dimension, location: string, draw: nat): (r: User)
    requires draw < 900
    ensures r.id == TraceId(draw) && r.name == Text.Upper(name)
    ensures r.role == ManualRole && r.clearance == 0
    ensures dimension == UpsideDown ==> r.status == Breach && r.location == RiftPrefix + location
    ensures dimension == Real ==> r.status == Active && r.location == location
  {
    User(TraceId(draw), Text.Upper(name), ManualRole,
         if dimension == UpsideDown then RiftPrefix + location else location,
         if dimension == UpsideDown then Breach else Active,
         0)
  }

  /** The log line confirming a trace. */
  function TraceLog(draw: nat, now: int, timestamp: string): (r: LogEntry)
    requires draw < 900
    ensures r.kind == Warning && r.id == now && r.timestamp == timestamp
    ensures r.message == "MANUAL TRACE INITIATED: " + TraceId(draw)
  {
    LogEntry(now, timestamp, "MANUAL TRACE INITIATED: " + TraceId(draw), Warning)
  }

  /** A traced name reads the same whatever case it was typed in. */
  lemma TraceIgnoresCase(name: string, dimension: Dimension, location: string, draw: nat)
    requires draw < 900
    ensures Trace(Text.Lower(name), dimension, location, draw) == Trace(name, dimension, location, draw)
  {
    Text.UpperOfLower(name);
  }

  /** Only the rift dimension marks a breach, and its location always carries the prefix. */
  lemma BreachIffRift(name: string, dimension: Dimension, location: string, draw: nat)
    requires draw < 900
    ensures Trace(name, dimension, location, draw).status == Breach <==> dimension == UpsideDown
    ensures dimension == UpsideDown ==> Trace(name, dimension, location, draw).location[..|RiftPrefix|] == RiftPrefix
  {
  }

  // ------------------------------------------------------------ scans

  /** The log line of a scan, for the drawn action, sector draw and warning roll. */
  function ScanLog(action: nat, sector: nat, warn: bool, now: int, timestamp: string): (r: LogEntry)
    requires action < |Actions| && sector < 9
    ensures r.id == now && r.timestamp == timestamp
    ensures r.kind == if warn then Warning else Info
    ensures var a := |Actions[action]|;
      && |r.message| == a + 8 && r.message[..a] == Actions[action]
      && r.message[a..a + 6] == " [SEC-" && r.message[a + 7] == ']'
      && Text.IsDigit(r.message[a + 6]) && r.message[a + 6] as int - '0' as int == sector + 1
  {
    var digit := Text.NatToString(sector + 1);
    assert digit == [Text.DigitChar(sector + 1)];
    LogEntry(now, timestamp, Actions[action] + " [SEC-" + digit + "]", if warn then Warning else Info)
  }

  /** A scan's log update: the new line in front, then the first ten kept. */
  function Scanned(logs: seq<LogEntry>, entry: LogEntry): (r: seq<LogEntry>)
    ensures |r| == if |logs| < LogCapacity then |logs| + 1 else LogCapacity
    ensures r[0] == entry
    ensures forall i :: 0 < i < |r| ==> r[i] == logs[i - 1]
  {
    var next := [entry] + logs;
    if |next| > LogCapacity then next[..LogCapacity] else next
  }

  /** The log after a run of scans from empty: the newest ten lines, newest first. */
  function ScanRun(entries: seq<LogEntry>): seq<LogEntry>
  {
    if entries == [] then [] else Scanned(ScanRun(entries[..|entries| - 1]), entries[|entries| - 1])
  }

  function Reversed<T>(s: seq<T>): (r: seq<T>)
    ensures |r| == |s|
    ensures forall i :: 0 <= i < |s| ==> r[i] == s[|s| - 1 - i]
  {
    if s == [] then [] else [s[|s| - 1]] + Reversed(s[..|s| - 1])
  }

  /** After scans alone, the log is the newest ten entries in reverse order of arrival. */
  lemma {:induction false} ScanRunIsNewestFirst(entries: seq<LogEntry>)
    ensures var r := ScanRun(entries);
      |r| == (if |entries| < LogCapacity then |entries| else LogCapacity)
      && r == Reversed(entries)[..|r|]
  {
    if entries != [] {
      var init := entries[..|entries| - 1];
      ScanRunIsNewestFirst(init);
      var r := ScanRun(entries);
      var rev := Reversed(entries);
      forall i | 0 <= i < |r|
        ensures r[i] == rev[i]
      {
        if i > 0 {
          assert Reversed(init)[i - 1] == init[|init| - 1 - (i - 1)];
        }
      }
    }
  }

  // ------------------------------------------------------------ the component

  class Tracker {
    var scannedUsers: seq<User>
    var logs: seq<LogEntry>
    var traceName: string
    var traceDimension: Dimension
    var traceLocation: string
    var customLocation: string
    var isAddingCustom: bool

    constructor ()
      ensures scannedUsers == [] && logs == []
      ensures traceName == "" && traceDimension == Real && traceLocation == Locations[0]
      ensures customLocation == "" && !isAddingCustom
    {
      scannedUsers := [];
      logs := [];
      traceName := "";
      traceDimension := Real;
      traceLocation := Locations[0];
      customLocation := "";
      isAddingCustom := false;
    }

    /** `handleAddTrace`, with `floor(random * 900)` passed in as `draw`. An empty name does
        nothing (a blank but non-empty one is traced). Otherwise the trace goes in front of
        the list, the form is reset except for the dimension, and the confirmation goes in
        front of the log, which is not cut back to ten here. */
    method AddTrace(draw: nat, now: int, timestamp: string)
      requires draw < 900
      modifies this
      ensures old(traceName) == [] ==>
        && scannedUsers == old(scannedUsers) && logs == old(logs)
        && traceName == old(traceName) && traceDimension == old(traceDimension)
        && traceLocation == old(traceLocation) && customLocation == old(customLocation)
        && isAddingCustom == old(isAddingCustom)
      ensures old(traceName) != [] ==>
        && scannedUsers == [Trace(old(traceName), old(traceDimension),
                                  TraceLocation(old(traceLocation), old(customLocation), old(isAddingCustom)),
                                  draw)] + old(scannedUsers)
        && logs == [TraceLog(draw, now, timestamp)] + old(logs)
        && traceName == "" && customLocation == "" && !isAddingCustom
        && traceLocation == Locations[0] && traceDimension == old(traceDimension)
    {
      if traceName == [] {
        return;
      }
      var location := TraceLocation(traceLocation, customLocation, isAddingCustom);
      var user := Trace(traceName, traceDimension, location, draw);
      scannedUsers := [user] + scannedUsers;
      traceName := "";
      customLocation := "";
      isAddingCustom := false;
      traceLocation := Locations[0];
      logs := [TraceLog(draw, now, timestamp)] + logs;
    }

    /** The log part of `scan`. */
    method ScanLogs(action: nat, sector: nat, warn: bool, now: int, timestamp: string)
      requires action < |Actions| && sector < 9
      modifies this
      ensures logs == Scanned(old(logs), ScanLog(action, sector, warn, now, timestamp))
      ensures scannedUsers == old(scannedUsers)
      ensures traceName == old(traceName) && traceDimension == old(traceDimension)
      ensures traceLocation == old(traceLocation) && customLocation == old(customLocation)
      ensures isAddingCustom == old(isAddingCustom)
    {
      logs := Scanned(logs, ScanLog(action, sector, warn, now, timestamp));
    }
  }

  /** A trace added to a full log makes it eleven lines long until the next scan, which cuts
      it back to ten. */
  lemma TraceOverflowsLog(logs: seq<LogEntry>, draw: nat, now: int, timestamp: string, next: LogEntry)
    requires draw < 900 && |logs| == LogCapacity
    ensures |[TraceLog(draw, now, timestamp)] + logs| == LogCapacity + 1
    ensures |Scanned([TraceLog(draw, now, timestamp)] + logs, next)| == LogCapacity
  {
  }
}
