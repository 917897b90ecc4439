/** The command terminal: command normalisation and dispatch, the command history, and the
    ArrowUp / ArrowDown cursor that recalls earlier commands into the input line. */
module Terminal {
  import opened Common
  import Text

  /** The input line. An out-of-range read of the recall list puts JavaScript's `undefined`
      there, which the next Enter calls `trim` on. */
  datatype Input = Line(text: string) | Undefined

  /** A history entry; its timestamp is not modelled. */
  datatype HistoryEntry = HistoryEntry(command: string, output: string)

  /** The `onCommand` prop: absent, or a function that may answer with a string. */
  datatype Handler = NoHandler | Handler(respond: string -> Option<string>)

  datatype Key = Enter | ArrowUp | ArrowDown | OtherKey

  /** Everything the component keeps. */
  datatype Term = Term(input: Input, history: seq<HistoryEntry>, historyIndex: int)

  const Booted: string := "SYSTEM INITIALIZED"
  const Banner: string := "HAWKINS COMMAND TERMINAL v1.0"
  const HelpText: string := "COMMANDS: /INCIDENT (REPORT), /DOOM (NEUTRALIZE ALL), /STAT (METRICS), /HELP"

  const Initial: Term := Term(Line(""), [HistoryEntry(Booted, Banner)], -1)

  function StatusText(upsideDown: bool): string
  {
    "MODE: " + (if upsideDown then "UPSIDE DOWN" else "NORMAL") + " | STATUS: OPERATIONAL"
  }

  /** `cmd.trim().toUpperCase()`. */
  function Normalise(cmd: string): (r: string)
    ensures r == [] <==> forall i :: 0 <= i < |cmd| ==> Text.IsSpace(cmd[i])
    ensures forall i :: 0 <= i < |r| ==> !Text.IsLowerLetter(r[i])
  {
    Text.Upper(Text.Trim(cmd))
  }

  /** The output line of a command other than CLEAR. */
  function Output(command: string, upsideDown: bool, handler: Handler): (r: string)
    ensures command == "HELP" ==> r == HelpText
    ensures command == "STATUS" ==> r == StatusText(upsideDown)
    ensures command != "HELP" && command != "STATUS" && handler.NoHandler? ==> r == "UNKNOWN COMMAND: " + command
    ensures command != "HELP" && command != "STATUS" && handler.Handler? && handler.respond(command).Some? ==>
      r == handler.respond(command).value
    ensures command != "HELP" && command != "STATUS" && handler.Handler? && handler.respond(command).None? ==>
      r == "COMMAND EXECUTED: " + command
  {
    if command == "HELP" then HelpText
    else if command == "STATUS" then StatusText(upsideDown)
    else match handler
      case Handler(respond) =>
        (match respond(command) case Some(response) => response case None => "COMMAND EXECUTED: " + command)
      case NoHandler => "UNKNOWN COMMAND: " + command
  }

  function NotBoot(): HistoryEntry -> bool { (h: HistoryEntry) => h.command != Booted }

  /** The commands ArrowUp and ArrowDown recall: the history without the start-up entry. */
  function Commands(history: seq<HistoryEntry>): (r: seq<string>)
    ensures |r| <= |history|
  {
    var kept := Filter(history, NotBoot());
    seq(|kept|, i requires 0 <= i < |kept| => kept[i].command)
  }

  /** `commands[i]`, which is `undefined` outside the array (negative `i` included). */
  function At(commands: seq<string>, i: int): (r: Input)
    ensures r.Line? <==> 0 <= i < |commands|
    ensures 0 <= i < |commands| ==> r == Line(commands[i])
  {
    if 0 <= i < |commands| then Line(commands[i]) else Undefined
  }

  // ------------------------------------------------------------ the steps

  /** `executeCommand(cmd)`: the history is emptied (CLEAR) or keeps every entry it had as a
      prefix, with at most one more. */
  function Execute(t: Term, cmd: string, upsideDown: bool, handler: Handler): (r: Term)
    ensures r.history == [] || (t.history <= r.history && |r.history| <= |t.history| + 1)
  {
    var command := Normalise(cmd);
    if command == [] then t
    else if command == "CLEAR" then t.(history := [], input := Line(""))
    else Term(Line(""), t.history + [HistoryEntry(command, Output(command, upsideDown, handler))], -1)
  }

  /** `handleKeyDown`: the new state, and whether the handler threw (Enter on an undefined
      input line), in which case nothing changes. */
  function KeyDown(t: Term, key: Key, upsideDown: bool, handler: Handler): (r: (Term, bool))
    ensures r.1 <==> key == Enter && t.input == Undefined
    ensures r.1 ==> r.0 == t
    ensures key != Enter ==> r.0.history == t.history
  {
    match key
    case Enter =>
      (match t.input
       case Line(cmd) => (Execute(t, cmd, upsideDown, handler), false)
       case Undefined => (t, true))
    case ArrowUp =>
      var commands := Commands(t.history);
      if |commands| > 0 then
        var newIndex := if t.historyIndex < |commands| - 1 then t.historyIndex + 1 else t.historyIndex;
        (t.(historyIndex := newIndex, input := At(commands, |commands| - 1 - newIndex)), false)
      else (t, false)
    case ArrowDown =>
      if t.historyIndex > 0 then
        var commands := Commands(t.history);
        var newIndex := t.historyIndex - 1;
        (t.(historyIndex := newIndex, input := At(commands, |commands| - 1 - newIndex)), false)
      else (t.(historyIndex := -1, input := Line("")), false)
    case OtherKey => (t, false)
  }

  /** Typing into the input line (`onChange`). */
  function Typed(t: Term, text: string): Term
  {
    t.(input := Line(text))
  }

  // ------------------------------------------------------------ properties

  /** A command that is blank after trimming changes nothing. */
  lemma BlankCommandIgnored(t: Term, cmd: string, upsideDown: bool, handler: Handler)
    requires forall i :: 0 <= i < |cmd| ==> Text.IsSpace(cmd[i])
    ensures Execute(t, cmd, upsideDown, handler) == t
  {
  }

  /** CLEAR empties history and input line but leaves the cursor where it was. */
  lemma ClearKeepsIndex(t: Term, cmd: string, upsideDown: bool, handler: Handler)
    requires Normalise(cmd) == "CLEAR"
    ensures Execute(t, cmd, upsideDown, handler) == Term(Line(""), [], t.historyIndex)
  {
  }

  /** Any other non-blank command adds exactly one entry, with the normalised command and its
      output, clears the input line and parks the cursor. */
  lemma CommandAppendsOne(t: Term, cmd: string, upsideDown: bool, handler: Handler)
    requires Normalise(cmd) != [] && Normalise(cmd) != "CLEAR"
    ensures var t' := Execute(t, cmd, upsideDown, handler);
      && t'.history[..|t.history|] == t.history
      && |t'.history| == |t.history| + 1
      && t'.history[|t.history|] == HistoryEntry(Normalise(cmd), Output(Normalise(cmd), upsideDown, handler))
      && t'.input == Line("") && t'.historyIndex == -1
  {
    var t' := Execute(t, cmd, upsideDown, handler);
    assert t'.history[..|t.history|] == t.history;
  }

  /** Commands differing only in case and surrounding white space do the same. */
  lemma NormaliseIgnoresCase(cmd: string)
    ensures Normalise(Text.Lower(cmd)) == Normalise(cmd)
  {
    Text.UpperOfLower(cmd);
    TrimLower(cmd);
  }

  /** Trimming and lower-casing commute, since no letter is white space. */
  lemma TrimLower(s: string)
    ensures Text.Upper(Text.Trim(Text.Lower(s))) == Text.Upper(Text.Trim(s))
  {
    TrimStartLower(s);
    var a := Text.TrimStart(s);
    TrimEndLower(a);
    Text.UpperOfLower(Text.TrimEnd(a));
  }

  lemma {:induction false} TrimStartLower(s: string)
    ensures Text.TrimStart(Text.Lower(s)) == Text.Lower(Text.TrimStart(s))
  {
    if s != [] {
      var l := Text.Lower(s);
      assert l[1..] == Text.Lower(s[1..]);
      assert l[0] == Text.LowerChar(s[0]);
      SpaceUnchanged(s[0]);
      if Text.IsSpace(s[0]) {
        TrimStartLower(s[1..]);
      }
    }
  }

  lemma {:induction false} TrimEndLower(s: string)
    ensures Text.TrimEnd(Text.Lower(s)) == Text.Lower(Text.TrimEnd(s))
  {
    if s != [] {
      var l := Text.Lower(s);
      assert l[..|s| - 1] == Text.Lower(s[..|s| - 1]);
      assert l[|s| - 1] == Text.LowerChar(s[|s| - 1]);
      SpaceUnchanged(s[|s| - 1]);
      if Text.IsSpace(s[|s| - 1]) {
        TrimEndLower(s[..|s| - 1]);
      }
    }
  }

  /** No letter is white space, so case mapping keeps white space and non-space apart. */
  lemma SpaceUnchanged(c: char)
    ensures Text.IsSpace(Text.LowerChar(c)) == Text.IsSpace(c)
  {
  }

  /** The cursor lies in [-1, number of recallable commands - 1]. */
  predicate CursorInRange(t: Term)
  {
    t.historyIndex == -1 || 0 <= t.historyIndex < |Commands(t.history)|
  }

  lemma CommandsAppend(history: seq<HistoryEntry>, entry: HistoryEntry)
    ensures Commands(history + [entry]) == Commands(history) + (if entry.command != Booted then [entry.command] else [])
  {
    FilterSnoc(history, entry, NotBoot());
  }

  /** Every key and every edit, except a CLEAR, keeps the cursor in range; and from a state
      with the cursor in range the arrows always recall a real command. */
  lemma KeyDownKeepsCursor(t: Term, key: Key, upsideDown: bool, handler: Handler)
    requires CursorInRange(t)
    requires key == Enter && t.input.Line? ==> Normalise(t.input.text) != "CLEAR"
    ensures CursorInRange(KeyDown(t, key, upsideDown, handler).0)
    ensures key != Enter ==> KeyDown(t, key, upsideDown, handler).0.input.Line? || t.input == Undefined
  {
    if key == Enter && t.input.Line? {
      var command := Normalise(t.input.text);
      if command != [] {
        CommandsAppend(t.history, HistoryEntry(command, Output(command, upsideDown, handler)));
      }
    }
  }

  /** ArrowUp on a non-empty recall list moves the cursor one step back in time, stopping at
      the oldest command, and puts the command it now points at in the input line, counting
      from the most recent: from a parked cursor (-1) that is the last command entered. */
  lemma ArrowUpRecalls(t: Term, upsideDown: bool, handler: Handler)
    requires CursorInRange(t) && Commands(t.history) != []
    ensures var c := Commands(t.history);
      var t' := KeyDown(t, ArrowUp, upsideDown, handler).0;
      && t'.historyIndex == (if t.historyIndex + 1 < |c| then t.historyIndex + 1 else |c| - 1)
      && t'.input == Line(c[|c| - 1 - t'.historyIndex])
      && t'.history == t.history
    ensures t.historyIndex == -1 ==>
      KeyDown(t, ArrowUp, upsideDown, handler).0.input == Line(Last(Commands(t.history), 1)[0])
  {
  }

  /** ArrowDown moves the cursor one step towards the present and recalls that command; from
      the most recent command (0) or a parked cursor it parks the cursor and empties the line. */
  lemma ArrowDownRecalls(t: Term, upsideDown: bool, handler: Handler)
    requires CursorInRange(t)
    ensures var c := Commands(t.history);
      var t' := KeyDown(t, ArrowDown, upsideDown, handler).0;
      && t'.history == t.history
      && (t.historyIndex > 0 ==>
            t'.historyIndex == t.historyIndex - 1 && t'.input == Line(c[|c| - t.historyIndex]))
      && (t.historyIndex <= 0 ==> t'.historyIndex == -1 && t'.input == Line(""))
  {
  }

  /** CLEAR leaves a stale cursor: after recalling two commands and clearing, ArrowDown reads
      the recall list at a negative position, the input line becomes `undefined`, and the
      next Enter throws. */
  lemma StaleCursorAfterClear(t: Term, upsideDown: bool, handler: Handler)
    requires |Commands(t.history)| >= 2 && t.historyIndex == -1
    ensures var t1 := KeyDown(t, ArrowUp, upsideDown, handler).0;
      var t2 := KeyDown(t1, ArrowUp, upsideDown, handler).0;
      var t3 := KeyDown(Typed(t2, "clear"), Enter, upsideDown, handler);
      var t4 := KeyDown(t3.0, ArrowDown, upsideDown, handler);
      && t2.historyIndex == 1
      && t3.0 == Term(Line(""), [], 1) && !t3.1
      && t4.0.input == Undefined
      && KeyDown(t4.0, Enter, upsideDown, handler).1
  {
    var t1 := KeyDown(t, ArrowUp, upsideDown, handler).0;
    assert t1.historyIndex == 0 && t1.history == t.history;
    var t2 := KeyDown(t1, ArrowUp, upsideDown, handler).0;
    assert t2.historyIndex == 1;
    ClearNormalises();
    var t3 := KeyDown(Typed(t2, "clear"), Enter, upsideDown, handler);
    assert t3.0 == Term(Line(""), [], 1);
    assert Commands([]) == [];
  }

  lemma ClearNormalises()
    ensures Normalise("clear") == "CLEAR"
  {
    TrimClear();
    UpperClear();
  }

  lemma TrimClear()
    ensures Text.Trim("clear") == "clear"
  {
    var s := "clear";
    assert !Text.IsSpace(s[0]) && !Text.IsSpace(s[|s| - 1]);
    Text.TrimFixed(s);
  }

  lemma UpperClear()
    ensures Text.Upper("clear") == "CLEAR"
  {
    assert Text.UpperChar('c') == 'C' && Text.UpperChar('l') == 'L' && Text.UpperChar('e') == 'E';
    assert Text.UpperChar('a') == 'A' && Text.UpperChar('r') == 'R';
  }

  // ------------------------------------------------------------ the component

  class Console {
    var input: Input
    var history: seq<HistoryEntry>
    var historyIndex: int

    function View(): Term
      reads this
    {
      Term(input, history, historyIndex)
    }

    constructor ()
      ensures View() == Initial
    {
      input := Line("");
      history := [HistoryEntry(Booted, Banner)];
      historyIndex := -1;
    }

    /** `onChange` of the input line. */
    method Type(text: string)
      modifies this
      ensures View() == Typed(old(View()), text)
    {
      input := Line(text);
    }

    /** `executeCommand`. */
    method ExecuteCommand(cmd: string, upsideDown: bool, handler: Handler)
      modifies this
      ensures View() == Execute(old(View()), cmd, upsideDown, handler)
    {
      var trimmed := Normalise(cmd);
      if trimmed == [] {
        return;
      }
      if trimmed == "CLEAR" {
        history := [];
        input := Line("");
        return;
      }
      var output := Output(trimmed, upsideDown, handler);
      history := history + [HistoryEntry(trimmed, output)];
      input := Line("");
      historyIndex := -1;
    }

    /** `handleKeyDown`; `threw` when Enter finds an undefined input line. */
    method HandleKeyDown(key: Key, upsideDown: bool, handler: Handler) returns (threw: bool)
      modifies this
      ensures (View(), threw) == KeyDown(old(View()), key, upsideDown, handler)
    {
      threw := false;
      if key == Enter {
        if input.Undefined? {
          threw := true;
          return;
        }
        ExecuteCommand(input.text, upsideDown, handler);
      } else if key == ArrowUp {
        var commands := Commands(history);
        if |commands| > 0 {
          var newIndex := if historyIndex < |commands| - 1 then historyIndex + 1 else historyIndex;
          historyIndex := newIndex;
          input := At(commands, |commands| - 1 - newIndex);
        }
      } else if key == ArrowDown {
        if historyIndex > 0 {
          var commands := Commands(history);
          var newIndex := historyIndex - 1;
          historyIndex := newIndex;
          input := At(commands, |commands| - 1 - newIndex);
        } else {
          historyIndex := -1;
          input := Line("");
        }
      }
    }
  }
}
