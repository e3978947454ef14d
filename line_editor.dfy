/**
 * The interactive line editor of the shell's main loop: one key at a time
 * it edits the command line around a cursor, browses the command history
 * with the up and down arrows, expands `!N` to the N-th history entry on
 * Enter, records each submitted line in the history, and quits on Ctrl-C
 * or on any key once the line reads `exit`.
 *
 * `Handle` is the reference transition; the `Editor` class keeps the same
 * state in fields and `HandleKey` is proved to change them as `Handle`
 * says.  Terminal output, the history file and running the parsed commands
 * are not modelled: the outcome of a key names what the loop would do next.
 */
module LineEditor {
  import opened Wrappers
  import opened Text
  import opened ShellParse
  import opened ShellHistory

  /**
   * A key as the loop reads it: one character, or an escape sequence whose
   * last character gives the arrow direction (`A` up, `B` down, `C` right,
   * `D` left).
   */
  datatype Key = Press(c: char) | Arrow(direction: char)

  const CtrlC: char := '\U{03}'
  const Backspace: char := '\U{7f}'
  const Escape: char := '\U{1b}'
  const Enter: char := '\r'

  /**
   * What the loop does after a key: redraw the prompt, do nothing visible,
   * save the history and quit, report a failed `!N`, or record and run a
   * line (after echoing it when it was recalled with `!N`).
   */
  datatype Outcome = Redraw | Quiet | Quit | NotFound(message: string)
                   | Run(line: string, recalled: bool, commands: seq<Command>)

  /** The loop's variables: `cmd`, `cursor_pos`, `history_index` and `cmd_history`. */
  datatype EditorState = EditorState(cmd: string, cursor: nat, index: nat, history: seq<string>)

  /** The cursor stays within the line and the browsing index within the history. */
  predicate Good(s: EditorState)
  {
    s.cursor <= |s.cmd| && s.index <= |s.history|
  }

  /** The state before the first key: an empty line, the browsing index just past the newest entry. */
  function Start(history: seq<string>): (s: EditorState)
    ensures Good(s)
  {
    EditorState("", 0, |history|, history)
  }

  /** The effect of one key. */
  function Handle(s: EditorState, k: Key): (r: (EditorState, Outcome))
    requires Good(s)
    ensures Good(r.0)
    ensures s.history <= r.0.history && |r.0.history| <= |s.history| + 1
    ensures |r.0.history| == |s.history| + 1 <==> r.1.Run?
    ensures r.1.Run? ==> r.0 == Start(s.history + [r.1.line]) && r.1.commands == ParseSpec(r.1.line)
  {
    if k == Press(CtrlC) || Strip(s.cmd) == "exit" then (s, Quit)
    else
      match k
      case Press(c) =>
        if c == Backspace then
          if s.cursor > 0 then (s.(cmd := s.cmd[..s.cursor - 1] + s.cmd[s.cursor..], cursor := s.cursor - 1), Redraw)
          else (s, Redraw)
        else if c == Escape then (s, Quiet)
        else if c == Enter then Submit(s)
        else (s.(cmd := s.cmd[..s.cursor] + [c] + s.cmd[s.cursor..], cursor := s.cursor + 1), Redraw)
      case Arrow(d) => Move(s, d)
  }

  /** The arrow keys. */
  function Move(s: EditorState, d: char): (r: (EditorState, Outcome))
    requires Good(s)
    ensures Good(r.0) && r.0.history == s.history && (r.1 == Redraw || r.1 == Quiet)
  {
    if d == 'A' then
      if s.history != [] && s.index > 0 then
        var line := s.history[s.index - 1];
        (s.(index := s.index - 1, cmd := line, cursor := |line|), Redraw)
      else (s, Quiet)
    else if d == 'B' then
      if s.history != [] && s.index < |s.history| - 1 then
        var line := s.history[s.index + 1];
        (s.(index := s.index + 1, cmd := line, cursor := |line|), Redraw)
      else (s.(index := |s.history|, cmd := "", cursor := 0), Redraw)
    else if d == 'C' then (if s.cursor < |s.cmd| then s.(cursor := s.cursor + 1) else s, Redraw)
    else if d == 'D' then (if s.cursor > 0 then s.(cursor := s.cursor - 1) else s, Redraw)
    else (s, Quiet)
  }

  /** The line cleared, nothing else changed. */
  function Cleared(s: EditorState): EditorState
  {
    s.(cmd := "", cursor := 0)
  }

  /** Enter: ignore a blank line, expand `!N`, then record and run the line. */
  function Submit(s: EditorState): (r: (EditorState, Outcome))
    requires Good(s)
    ensures Good(r.0) && r.1 != Quiet && r.1 != Quit
    ensures r.1.Run? ==> r.0 == Start(s.history + [r.1.line]) && r.1.commands == ParseSpec(r.1.line)
                         && (r.1.recalled ==> r.1.line in s.history)
                         && (!r.1.recalled ==> r.1.line == s.cmd)
    ensures !r.1.Run? ==> r.0 == Cleared(s)
  {
    if Strip(s.cmd) == [] then (Cleared(s), Redraw)
    else if s.cmd[0] == '!' then
      match PyInt(s.cmd[1..])
      case None => (Cleared(s), NotFound("bash: " + s.cmd + ": event not found"))
      case Some(num) =>
        if num <= 0 || num > |s.history| then
          (Cleared(s), NotFound("bash: !" + IntToString(num) + ": event not found"))
        else Record(s, s.history[num - 1], true)
    else Record(s, s.cmd, false)
  }

  /** A line appended to the history and run; the editor starts a fresh line. */
  function Record(s: EditorState, line: string, recalled: bool): (EditorState, Outcome)
  {
    (Start(s.history + [line]), Run(line, recalled, ParseSpec(line)))
  }

  // ---------------------------------------------------------------------
  // The loop's variables as an object

  class Editor {
    var cmd: string
    var cursor: nat
    var historyIndex: nat
    var history: seq<string>

    ghost predicate Valid()
      reads this
    {
      Good(State())
    }

    function State(): EditorState
      reads this
    {
      EditorState(cmd, cursor, historyIndex, history)
    }

    /** The loop's set-up, with the history loaded from the history file. */
    constructor(loaded: seq<string>)
      ensures Valid() && State() == Start(loaded)
    {
      history := loaded;
      historyIndex := |loaded|;
      cmd := "";
      cursor := 0;
    }

    /** One iteration of the main loop. */
    method HandleKey(k: Key) returns (out: Outcome)
      requires Valid()
      modifies this
      ensures Valid() && (State(), out) == Handle(old(State()), k)
    {
      if k == Press(CtrlC) || Strip(cmd) == "exit" {
        return Quit;
      }
      match k
      case Press(c) =>
        if c == Backspace {
          if cursor > 0 {
            cmd := cmd[..cursor - 1] + cmd[cursor..];
            cursor := cursor - 1;
          }
          out := Redraw;
        } else if c == Escape {
          out := Quiet;
        } else if c == Enter {
          out := SubmitLine();
        } else {
          cmd := cmd[..cursor] + [c] + cmd[cursor..];
          cursor := cursor + 1;
          out := Redraw;
        }
      case Arrow(d) =>
        if d == 'A' {
          if history != [] && historyIndex > 0 {
            historyIndex := historyIndex - 1;
            cmd := history[historyIndex];
            cursor := |cmd|;
            out := Redraw;
          } else {
            out := Quiet;
          }
        } else if d == 'B' {
          if history != [] && historyIndex < |history| - 1 {
            historyIndex := historyIndex + 1;
            cmd := history[historyIndex];
          } else {
            historyIndex := |history|;
            cmd := "";
          }
          cursor := |cmd|;
          out := Redraw;
        } else if d == 'C' {
          if cursor < |cmd| {
            cursor := cursor + 1;
          }
          out := Redraw;
        } else if d == 'D' {
          if cursor > 0 {
            cursor := cursor - 1;
          }
          out := Redraw;
        } else {
          out := Quiet;
        }
    }

    /** The Enter branch of the loop. */
    method SubmitLine() returns (out: Outcome)
      requires Valid()
      modifies this
      ensures Valid() && (State(), out) == Submit(old(State()))
    {
      ghost var s0 := State();
      if Strip(cmd) == [] {
        cmd, cursor := "", 0;
        return Redraw;
      }
      assert cmd != [];
      var recalled := false;
      if cmd[0] == '!' {
        match PyInt(cmd[1..])
        case None =>
          out := NotFound("bash: " + cmd + ": event not found");
          cmd, cursor := "", 0;
          return;
        case Some(num) =>
          if num <= 0 || num > |history| {
            out := NotFound("bash: !" + IntToString(num) + ": event not found");
            cmd, cursor := "", 0;
            return;
          }
          cmd := history[num - 1];
          recalled := true;
      }
      history := history + [cmd];
      historyIndex := |history|;
      var commands := ParseCmd(cmd);
      out := Run(cmd, recalled, commands);
      assert Submit(s0) == Record(s0, cmd, recalled);
      cmd, cursor := "", 0;
    }
  }

  // ---------------------------------------------------------------------
  // Properties of the transitions

  /** A line that reads `exit` quits on the next key, whatever it is; Ctrl-C quits at any time. */
  lemma ExitQuits(s: EditorState, k: Key)
    requires Good(s)
    requires Strip(s.cmd) == "exit" || k == Press(CtrlC)
    ensures Handle(s, k) == (s, Quit)
  {
  }

  /** A typed line that is run is never blank and never reads `exit`: such lines are not recorded. */
  lemma TypedRunLines(s: EditorState, k: Key)
    requires Good(s)
    ensures var r := Handle(s, k);
            r.1.Run? && !r.1.recalled ==> r.1.line == s.cmd && Strip(s.cmd) != [] && Strip(s.cmd) != "exit"
  {
  }

  /** The characters the loop inserts at the cursor: every one but the four control keys. */
  predicate Inserted(c: char)
  {
    c != CtrlC && c != Backspace && c != Escape && c != Enter
  }

  /**
   * An inserted key puts its character at the cursor and moves the
   * cursor past it; Backspace right after takes it out again.
   */
  lemma InsertThenBackspace(s: EditorState, c: char)
    requires Good(s) && Inserted(c) && Strip(s.cmd) != "exit"
    requires Strip(s.cmd[..s.cursor] + [c] + s.cmd[s.cursor..]) != "exit"
    ensures var t := Handle(s, Press(c)).0;
            |t.cmd| == |s.cmd| + 1 && t.cursor == s.cursor + 1 && t.cmd[s.cursor] == c
            && t.cmd[..s.cursor] == s.cmd[..s.cursor] && t.cmd[s.cursor + 1..] == s.cmd[s.cursor..]
            && Handle(t, Press(Backspace)) == (s, Redraw)
  {
    var t := Handle(s, Press(c)).0;
    assert t.cmd[..s.cursor] + t.cmd[s.cursor + 1..] == s.cmd;
  }

  /** Right then left returns to the same place; at either end of the line the cursor stays put. */
  lemma RightThenLeft(s: EditorState)
    requires Good(s) && Strip(s.cmd) != "exit"
    ensures s.cursor < |s.cmd| ==> Handle(Handle(s, Arrow('C')).0, Arrow('D')) == (s, Redraw)
    ensures s.cursor == |s.cmd| ==> Handle(s, Arrow('C')) == (s, Redraw)
    ensures s.cursor == 0 ==> Handle(s, Arrow('D')) == (s, Redraw)
  {
  }

  /**
   * Browsing from a fresh line: up shows the newest entry with the cursor
   * at its end, and down from there returns to the fresh line.
   */
  lemma UpThenDown(h: seq<string>)
    requires h != [] && Strip(h[|h| - 1]) != "exit"
    ensures var t := Handle(Start(h), Arrow('A'));
            t == (EditorState(h[|h| - 1], |h[|h| - 1]|, |h| - 1, h), Redraw)
            && Handle(t.0, Arrow('B')) == (Start(h), Redraw)
  {
    assert Strip("") == [];
  }

  /** Up from entry i shows entry i - 1; up at the oldest entry or with no history does nothing. */
  lemma UpBrowses(s: EditorState)
    requires Good(s) && Strip(s.cmd) != "exit"
    ensures s.index > 0 ==> Handle(s, Arrow('A')).0 == s.(index := s.index - 1, cmd := s.history[s.index - 1],
                                                             cursor := |s.history[s.index - 1]|)
    ensures s.index == 0 ==> Handle(s, Arrow('A')) == (s, Quiet)
  {
  }

  /** Down from the newest entry or past it clears the line and parks the index past the newest entry. */
  lemma DownPastNewest(s: EditorState)
    requires Good(s) && Strip(s.cmd) != "exit" && s.index + 1 >= |s.history|
    ensures Handle(s, Arrow('B')) == (Start(s.history).(history := s.history), Redraw)
  {
  }

  /** Down before the newest entry shows the next entry with the cursor at its end. */
  lemma DownAdvances(s: EditorState)
    requires Good(s) && Strip(s.cmd) != "exit" && s.index + 1 < |s.history|
    ensures Handle(s, Arrow('B')) == (s.(index := s.index + 1, cmd := s.history[s.index + 1],
                                         cursor := |s.history[s.index + 1]|), Redraw)
  {
  }

  /** Backspace after the first character removes the character before the cursor and moves the cursor back. */
  lemma BackspaceDeletes(s: EditorState)
    requires Good(s) && Strip(s.cmd) != "exit" && s.cursor > 0
    ensures var t := Handle(s, Press(Backspace));
            t == (s.(cmd := s.cmd[..s.cursor - 1] + s.cmd[s.cursor..], cursor := s.cursor - 1), Redraw)
            && |t.0.cmd| == |s.cmd| - 1
            && forall j :: 0 <= j < |t.0.cmd| ==> t.0.cmd[j] == (if j < s.cursor - 1 then s.cmd[j] else s.cmd[j + 1])
  {
  }

  /** Backspace at the start of the line changes nothing. */
  lemma BackspaceAtStart(s: EditorState)
    requires Good(s) && Strip(s.cmd) != "exit" && s.cursor == 0
    ensures Handle(s, Press(Backspace)) == (s, Redraw)
  {
  }

  /** Enter on a blank line clears it; the history is untouched. */
  lemma BlankEnter(s: EditorState)
    requires Good(s) && Strip(s.cmd) == []
    ensures Handle(s, Press(Enter)) == (Cleared(s), Redraw)
  {
    assert Strip(s.cmd) != "exit";
  }

  /** Enter on an ordinary line records it at the end of the history and runs its parsed commands. */
  lemma EnterRecords(s: EditorState)
    requires Good(s) && Strip(s.cmd) != [] && Strip(s.cmd) != "exit" && s.cmd[0] != '!'
    ensures Handle(s, Press(Enter)) == (Start(s.history + [s.cmd]), Run(s.cmd, false, ParseSpec(s.cmd)))
  {
  }

  /** `!` followed by a blank-free word is its own stripped form and never reads `exit`. */
  lemma BangLine(d: string)
    requires forall c :: c in d ==> !IsSpace(c)
    ensures var line := "!" + d;
            Strip(line) == line && line != [] && line != "exit" && line[0] == '!' && line[1..] == d
  {
    var line := "!" + d;
    assert forall c :: c in line ==> c == '!' || c in d;
    StripNoSpace(line);
    assert line[0] != "exit"[0];
  }

  lemma IntToStringNoSpace(i: int)
    ensures forall c :: c in IntToString(i) ==> !IsSpace(c)
  {
    var d := NatToString(if i < 0 then -i else i);
    assert AllDigits(d);
    assert forall c :: c in IntToString(i) ==> c == '-' || c in d;
  }

  /** `!k` with 1 <= k <= len(history) runs entry k, counting from 1, and records it again. */
  lemma BangRecalls(s: EditorState, k: nat)
    requires Good(s) && 1 <= k <= |s.history| && s.cmd == "!" + NatToString(k)
    ensures var line := s.history[k - 1];
            Handle(s, Press(Enter)) == (Start(s.history + [line]), Run(line, true, ParseSpec(line)))
  {
    IntToStringNoSpace(k);
    BangLine(NatToString(k));
    PyIntOfNat(k);
  }

  /** `!i` for an i outside 1..len(history) is reported as not found, and nothing is recorded. */
  lemma BangRejects(s: EditorState, i: int)
    requires Good(s) && (i <= 0 || i > |s.history|) && s.cmd == "!" + IntToString(i)
    ensures Handle(s, Press(Enter)) == (Cleared(s), NotFound("bash: !" + IntToString(i) + ": event not found"))
  {
    IntToStringNoSpace(i);
    BangLine(IntToString(i));
    PyIntOfInt(i);
  }

  /**
   * `!` expansion in the editor and `history_expansion` agree: a `!` line
   * runs a recalled entry exactly when `history_expansion`, given the rest
   * of the line as its index, succeeds, and both produce the same line and
   * the same parsed commands.
   */
  lemma BangAgreesWithExpansion(s: EditorState)
    requires Good(s) && Strip(s.cmd) != [] && Strip(s.cmd) != "exit" && s.cmd[0] == '!'
    ensures var r := Handle(s, Press(Enter)).1;
            var x := HistoryExpansion([s.cmd[1..]], s.history);
            r.Run? <==> x.execute.Some?
    ensures var r := Handle(s, Press(Enter)).1;
            var x := HistoryExpansion([s.cmd[1..]], s.history);
            r.Run? ==> Some(r.line) == x.output && Some(r.commands) == x.execute
  {
  }
}
