/** The state of the simulated terminal page and its event handlers: a draft line, a
    most-recent-first history of submitted commands with a recall cursor, and a
    transcript of numbered entries. Each handler is a function from the old state to
    the new one; the page class updates its fields the way the handler says. */
module TerminalState {
  import opened Js
  import Lists
  import opened Terminal

  /** The page's four pieces of state: `input`, `commandHistory`, `historyIndex` and
      `results`. */
  datatype Session = Session(input: string, history: seq<string>, historyIndex: int, results: seq<Entry>)

  /** Every entry's id is its position in the transcript. */
  predicate Numbered(results: seq<Entry>) {
    forall i :: 0 <= i < |results| ==> results[i].id == i
  }

  /** What every reachable state satisfies: ids are positions, the transcript is never
      empty, the cursor is -1 (the draft) or an index into the history, and no blank
      command is ever remembered. */
  predicate Consistent(s: Session) {
    && Numbered(s.results) && |s.results| >= 1
    && -1 <= s.historyIndex < |s.history|
    && forall k :: 0 <= k < |s.history| ==> NonBlank(s.history[k])
  }

  /** The state on first render: empty draft and history, cursor -1, the welcome
      entry. */
  function Initial(): (s: Session)
    ensures Consistent(s)
  {
    Session("", [], -1, [Entry(0, "", Welcome)])
  }

  /** The history after an entry with this command is added: the command goes to the
      front exactly when it is not blank. */
  function Remember(history: seq<string>, command: string): seq<string> {
    if NonBlank(command) then [command] + history else history
  }

  /** `addResult` for `Append`, `clearTerminal` for `Reset`. */
  function Apply(s: Session, a: Action): Session {
    match a
    case Append(command, output) =>
      s.(history := Remember(s.history, command), results := s.results + [Entry(|s.results|, command, output)])
    case Reset => s.(results := [Entry(0, "", Cleared)])
  }

  /** Appending or resetting keeps every id equal to its position, keeps the
      transcript non-empty, keeps the cursor in range and keeps blank commands out of
      the history. */
  lemma ApplyKeepsConsistent(s: Session, a: Action)
    requires Consistent(s)
    ensures Consistent(Apply(s, a))
  {
    match a
    case Append(command, output) =>
      var r := s.results + [Entry(|s.results|, command, output)];
      forall i | 0 <= i < |r| ensures r[i].id == i {
        if i < |s.results| {
          assert r[i] == s.results[i];
        }
      }
      if NonBlank(command) {
        var h := [command] + s.history;
        forall k | 0 <= k < |h| ensures NonBlank(h[k]) {
          if k > 0 {
            assert h[k] == s.history[k - 1];
          }
        }
      }
    case Reset =>
  }

  /** `executeCommand(cmd)`. */
  function Execute(s: Session, cmd: string): Session {
    Apply(s, Dispatch(cmd))
  }

  datatype Direction = Up | Down

  /** `navigateHistory(dir)` as a function of `(history, cursor, draft)`, giving the new
      `(cursor, draft)`. Reading `commandHistory[i] || ""` is reading
      `commandHistory[i]`, since an empty string is the only falsy string. */
  function Navigate(history: seq<string>, cursor: int, draft: string, dir: Direction): (r: (int, string))
    requires -1 <= cursor < |history|
    ensures -1 <= r.0 < |history|
    ensures history == [] ==> r == (cursor, draft)
    ensures r.0 >= 0 ==> r.1 == history[r.0]
    ensures history != [] && r.0 == -1 ==> r.1 == ""
  {
    if history == [] then (cursor, draft)
    else if dir == Up then
      var i := if cursor < |history| - 1 then cursor + 1 else cursor;
      (i, history[i])
    else
      var i := if cursor > 0 then cursor - 1 else -1;
      (i, if i == -1 then "" else history[i])
  }

  /** Down undoes Up, except at the oldest entry, where Up stays put. */
  lemma DownAfterUp(history: seq<string>, cursor: int, draft: string)
    requires -1 <= cursor < |history| - 1
    ensures var (i, d) := Navigate(history, cursor, draft, Up);
      Navigate(history, i, d, Down) == (cursor, if cursor == -1 then "" else history[cursor])
  {
  }

  /** Up undoes Down from any entry (from the newest it comes back through -1). */
  lemma UpAfterDown(history: seq<string>, cursor: int, draft: string)
    requires 0 <= cursor < |history|
    ensures var (i, d) := Navigate(history, cursor, draft, Down);
      Navigate(history, i, d, Up) == (cursor, history[cursor])
  {
  }

  /** The cursor and draft after pressing Up `k` times. */
  function UpTimes(history: seq<string>, cursor: int, draft: string, k: nat): (r: (int, string))
    requires -1 <= cursor < |history|
    ensures -1 <= r.0 < |history|
    decreases k
  {
    if k == 0 then (cursor, draft)
    else
      var (i, d) := Navigate(history, cursor, draft, Up);
      UpTimes(history, i, d, k - 1)
  }

  /** `k` presses of Up move the cursor `k` entries back and then keep it pinned at
      the oldest command: there is no wrap-around. */
  lemma {:induction false} UpRepeated(history: seq<string>, cursor: int, draft: string, k: nat)
    requires history != [] && -1 <= cursor < |history|
    ensures UpTimes(history, cursor, draft, k).0 == Lists.Min(cursor + k, |history| - 1)
    ensures k > 0 ==> UpTimes(history, cursor, draft, k).1 == history[Lists.Min(cursor + k, |history| - 1)]
    decreases k
  {
    if k > 0 {
      var (i, d) := Navigate(history, cursor, draft, Up);
      UpRepeated(history, i, d, k - 1);
    }
  }

  /** `navigateHistory(dir)` on the whole state. */
  function NavigateIn(s: Session, dir: Direction): Session
    requires -1 <= s.historyIndex < |s.history|
  {
    var (i, d) := Navigate(s.history, s.historyIndex, s.input, dir);
    s.(historyIndex := i, input := d)
  }

  /** `autocompleteCommand` with the candidate list `commands`: with a non-empty
      draft, one match replaces the draft and several matches are listed in an entry
      recorded under the draft as typed. */
  function AutocompleteWith(s: Session, commands: seq<string>): Session {
    if s.input == [] then s
    else
      var m := MatchesIn(commands, s.input);
      if |m| == 1 then s.(input := m[0])
      else if |m| > 1 then Apply(s, Append(s.input, Completions(m)))
      else s
  }

  /** `autocompleteCommand` with its own list of names. */
  function Autocomplete(s: Session): Session {
    AutocompleteWith(s, CommandNames())
  }

  /** A key the input reacts to; every other key only changes the draft through the
      input's change handler. */
  datatype Key = Enter | ArrowUp | ArrowDown | Tab | OtherKey

  /** `handleKeyDown`: Enter on a non-blank draft runs it and resets the draft and the
      cursor; Enter on a blank draft does nothing; the arrows navigate; Tab completes. */
  function KeyDown(s: Session, key: Key): (r: Session)
    requires -1 <= s.historyIndex < |s.history|
    ensures -1 <= r.historyIndex < |r.history|
  {
    if key == Enter && NonBlank(s.input) then Execute(s, s.input).(input := "", historyIndex := -1)
    else if key == ArrowUp then NavigateIn(s, Up)
    else if key == ArrowDown then NavigateIn(s, Down)
    else if key == Tab then Autocomplete(s)
    else s
  }

  /** Typing a line into the input and pressing Enter. */
  function Submit(s: Session, line: string): (r: Session)
    requires -1 <= s.historyIndex < |s.history|
    ensures -1 <= r.historyIndex < |r.history|
  {
    KeyDown(s.(input := line), Enter)
  }

  /** Every key keeps the state consistent. */
  lemma KeyDownKeepsConsistent(s: Session, key: Key)
    requires Consistent(s)
    ensures Consistent(KeyDown(s, key))
  {
    if key == Enter && NonBlank(s.input) {
      ApplyKeepsConsistent(s, Dispatch(s.input));
    } else if key == Tab && s.input != [] && |Matches(s.input)| > 1 {
      ApplyKeepsConsistent(s, Append(s.input, Completions(Matches(s.input))));
    }
  }

  /** Enter on a blank draft changes nothing, whatever the draft's whitespace. */
  lemma BlankEnterIgnored(s: Session)
    requires -1 <= s.historyIndex < |s.history| && !NonBlank(s.input)
    ensures KeyDown(s, Enter) == s
  {
    assert Enter != ArrowUp && Enter != ArrowDown && Enter != Tab;
  }

  /** Submitting a non-blank line clears the draft and the cursor and adds exactly one
      transcript entry and one history entry, except `clear`, which leaves the single
      "cleared" entry and the history as it was. */
  lemma SubmitAddsOneEntry(s: Session, line: string)
    requires -1 <= s.historyIndex < |s.history| && NonBlank(line)
    ensures var t := Submit(s, line);
      && t.input == "" && t.historyIndex == -1
      && if Dispatch(line).Reset? then t.history == s.history && t.results == [Entry(0, "", Cleared)]
        else
          && |t.results| == |s.results| + 1 && t.history == [Dispatch(line).command] + s.history
          && t.results[|s.results|] == Entry(|s.results|, Dispatch(line).command, Dispatch(line).output)
  {
    DispatchRecordsNonBlank(line);
  }

  /** Up right after submitting recalls the command as recorded, that is the
      normalised line (or `project <id>`), not the line as typed. */
  lemma RecallAfterSubmit(s: Session, line: string)
    requires -1 <= s.historyIndex < |s.history| && NonBlank(line) && Dispatch(line).Append?
    ensures KeyDown(Submit(s, line), ArrowUp).input == Dispatch(line).command
  {
    SubmitAddsOneEntry(s, line);
  }

  /** `clear` empties the transcript down to the "cleared" entry but is not
      remembered and forgets nothing from the history. */
  lemma SubmitClear(s: Session)
    requires -1 <= s.historyIndex < |s.history|
    ensures Submit(s, "clear") == s.(input := "", historyIndex := -1, results := [Entry(0, "", Cleared)])
  {
    DispatchClear();
    NonBlankAt("clear", 0);
  }

  /** Tab with exactly one candidate replaces the draft by the only name that starts
      with the lower-cased draft, and changes nothing else. */
  lemma AutocompleteUnique(s: Session, commands: seq<string>)
    requires s.input != [] && |MatchesIn(commands, s.input)| == 1
    ensures var t := AutocompleteWith(s, commands);
      && t == s.(input := t.input)
      && forall name :: name in commands && StartsWith(name, Lower(s.input)) <==> name == t.input
  {
    MatchesSpec(commands, s.input);
    var m := MatchesIn(commands, s.input);
    assert m[0] in m;
    assert forall name :: name in m ==> name == m[0];
  }

  /** Tab with two or more candidates keeps the draft and lists every candidate, in
      list order, in a new entry recorded under the draft as typed. */
  lemma AutocompleteAmbiguous(s: Session, commands: seq<string>, a: string, b: string)
    requires s.input != [] && a != b
    requires a in commands && StartsWith(a, Lower(s.input))
    requires b in commands && StartsWith(b, Lower(s.input))
    ensures var t := AutocompleteWith(s, commands);
      && t.input == s.input && t.historyIndex == s.historyIndex
      && t.results == s.results + [Entry(|s.results|, s.input, Completions(MatchesIn(commands, s.input)))]
      && t.history == Remember(s.history, s.input)
      && a in MatchesIn(commands, s.input) && b in MatchesIn(commands, s.input)
      && Lists.IsSubsequence(MatchesIn(commands, s.input), commands)
  {
    MatchesSpec(commands, s.input);
    var m := MatchesIn(commands, s.input);
    var i :| 0 <= i < |m| && m[i] == a;
    var j :| 0 <= j < |m| && m[j] == b;
    assert i != j;
  }

  /** With the page's own names, an ambiguous draft starts with a letter, so it is not
      blank and Tab puts it at the front of the history. */
  lemma AutocompleteAmbiguousRemembers(s: Session, a: string, b: string)
    requires s.input != [] && a != b
    requires a in CommandNames() && StartsWith(a, Lower(s.input))
    requires b in CommandNames() && StartsWith(b, Lower(s.input))
    ensures Autocomplete(s).history == [s.input] + s.history
    ensures Autocomplete(s).input == s.input
  {
    AutocompleteAmbiguous(s, CommandNames(), a, b);
    CommandNamesAreWords(a);
    PrefixOfWordNotBlank(s.input, a);
  }

  /** A non-empty draft whose lower-cased form begins a lower-case word begins with a
      letter, so it is not blank. */
  lemma PrefixOfWordNotBlank(draft: string, word: string)
    requires draft != [] && StartsWith(word, Lower(draft))
    requires forall j :: 0 <= j < |word| ==> 'a' <= word[j] <= 'z'
    ensures NonBlank(draft)
  {
    LowerAt(draft, 0);
    assert Lower(draft)[0] == word[0];
    NonBlankAt(draft, 0);
  }

  /** Tab with no candidate, or on an empty draft, does nothing. */
  lemma AutocompleteNoCandidate(s: Session, commands: seq<string>)
    requires s.input == [] || forall name :: name in commands ==> !StartsWith(name, Lower(s.input))
    ensures AutocompleteWith(s, commands) == s
  {
    if s.input != [] {
      var p := (name: string) => StartsWith(name, Lower(s.input));
      assert forall i :: 0 <= i < |commands| ==> commands[i] in commands && !p(commands[i]);
      Lists.FilterNone(commands, p);
    }
  }

  /** The page: its state lives in four fields that the handlers reassign. */
  class TerminalPage {
    var input: string
    var history: seq<string>
    var historyIndex: int
    var results: seq<Entry>

    function Snapshot(): Session
      reads this
    {
      Session(input, history, historyIndex, results)
    }

    ghost predicate Valid()
      reads this
    {
      Consistent(Snapshot())
    }

    constructor ()
      ensures Valid() && Snapshot() == Initial()
    {
      input := "";
      history := [];
      historyIndex := -1;
      results := [Entry(0, "", Welcome)];
    }

    /** `handleInputChange`: typing replaces the draft. */
    method HandleInputChange(value: string)
      requires Valid()
      modifies this
      ensures Valid() && Snapshot() == old(Snapshot()).(input := value)
    {
      input := value;
    }

    /** `addResult`: remember a non-blank command at the front of the history and
        append an entry whose id is the current transcript length. */
    method AddResult(command: string, output: Output)
      requires Valid()
      modifies this
      ensures Valid() && Snapshot() == Apply(old(Snapshot()), Append(command, output))
    {
      ApplyKeepsConsistent(Snapshot(), Append(command, output));
      if NonBlank(command) {
        history := [command] + history;
      }
      results := results + [Entry(|results|, command, output)];
    }

    /** `clearTerminal`: the transcript becomes the single "cleared" entry. */
    method ClearTerminal()
      requires Valid()
      modifies this
      ensures Valid() && Snapshot() == Apply(old(Snapshot()), Reset)
    {
      results := [Entry(0, "", Cleared)];
    }

    /** `executeCommand(cmd)`. */
    method ExecuteCommand(cmd: string)
      requires Valid()
      modifies this
      ensures Valid() && Snapshot() == Execute(old(Snapshot()), cmd)
    {
      match Dispatch(cmd)
      case Append(command, output) => AddResult(command, output);
      case Reset => ClearTerminal();
    }

    /** The header's "Comandos" button runs `help` without touching the draft or the
        cursor. */
    method ClickHelpButton()
      requires Valid()
      modifies this
      ensures Valid() && Snapshot() == Apply(old(Snapshot()), Append("help", Help))
    {
      DispatchHelp();
      NonBlankAt("help", 0);
      ExecuteCommand("help");
    }

    /** `navigateHistory(dir)`. */
    method NavigateHistory(dir: Direction)
      requires Valid()
      modifies this
      ensures Valid() && Snapshot() == NavigateIn(old(Snapshot()), dir)
    {
      if |history| == 0 {
        return;
      }
      if dir == Up {
        var newIndex := if historyIndex < |history| - 1 then historyIndex + 1 else historyIndex;
        historyIndex := newIndex;
        input := history[newIndex];
      } else {
        var newIndex := if historyIndex > 0 then historyIndex - 1 else -1;
        historyIndex := newIndex;
        input := if newIndex == -1 then "" else history[newIndex];
      }
    }

    /** `autocompleteCommand`. */
    method AutocompleteCommand()
      requires Valid()
      modifies this
      ensures Valid() && Snapshot() == Autocomplete(old(Snapshot()))
    {
      if input != "" {
        var matching := Matches(input);
        if |matching| == 1 {
          input := matching[0];
        } else if |matching| > 1 {
          AddResult(input, Completions(matching));
        }
      }
    }

    /** `handleKeyDown(key)`. */
    method HandleKeyDown(key: Key)
      requires Valid()
      modifies this
      ensures Valid() && Snapshot() == KeyDown(old(Snapshot()), key)
    {
      if key == Enter && NonBlank(input) {
        ExecuteCommand(input);
        input := "";
        historyIndex := -1;
      } else if key == ArrowUp {
        NavigateHistory(Up);
      } else if key == ArrowDown {
        NavigateHistory(Down);
      } else if key == Tab {
        AutocompleteCommand();
      }
    }
  }
}
