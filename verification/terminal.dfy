/** The terminal session controller: the lock flag, the command history (most recent
    first), the history cursor, the two input fields and the scrollback, and the step
    function that the page's key handlers (`handlePasswordInput`, `handleCommandInput`)
    implement. */
module Terminal {
  import opened Text
  import opened Settings
  import opened Display
  import opened Commands
  import opened Completion

  datatype Key = Enter | ArrowUp | ArrowDown | Escape | Tab | OtherKey

  /** What the page can receive. A key event reaches the handler of its field; an edit is
      the browser's own change of a field's text as the user types. `now` is what
      `new Date().toString()` renders while the event is handled. */
  datatype Event =
    | GateKey(key: Key)
    | GateEdit(text: string)
    | CommandKey(key: Key, now: string)
    | CommandEdit(text: string)

  /** `gate` and `input` are the texts of the password and command fields; `cursor` is
      `historyIndex`, with -1 meaning no entry selected. */
  datatype Session = Session(
    unlocked: bool,
    gate: string,
    history: seq<string>,
    cursor: int,
    input: string,
    output: seq<Line>)

  const Start: Session := Session(false, "", [], -1, "", [])

  /** The cursor is -1 or the index of a history entry. */
  predicate CursorInRange(s: Session) {
    -1 <= s.cursor < |s.history|
  }

  /** `older` is what is left of `newer` once its most recent entries are dropped. */
  predicate Extends(newer: seq<string>, older: seq<string>) {
    |older| <= |newer| && newer[|newer| - |older|..] == older
  }

  const Denied: Line := Line("Access Denied. Incorrect password.", Error)

  /** `handlePasswordInput`: Enter compares the field with the configured password. A
      match unlocks the session and prints the welcome; anything else, a missing password
      included, prints the refusal and empties the field. The lock is never set again. */
  function PasswordKey(cfg: Config, s: Session, key: Key): (r: Session)
    ensures r.unlocked <==> s.unlocked || (key == Enter && cfg.password == Some(s.gate))
    ensures r.history == s.history && r.cursor == s.cursor && r.input == s.input
    ensures key != Enter ==> r == s
    ensures key == Enter && cfg.password == Some(s.gate) ==> r.output == s.output + Welcome(cfg) && r.gate == s.gate
    ensures key == Enter && cfg.password != Some(s.gate) ==> r.output == s.output + [Denied] && r.gate == ""
  {
    if key == Enter then
      if cfg.password == Some(s.gate) then s.(unlocked := true, output := s.output + Welcome(cfg))
      else s.(gate := "", output := s.output + [Denied])
    else s
  }

  /** `addCommandToHistory`: the prompt echo. A missing username or hostname shows as
      `undefined`, unlike `whoami` and `pwd`, which fall back to `operator`. */
  function Echo(cfg: Config, command: string): (r: Line)
    ensures r.style == CommandHistory
    ensures StartsWith(r.text, Interpolate(cfg.username) + "@")
    ensures EndsWith(r.text, ":$ ~ " + command)
    ensures |r.text| == |Interpolate(cfg.username)| + 1 + |Interpolate(cfg.hostname)| + 5 + |command|
    ensures r.text[|Interpolate(cfg.username)| + 1..|r.text| - 5 - |command|] == Interpolate(cfg.hostname)
  {
    Line(Interpolate(cfg.username) + "@" + Interpolate(cfg.hostname) + ":$ ~ " + command, CommandHistory)
  }

  /** Enter on the command field. A blank line changes nothing but the field and cursor.
      Otherwise the trimmed line goes to the front of the history, is echoed, and is
      dispatched with that history; `clear` wipes the echo with everything else. Either way
      the field is emptied and the cursor reset. */
  function Submit(cfg: Config, s: Session, now: string): (r: Session)
    ensures r.input == "" && r.cursor == -1
    ensures r.unlocked == s.unlocked && r.gate == s.gate
    ensures Extends(r.history, s.history) && |r.history| <= |s.history| + 1
    ensures AllSpace(s.input) ==> r.history == s.history && r.output == s.output
    ensures !AllSpace(s.input) ==>
      var command := Trim(s.input);
      && command != ""
      && r.history == [command] + s.history
      && (Token(command) == "clear" ==> r.output == [])
      && (Token(command) != "clear" ==>
            r.output == s.output + [Echo(cfg, command)] + Execute(cfg, r.history, now, command).lines)
  {
    var command := Trim(s.input);
    if command != [] then
      var history := [command] + s.history;
      assert history[1..] == s.history;
      var output := match Execute(cfg, history, now, command)
        case ClearScreen => []
        case Print(lines) => s.output + [Echo(cfg, command)] + lines;
      s.(history := history, output := output, input := "", cursor := -1)
    else s.(input := "", cursor := -1)
  }

  /** ArrowUp: step to the next older entry and show it; at the oldest entry, or with no
      history, nothing changes. */
  function Older(s: Session): (r: Session)
    requires CursorInRange(s)
    ensures CursorInRange(r)
    ensures r.history == s.history && r.output == s.output && r.unlocked == s.unlocked && r.gate == s.gate
    ensures s.cursor == |s.history| - 1 ==> r == s
    ensures s.cursor < |s.history| - 1 ==> r.cursor == s.cursor + 1 && r.input == s.history[r.cursor]
  {
    if s.cursor < |s.history| - 1 then s.(cursor := s.cursor + 1, input := s.history[s.cursor + 1])
    else s
  }

  /** ArrowDown: step to the next newer entry and show it; from the newest entry, back to
      no selection and an empty field; with no selection, nothing changes. */
  function Newer(s: Session): (r: Session)
    requires CursorInRange(s)
    ensures CursorInRange(r)
    ensures r.history == s.history && r.output == s.output && r.unlocked == s.unlocked && r.gate == s.gate
    ensures s.cursor == -1 ==> r == s
    ensures s.cursor >= 0 ==> r.cursor == s.cursor - 1
    ensures r.cursor >= 0 && s.cursor >= 0 ==> r.input == s.history[r.cursor]
    ensures s.cursor == 0 ==> r.input == ""
  {
    if s.cursor > 0 then s.(cursor := s.cursor - 1, input := s.history[s.cursor - 1])
    else if s.cursor == 0 then s.(cursor := -1, input := "")
    else s
  }

  /** Tab: one match replaces the field's text with that name; several are listed on one
      line with the field left alone; none changes nothing. */
  function Complete(s: Session): (r: Session)
    ensures r.history == s.history && r.cursor == s.cursor && r.unlocked == s.unlocked
    ensures r.input == s.input || r.input in CommandNames
    ensures r.output == s.output || |r.output| == |s.output| + 1
    ensures Matches(s.input) == [] ==> r == s
    ensures |Matches(s.input)| == 1 ==> r == s.(input := Matches(s.input)[0])
    ensures |Matches(s.input)| >= 2 ==>
      r == s.(output := s.output + [Line("Available commands: " + Join(Matches(s.input), ", "), Info)])
  {
    var c := AutoComplete(s.input);
    s.(input := c.input, output := s.output + c.lines)
  }

  /** `handleCommandInput`: nothing at all while locked; otherwise each of the five keys
      that do something reaches its handler. The cursor stays in range, the history only
      ever gains entries at its front, and the lock flag is never touched. */
  function CommandKeyStep(cfg: Config, s: Session, key: Key, now: string): (r: Session)
    requires CursorInRange(s)
    ensures !s.unlocked ==> r == s
    ensures CursorInRange(r)
    ensures r.unlocked == s.unlocked && r.gate == s.gate
    ensures Extends(r.history, s.history) && |r.history| <= |s.history| + 1
    ensures key == Enter && s.unlocked ==> r == Submit(cfg, s, now)
    ensures key == ArrowUp && s.unlocked ==> r == Older(s)
    ensures key == ArrowDown && s.unlocked ==> r == Newer(s)
    ensures key == Escape && s.unlocked ==> r == s.(input := "", cursor := -1)
    ensures key == Tab && s.unlocked ==> r == Complete(s)
    ensures key == OtherKey ==> r == s
  {
    if !s.unlocked then s
    else
      match key
      case Enter => Submit(cfg, s, now)
      case ArrowUp => Older(s)
      case ArrowDown => Newer(s)
      case Escape => s.(input := "", cursor := -1)
      case Tab => Complete(s)
      case OtherKey => s
  }

  /** One event. The password field is on screen only while locked and the command field
      only once unlocked, so each field's events reach its handler only in that phase.
      Unlocking is one-way and prints the welcome exactly when it happens; nothing done
      while locked touches the command side. */
  function Step(cfg: Config, s: Session, e: Event): (r: Session)
    requires CursorInRange(s)
    ensures CursorInRange(r)
    ensures s.unlocked ==> r.unlocked
    ensures !s.unlocked && r.unlocked ==> r.output == s.output + Welcome(cfg)
    ensures Extends(r.history, s.history)
    ensures !s.unlocked ==> r.history == s.history && r.cursor == s.cursor && r.input == s.input
    ensures !s.unlocked && (e.CommandKey? || e.CommandEdit?) ==> r == s
    ensures s.unlocked && (e.GateKey? || e.GateEdit?) ==> r == s
    ensures !s.unlocked && e.GateKey? ==> r == PasswordKey(cfg, s, e.key)
    ensures !s.unlocked && e.GateEdit? ==> r == s.(gate := e.text)
    ensures s.unlocked && e.CommandEdit? ==> r == s.(input := e.text)
    ensures e.CommandKey? ==> r == CommandKeyStep(cfg, s, e.key, e.now)
  {
    match e
    case GateKey(key) => if s.unlocked then s else PasswordKey(cfg, s, key)
    case GateEdit(text) => if s.unlocked then s else s.(gate := text)
    case CommandKey(key, now) => CommandKeyStep(cfg, s, key, now)
    case CommandEdit(text) => if s.unlocked then s.(input := text) else s
  }

  /** A sequence of events, one after another. */
  function Run(cfg: Config, s: Session, es: seq<Event>): (r: Session)
    requires CursorInRange(s)
    ensures CursorInRange(r)
    ensures s.unlocked ==> r.unlocked
    ensures Extends(r.history, s.history)
    decreases |es|
  {
    if es == [] then s else Run(cfg, Step(cfg, s, es[0]), es[1..])
  }

  /** The command field's text after each event of a run. */
  function Inputs(cfg: Config, s: Session, es: seq<Event>): (r: seq<string>)
    requires CursorInRange(s)
    ensures |r| == |es|
    decreases |es|
  {
    if es == [] then [] else
      var t := Step(cfg, s, es[0]);
      [t.input] + Inputs(cfg, t, es[1..])
  }
}
