/** Properties of whole runs of the terminal: the password gate, the inertness of the
    command field while locked, the history walk with the arrow keys, and the `history`
    listing as reached through Enter. */
module Properties {
  import opened Text
  import opened Settings
  import opened Display
  import opened Commands
  import opened Terminal

  /** Running two event sequences one after the other. */
  lemma {:induction false} RunAppend(cfg: Config, s: Session, a: seq<Event>, b: seq<Event>)
    requires CursorInRange(s)
    ensures Run(cfg, s, a + b) == Run(cfg, Run(cfg, s, a), b)
    decreases |a|
  {
    if a == [] {
      assert a + b == b;
    } else {
      assert (a + b)[0] == a[0];
      assert (a + b)[1..] == a[1..] + b;
      RunAppend(cfg, Step(cfg, s, a[0]), a[1..], b);
    }
  }

  /** The field texts of two runs one after the other. */
  lemma {:induction false} InputsAppend(cfg: Config, s: Session, a: seq<Event>, b: seq<Event>)
    requires CursorInRange(s)
    ensures Inputs(cfg, s, a + b) == Inputs(cfg, s, a) + Inputs(cfg, Run(cfg, s, a), b)
    decreases |a|
  {
    if a == [] {
      assert a + b == b;
    } else {
      assert (a + b)[0] == a[0];
      assert (a + b)[1..] == a[1..] + b;
      var t := Step(cfg, s, a[0]);
      var x, y, z := [t.input], Inputs(cfg, t, a[1..]), Inputs(cfg, Run(cfg, t, a[1..]), b);
      assert Run(cfg, s, a) == Run(cfg, t, a[1..]);
      assert Inputs(cfg, s, a) == x + y;
      assert Inputs(cfg, s, a + b) == x + Inputs(cfg, t, a[1..] + b);
      InputsAppend(cfg, t, a[1..], b);
      Associative(x, y, z);
    }
  }

  /** Regrouping a concatenation. Proved on its own, away from the unfoldings of `Step`
      that surround its use in `InputsAppend`, where the solver finds it slowly. */
  lemma Associative<T>(x: seq<T>, y: seq<T>, z: seq<T>)
    ensures x + (y + z) == (x + y) + z
  {
  }

  /** One event, then the rest. */
  lemma RunCons(cfg: Config, s: Session, es: seq<Event>)
    requires CursorInRange(s) && es != []
    ensures Run(cfg, s, es) == Run(cfg, Step(cfg, s, es[0]), es[1..])
    ensures Inputs(cfg, s, es) == [Step(cfg, s, es[0]).input] + Inputs(cfg, Step(cfg, s, es[0]), es[1..])
  {
  }

  /** Running two events. */
  lemma RunPair(cfg: Config, s: Session, e1: Event, e2: Event)
    requires CursorInRange(s)
    ensures Run(cfg, s, [e1, e2]) == Step(cfg, Step(cfg, s, e1), e2)
  {
    var s1 := Step(cfg, s, e1);
    assert [e1, e2][1..] == [e2];
    assert [e2][1..] == [];
    assert Run(cfg, s1, [e2]) == Run(cfg, Step(cfg, s1, e2), []);
  }

  /** Typing `t` into the password field and pressing Enter, once per `t`. */
  function Attempts(ts: seq<string>): (es: seq<Event>)
    ensures |es| == 2 * |ts|
  {
    if ts == [] then [] else [GateEdit(ts[0]), GateKey(Enter)] + Attempts(ts[1..])
  }

  /** `n` refusals in a row. */
  function Refusals(n: nat): (r: seq<Line>)
    ensures |r| == n && forall k :: 0 <= k < n ==> r[k] == Denied
  {
    if n == 0 then [] else [Denied] + Refusals(n - 1)
  }

  lemma MoreRefusals(o: seq<Line>, n: nat)
    requires n > 0
    ensures (o + [Denied]) + Refusals(n - 1) == o + Refusals(n)
  {
    assert Refusals(n) == [Denied] + Refusals(n - 1);
  }

  /** One wrong password: the field is emptied and the refusal printed. */
  lemma WrongAttempt(cfg: Config, s: Session, t: string)
    requires !s.unlocked && CursorInRange(s) && cfg.password != Some(t)
    ensures Run(cfg, s, [GateEdit(t), GateKey(Enter)]) == s.(gate := "", output := s.output + [Denied])
  {
    RunPair(cfg, s, GateEdit(t), GateKey(Enter));
    assert Step(cfg, s, GateEdit(t)) == s.(gate := t);
  }

  /** Any number of wrong passwords leaves the session locked, prints one refusal per
      attempt, empties the field, and touches nothing else. */
  lemma {:induction false} WrongAttempts(cfg: Config, s: Session, ts: seq<string>)
    requires !s.unlocked && CursorInRange(s)
    requires forall k :: 0 <= k < |ts| ==> cfg.password != Some(ts[k])
    ensures var r := Run(cfg, s, Attempts(ts));
      && !r.unlocked
      && r.output == s.output + Refusals(|ts|)
      && r.history == s.history && r.cursor == s.cursor && r.input == s.input
      && (ts != [] ==> r.gate == "")
    decreases |ts|
  {
    if ts != [] {
      var first, rest := [GateEdit(ts[0]), GateKey(Enter)], Attempts(ts[1..]);
      var t := s.(gate := "", output := s.output + [Denied]);
      assert Run(cfg, s, Attempts(ts)) == Run(cfg, t, rest) by {
        WrongAttempt(cfg, s, ts[0]);
        assert Attempts(ts) == first + rest;
        RunAppend(cfg, s, first, rest);
      }
      assert forall k :: 0 <= k < |ts| - 1 ==> ts[1..][k] == ts[k + 1];
      WrongAttempts(cfg, t, ts[1..]);
      MoreRefusals(s.output, |ts|);
    }
  }

  /** Typing the configured password and pressing Enter unlocks the session and prints the
      welcome; afterwards no event locks it again. */
  lemma Unlock(cfg: Config, s: Session, es: seq<Event>)
    requires !s.unlocked && CursorInRange(s)
    requires cfg.password.Some?
    ensures var r := Run(cfg, s, [GateEdit(cfg.password.value), GateKey(Enter)]);
      && r.unlocked
      && r.output == s.output + Welcome(cfg)
      && Run(cfg, r, es).unlocked
  {
    var p := cfg.password.value;
    RunPair(cfg, s, GateEdit(p), GateKey(Enter));
    assert Step(cfg, s, GateEdit(p)) == s.(gate := p);
  }

  /** With the built-in configuration, the wrong phrase is refused: the session stays
      locked, the field is emptied, and the refusal is the only line printed. */
  lemma FallbackRefuses(s: Session)
    requires !s.unlocked && CursorInRange(s)
    ensures var r := Run(Fallback, s, Attempts(["wrong"]));
      r == s.(gate := "", output := s.output + [Denied])
  {
    WrongAttempts(Fallback, s, ["wrong"]);
    assert Refusals(1) == [Denied];
  }

  /** The welcome of the built-in configuration: its one-line banner, its greeting and
      the hint. */
  lemma FallbackWelcome()
    ensures Welcome(Fallback) == [
      Line("C2WHISPERER TERMINAL", AsciiArt),
      Line("\nWelcome to C2Whisperer Terminal", Plain),
      Line(WelcomeHint, Plain)]
  {
    assert HasAscii(Fallback) && Fallback.ascii.value == ["C2WHISPERER TERMINAL"];
    assert Join(["C2WHISPERER TERMINAL"], "\n") == "C2WHISPERER TERMINAL";
    assert Truthy(Fallback.aboutGreeting);
    assert "\n" + "Welcome to C2Whisperer Terminal" == "\nWelcome to C2Whisperer Terminal";
  }

  /** Commands under the built-in configuration: `whoami` and `pwd` name its user, its
      empty project list and social object give their notices, and with no colour object
      `theme` gives its notice too. */
  lemma FallbackCommands(history: seq<string>, now: string, command: string)
    ensures Token(command) == "whoami" ==> Execute(Fallback, history, now, command) == Print([Line("operator", Plain)])
    ensures Token(command) == "pwd" ==> Execute(Fallback, history, now, command) == Print([Line("/home/operator", Plain)])
    ensures Token(command) == "projects" ==> Execute(Fallback, history, now, command) == Print([NoProjects])
    ensures Token(command) == "social" ==> Execute(Fallback, history, now, command) == Print([NoSocial])
    ensures Token(command) == "theme" ==> Execute(Fallback, history, now, command) == Print([NoTheme])
  {
    assert OrElse(Fallback.username, "operator") == "operator";
    assert "/home/" + "operator" == "/home/operator";
  }

  lemma LowerHelp()
    ensures Lower("HELP") == "help" && Lower("Help") == "help" && Lower("help") == "help"
  {
    var u, v := Lower("HELP"), Lower("Help");
    assert u[0] == 'h' && u[1] == 'e' && u[2] == 'l' && u[3] == 'p';
    assert v[0] == 'h' && v[1] == 'e' && v[2] == 'l' && v[3] == 'p';
    LowerOfLowerCase("help");
  }

  /** `HELP`, `Help` and `help` are one command. */
  lemma HelpAnyCase(cfg: Config, history: seq<string>, now: string)
    ensures Execute(cfg, history, now, "HELP") == Execute(cfg, history, now, "help")
    ensures Execute(cfg, history, now, "Help") == Execute(cfg, history, now, "help")
  {
    LowerHelp();
    TokenOfWord("HELP");
    assert Token("HELP") == "help";
    DispatchIgnoresCase(cfg, history, now, "HELP", "help");
    DispatchIgnoresCase(cfg, history, now, "Help", "help");
  }

  predicate IsCommandEvent(e: Event) {
    e.CommandKey? || e.CommandEdit?
  }

  /** While locked, command-field events of any kind change nothing. */
  lemma {:induction false} LockedIsInert(cfg: Config, s: Session, es: seq<Event>)
    requires !s.unlocked && CursorInRange(s)
    requires forall k :: 0 <= k < |es| ==> IsCommandEvent(es[k])
    ensures Run(cfg, s, es) == s
    decreases |es|
  {
    if es != [] {
      LockedIsInert(cfg, s, es[1..]);
    }
  }

  /** `n` presses of one key on the command field. */
  function Presses(key: Key, n: nat): (es: seq<Event>)
    ensures |es| == n
  {
    if n == 0 then [] else [CommandKey(key, "")] + Presses(key, n - 1)
  }

  /** `k` presses are one press followed by `k - 1`. */
  lemma PressesCons(key: Key, k: nat)
    requires k > 0
    ensures Presses(key, k)[0] == CommandKey(key, "")
    ensures Presses(key, k)[1..] == Presses(key, k - 1)
  {
  }

  predicate IsArrow(key: Key) {
    key == ArrowUp || key == ArrowDown
  }

  /** What one arrow key does to an unlocked session. */
  function Arrow(s: Session, key: Key): (r: Session)
    requires CursorInRange(s) && IsArrow(key)
    ensures CursorInRange(r)
  {
    if key == ArrowUp then Older(s) else Newer(s)
  }

  /** `k` presses of one arrow key, as the history walk alone sees them. */
  function Walk(s: Session, key: Key, k: nat): (r: Session)
    requires CursorInRange(s) && IsArrow(key)
    ensures CursorInRange(r)
    decreases k
  {
    if k == 0 then s else Walk(Arrow(s, key), key, k - 1)
  }

  /** The command field's text after each of those presses. */
  function WalkInputs(s: Session, key: Key, k: nat): (r: seq<string>)
    requires CursorInRange(s) && IsArrow(key)
    ensures |r| == k
    decreases k
  {
    if k == 0 then [] else [Arrow(s, key).input] + WalkInputs(Arrow(s, key), key, k - 1)
  }

  /** An arrow key on the unlocked command field moves the cursor and nothing else. */
  lemma ArrowStep(cfg: Config, s: Session, key: Key)
    requires s.unlocked && CursorInRange(s) && IsArrow(key)
    ensures Step(cfg, s, CommandKey(key, "")) == Arrow(s, key)
  {
    assert Step(cfg, s, CommandKey(key, "")) == CommandKeyStep(cfg, s, key, "");
  }

  /** Pressing an arrow key `k` times runs the history walk `k` steps. */
  lemma {:induction false} RunPresses(cfg: Config, s: Session, key: Key, k: nat)
    requires s.unlocked && CursorInRange(s) && IsArrow(key)
    ensures Run(cfg, s, Presses(key, k)) == Walk(s, key, k)
    decreases k
  {
    if k == 0 {
      assert Presses(key, 0) == [];
    } else {
      var t := Arrow(s, key);
      var a, b := Run(cfg, s, Presses(key, k)), Run(cfg, t, Presses(key, k - 1));
      assert a == b by { FirstPress(cfg, s, key, k); }
      assert b == Walk(t, key, k - 1) by { RunPresses(cfg, t, key, k - 1); }
      assert Walk(t, key, k - 1) == Walk(s, key, k);
    }
  }

  /** The field shows the walk's entries while an arrow key is pressed `k` times. */
  lemma {:induction false} InputsPresses(cfg: Config, s: Session, key: Key, k: nat)
    requires s.unlocked && CursorInRange(s) && IsArrow(key)
    ensures Inputs(cfg, s, Presses(key, k)) == WalkInputs(s, key, k)
    decreases k
  {
    if k == 0 {
      assert Presses(key, 0) == [];
    } else {
      var t := Arrow(s, key);
      var a, b := Inputs(cfg, s, Presses(key, k)), Inputs(cfg, t, Presses(key, k - 1));
      assert a == [t.input] + b by { FirstPress(cfg, s, key, k); }
      assert b == WalkInputs(t, key, k - 1) by { InputsPresses(cfg, t, key, k - 1); }
      assert [t.input] + WalkInputs(t, key, k - 1) == WalkInputs(s, key, k);
    }
  }

  /** The first of `k` arrow presses is one step of the walk. */
  lemma FirstPress(cfg: Config, s: Session, key: Key, k: nat)
    requires s.unlocked && CursorInRange(s) && IsArrow(key) && k > 0
    ensures var t := Arrow(s, key);
      && Run(cfg, s, Presses(key, k)) == Run(cfg, t, Presses(key, k - 1))
      && Inputs(cfg, s, Presses(key, k)) == [t.input] + Inputs(cfg, t, Presses(key, k - 1))
  {
    var es := Presses(key, k);
    PressesCons(key, k);
    ArrowStep(cfg, s, key);
    RunCons(cfg, s, es);
  }

  /** `k` ArrowUps from cursor `c` move the cursor to `c + k` and show entry `c + k`. */
  lemma {:induction false} WalkOlder(s: Session, k: nat)
    requires CursorInRange(s) && 0 < k && s.cursor + k < |s.history|
    ensures Walk(s, ArrowUp, k) == s.(cursor := s.cursor + k, input := s.history[s.cursor + k])
    decreases k
  {
    var h, c := s.history, s.cursor;
    var t := s.(cursor := c + 1, input := h[c + 1]);
    assert Arrow(s, ArrowUp) == t;
    assert Walk(s, ArrowUp, k) == Walk(t, ArrowUp, k - 1);
    if k > 1 {
      WalkOlder(t, k - 1);
      assert t.cursor + (k - 1) == c + k;
    }
  }

  /** On the way they show the entries `c + 1` .. `c + k` in turn. */
  lemma {:induction false} WalkOlderShows(s: Session, k: nat)
    requires CursorInRange(s) && s.cursor + k < |s.history|
    ensures WalkInputs(s, ArrowUp, k) == s.history[s.cursor + 1..s.cursor + 1 + k]
    decreases k
  {
    if k > 0 {
      var h, c := s.history, s.cursor;
      var t := s.(cursor := c + 1, input := h[c + 1]);
      assert Arrow(s, ArrowUp) == t;
      assert WalkInputs(s, ArrowUp, k) == [h[c + 1]] + WalkInputs(t, ArrowUp, k - 1);
      WalkOlderShows(t, k - 1);
      assert WalkInputs(t, ArrowUp, k - 1) == h[c + 2..c + 1 + k];
      assert h[c + 1..c + 1 + k] == [h[c + 1]] + h[c + 2..c + 1 + k];
    }
  }

  /** What the command field shows with the cursor at `i`: the entry, or nothing at -1. */
  function Shown(h: seq<string>, i: int): string
    requires -1 <= i < |h|
  {
    if i >= 0 then h[i] else ""
  }

  /** `k` ArrowDowns from cursor `c` move the cursor to `c - k` and show what belongs
      there, the empty field standing for -1. */
  lemma {:induction false} WalkNewer(s: Session, k: nat)
    requires CursorInRange(s) && 0 < k <= s.cursor + 1
    ensures Walk(s, ArrowDown, k) == s.(cursor := s.cursor - k, input := Shown(s.history, s.cursor - k))
    decreases k
  {
    var h, c := s.history, s.cursor;
    var t := s.(cursor := c - 1, input := Shown(h, c - 1));
    assert Arrow(s, ArrowDown) == t;
    assert Walk(s, ArrowDown, k) == Walk(t, ArrowDown, k - 1);
    if k > 1 {
      WalkNewer(t, k - 1);
      assert t.cursor - (k - 1) == c - k;
    }
  }

  /** On the way they show the entries `c - 1` down to `c - k` in turn. */
  lemma {:induction false} WalkNewerShows(s: Session, k: nat)
    requires CursorInRange(s) && k <= s.cursor + 1
    ensures forall j :: 0 <= j < k ==> WalkInputs(s, ArrowDown, k)[j] == Shown(s.history, s.cursor - 1 - j)
    decreases k
  {
    if k > 0 {
      var h, c := s.history, s.cursor;
      var t := s.(cursor := c - 1, input := Shown(h, c - 1));
      assert Arrow(s, ArrowDown) == t;
      var ins, rest := WalkInputs(s, ArrowDown, k), WalkInputs(t, ArrowDown, k - 1);
      assert ins == [Shown(h, c - 1)] + rest;
      WalkNewerShows(t, k - 1);
      forall j | 0 <= j < k ensures ins[j] == Shown(h, c - 1 - j) {
        if j > 0 {
          assert ins[j] == rest[j - 1];
          assert t.cursor - 1 - (j - 1) == c - 1 - j;
        }
      }
    }
  }

  /** From the oldest entry, as many ArrowDowns as there are entries end on no selection
      and an empty field. */
  lemma DownFromOldest(t: Session)
    requires |t.history| >= 1 && t.cursor == |t.history| - 1
    ensures Walk(t, ArrowDown, |t.history|) == t.(cursor := -1, input := "")
  {
    var n := |t.history|;
    WalkNewer(t, n);
    assert t.cursor - n == -1;
  }

  /** On the way they show the newer entries in turn, then the empty field. */
  lemma DownFromOldestShows(t: Session)
    requires |t.history| >= 1 && t.cursor == |t.history| - 1
    ensures var n := |t.history|;
      WalkInputs(t, ArrowDown, n) == Reverse(t.history[..n - 1]) + [""]
  {
    var n, h := |t.history|, t.history;
    WalkNewerShows(t, n);
    var downs := WalkInputs(t, ArrowDown, n);
    var older := Reverse(h[..n - 1]);
    var expected := older + [""];
    assert |expected| == n;
    forall j | 0 <= j < n ensures downs[j] == expected[j] {
      assert downs[j] == Shown(h, n - 2 - j);
      if j < n - 1 {
        assert expected[j] == older[j] == h[..n - 1][n - 2 - j];
      } else {
        assert expected[j] == "";
      }
    }
  }

  /** The history walk from no selection, `n` steps up and `n` steps down, with `n` the
      number of entries. */
  lemma UpAndDown(s: Session)
    requires s.cursor == -1 && |s.history| >= 1
    ensures var n := |s.history|;
      var up := Walk(s, ArrowUp, n);
      && Walk(up, ArrowDown, n) == s.(input := "")
      && WalkInputs(s, ArrowUp, n) == s.history
      && WalkInputs(up, ArrowDown, n) == Reverse(s.history[..n - 1]) + [""]
  {
    var n := |s.history|;
    WalkOlder(s, n);
    WalkOlderShows(s, n);
    assert s.history[0..n] == s.history;
    var up := s.(cursor := n - 1, input := s.history[n - 1]);
    assert Walk(s, ArrowUp, n) == up;
    DownFromOldest(up);
    DownFromOldestShows(up);
  }

  /** From no selection with `n` history entries, `n` ArrowUps then `n` ArrowDowns come
      back to no selection and an empty field with nothing else changed. The Ups show the
      entries newest to oldest; the Downs show them again in the opposite order, ending
      with the empty field. */
  lemma RoundTrip(cfg: Config, s: Session)
    requires s.unlocked && s.cursor == -1 && |s.history| >= 1
    ensures var n := |s.history|;
      Run(cfg, s, Presses(ArrowUp, n) + Presses(ArrowDown, n)) == s.(input := "")
    ensures var n := |s.history|;
      var ups := Inputs(cfg, s, Presses(ArrowUp, n));
      var downs := Inputs(cfg, Run(cfg, s, Presses(ArrowUp, n)), Presses(ArrowDown, n));
      && ups == s.history
      && downs == Reverse(ups[..n - 1]) + [""]
  {
    var n := |s.history|;
    UpAndDown(s);
    RunPresses(cfg, s, ArrowUp, n);
    InputsPresses(cfg, s, ArrowUp, n);
    var up := Walk(s, ArrowUp, n);
    RunPresses(cfg, up, ArrowDown, n);
    InputsPresses(cfg, up, ArrowDown, n);
    RunAppend(cfg, s, Presses(ArrowUp, n), Presses(ArrowDown, n));
  }

  /** A listing of a non-empty history never carries the empty-history notice. */
  lemma ListingLacksNotice(h: seq<string>)
    requires h != []
    ensures NoHistory !in History(h)
  {
    var listing := History(h);
    forall i | 0 <= i < |listing| ensures listing[i] != NoHistory {
      assert listing[i].text[0] != NoHistory.text[0];
    }
  }

  /** Enter on the unlocked command field submits the line. */
  lemma EnterSubmits(cfg: Config, s: Session, now: string)
    requires s.unlocked && CursorInRange(s)
    ensures Step(cfg, s, CommandKey(Enter, now)) == Submit(cfg, s, now)
  {
    assert Step(cfg, s, CommandKey(Enter, now)) == CommandKeyStep(cfg, s, Enter, now);
  }

  /** Submitting a line whose command is `history` puts the line at the front of the
      history, echoes it, and prints the listing of that history. */
  lemma SubmitHistory(cfg: Config, s: Session, now: string)
    ensures Token(Trim(s.input)) == "history" ==>
      var r := Submit(cfg, s, now);
      && r.history == [Trim(s.input)] + s.history
      && r.output == s.output + [Echo(cfg, Trim(s.input))] + History(r.history)
  {
    if Token(Trim(s.input)) == "history" {
      var command := Trim(s.input);
      assert Lower([]) == [];
      assert command != [];
      assert Execute(cfg, [command] + s.history, now, command) == Print(History([command] + s.history));
    }
  }

  /** Enter on any line whose command is `history` lists the history with that line
      already at its front: the listing ends with the line itself numbered by the history
      length, and the empty-history notice cannot appear this way. */
  lemma HistoryListsItself(cfg: Config, s: Session, now: string)
    requires s.unlocked && CursorInRange(s)
    ensures Token(Trim(s.input)) == "history" ==>
      var r := Step(cfg, s, CommandKey(Enter, now));
      var listing := r.output[|s.output| + 1..];
      && r.history == [Trim(s.input)] + s.history
      && |r.output| == |s.output| + 1 + |r.history| + 1
      && r.output[|s.output|] == Echo(cfg, Trim(s.input))
      && listing[|listing| - 1] == HistoryLine(|r.history|, Trim(s.input))
      && NoHistory !in listing
  {
    if Token(Trim(s.input)) == "history" {
      EnterSubmits(cfg, s, now);
      SubmitHistory(cfg, s, now);
      var r := Submit(cfg, s, now);
      var echo, listing := Echo(cfg, Trim(s.input)), History(r.history);
      assert r.output == s.output + [echo] + listing;
      assert |listing| == |r.history| + 1;
      assert r.output[|s.output|] == echo;
      assert r.output[|s.output| + 1..] == listing;
      ListingLacksNotice(r.history);
    }
  }

  /** Without a user name or host name, the prompt echo shows `undefined` for both, while
      `whoami` and `pwd` fall back to `operator`. */
  lemma AnonymousEcho(cfg: Config, history: seq<string>, now: string, command: string)
    requires cfg.username == None && cfg.hostname == None
    ensures Echo(cfg, command) == Line("undefined@undefined:$ ~ " + command, CommandHistory)
    ensures Handle(cfg, history, now, "whoami") == Print([Line("operator", Plain)])
    ensures Handle(cfg, history, now, "pwd") == Print([Line("/home/operator", Plain)])
  {
    assert Interpolate(cfg.username) + "@" + Interpolate(cfg.hostname) + ":$ ~ " == "undefined@undefined:$ ~ ";
    assert OrElse(cfg.username, "operator") == "operator";
    assert "/home/" + "operator" == "/home/operator";
  }
}
