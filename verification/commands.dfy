/** The command handlers of the terminal (`showHelp`, `showAbout`, `showProjects`,
    `showSocial`, `getSocialUrl`, `showBanner`, `showTheme`, `showHistory`, `showWelcome`)
    and the dispatcher `executeCommand`. Each handler maps the configuration (and, for
    `history`, the command history) to the blocks it appends to the scrollback. */
module Commands {
  import opened Text
  import opened Settings
  import opened Display

  /** The usage text `help` prints, one block starting and ending with a newline. */
  const HelpText: string :=
    "\nAvailable Commands:\n"
    + "  help      - Show this help message\n"
    + "  about     - About information\n"
    + "  projects  - Show projects\n"
    + "  social    - Show social links\n"
    + "  banner    - Show ASCII banner\n"
    + "  clear     - Clear terminal\n"
    + "  whoami    - Show current user\n"
    + "  date      - Show current date\n"
    + "  history   - Show command history\n"
    + "  theme     - Show color theme\n"
    + "  ls        - List contents\n"
    + "  pwd       - Print working directory\n"
    + "  exit      - Close terminal\n"
    + "  \n"
    + "Navigation:\n"
    + "  [\U{2191}][\U{2193}]    - Browse command history\n"
    + "  [Tab]     - Auto-complete commands\n"
    + "  [Esc]     - Clear input line\n"

  /** `showBanner`: the ASCII art as one block, its lines joined by newlines; nothing when
      no art is configured. */
  function Banner(cfg: Config): (r: seq<Line>)
    ensures r != [] <==> HasAscii(cfg)
    ensures |r| <= 1
    ensures r != [] ==> r[0] == Line(Join(cfg.ascii.value, "\n"), AsciiArt)
  {
    if HasAscii(cfg) then [Line(Join(cfg.ascii.value, "\n"), AsciiArt)] else []
  }

  /** A display that splits the banner at newlines shows the configured lines again, as
      long as none of them holds a newline itself. */
  lemma BannerSplits(cfg: Config)
    requires HasAscii(cfg)
    requires forall k :: 0 <= k < |cfg.ascii.value| ==> '\n' !in cfg.ascii.value[k]
    ensures Split(Banner(cfg)[0].text, '\n') == cfg.ascii.value
  {
    SplitJoin(cfg.ascii.value, '\n');
  }

  const WelcomeHint: string := "\nType \"help\" to see available commands.\n"

  /** What the welcome and `about` show when no greeting is configured. */
  const GenericGreeting: string := "Welcome to the terminal!"
  const NoAbout: string := "No about information available."

  /** `showWelcome`: what the `banner` command would print, then the greeting (or a
      generic one) on a fresh line, then the hint to type `help`. */
  function Welcome(cfg: Config): (r: seq<Line>)
    ensures |r| == |Banner(cfg)| + 2
    ensures r[..|r| - 2] == Banner(cfg)
    ensures r[|r| - 2] == Line("\n" + OrElse(cfg.aboutGreeting, GenericGreeting), Plain)
    ensures r[|r| - 1] == Line(WelcomeHint, Plain)
  {
    Banner(cfg) + [Line("\n" + OrElse(cfg.aboutGreeting, GenericGreeting), Plain), Line(WelcomeHint, Plain)]
  }

  /** `about` and the welcome show the same configured greeting, the welcome on a fresh
      line; without one, each falls back to its own text. */
  lemma SharedGreeting(cfg: Config)
    ensures Truthy(cfg.aboutGreeting) ==>
      Welcome(cfg)[|Welcome(cfg)| - 2].text == "\n" + About(cfg)[0].text
    ensures !Truthy(cfg.aboutGreeting) ==>
      && About(cfg)[0].text == NoAbout
      && Welcome(cfg)[|Welcome(cfg)| - 2].text == "\n" + GenericGreeting
  {
  }

  /** `showAbout`: the greeting (or a notice that there is none), then the repository
      link on a fresh line exactly when one is configured. */
  function About(cfg: Config): (r: seq<Line>)
    ensures |r| == (if Truthy(cfg.repoLink) then 2 else 1)
    ensures r[0] == Line(OrElse(cfg.aboutGreeting, NoAbout), Plain)
    ensures |r| == 2 ==> r[1] == Line("\nRepository: " + cfg.repoLink.value, Plain)
  {
    [Line(OrElse(cfg.aboutGreeting, NoAbout), Plain)]
    + (if Truthy(cfg.repoLink) then [Line("\nRepository: " + cfg.repoLink.value, Plain)] else [])
  }

  /** The three-line block describing the `n`-th project. */
  function ProjectBlock(n: nat, p: Project): string {
    "  " + NatToString(n) + ". " + p.name + "\n     " + p.description + "\n     Link: " + p.link
  }

  /** The `forEach` over the projects: block `i` describes project `i`, numbered `from + i`. */
  function ProjectItems(ps: seq<Project>, from: nat): (r: seq<Line>)
    ensures |r| == |ps|
    ensures forall i :: 0 <= i < |ps| ==> r[i] == Line(ProjectBlock(from + i, ps[i]), ProjectItem)
  {
    if ps == [] then [] else [Line(ProjectBlock(from, ps[0]), ProjectItem)] + ProjectItems(ps[1..], from + 1)
  }

  const NoProjects: Line := Line("No projects available.", Plain)

  /** `showProjects`: a heading and one block per project in configured order, numbered
      from 1; the notice alone when the list is missing or empty. */
  function Projects(ps: Option<seq<Project>>): (r: seq<Line>)
    ensures r == [NoProjects] <==> ps.None? || ps.value == []
    ensures ps.Some? && ps.value != [] ==>
      && |r| == |ps.value| + 1
      && r[0] == Line("\nProjects:", Plain)
      && forall i :: 0 <= i < |ps.value| ==> r[i + 1] == Line(ProjectBlock(i + 1, ps.value[i]), ProjectItem)
  {
    if ps.Some? && |ps.value| > 0 then
      [Line("\nProjects:", Plain)] + ProjectItems(ps.value, 1)
    else [NoProjects]
  }

  /** The platforms with a URL template. */
  const Platforms: set<string> := {"github", "linkedin", "twitter", "email"}

  /** `getSocialUrl`: the profile URL for the four known platforms, the handle itself for
      any other. The URL always ends with the handle, and it is the bare handle exactly
      when the platform has no template. */
  function SocialUrl(platform: string, handle: string): (r: string)
    ensures platform == "github" ==> r == "https://github.com/" + handle
    ensures platform == "linkedin" ==> r == "https://linkedin.com/in/" + handle
    ensures platform == "twitter" ==> r == "https://twitter.com/" + handle
    ensures platform == "email" ==> r == "mailto:" + handle
    ensures EndsWith(r, handle)
    ensures r == handle <==> platform !in Platforms
  {
    var r := match platform
      case "github" => "https://github.com/" + handle
      case "linkedin" => "https://linkedin.com/in/" + handle
      case "twitter" => "https://twitter.com/" + handle
      case "email" => "mailto:" + handle
      case _ => handle;
    assert r[|r| - |handle|..] == handle;
    r
  }

  function SocialLine(platform: string, handle: string): Line {
    Line("  " + platform + ": " + handle + " (" + SocialUrl(platform, handle) + ")", ProjectItem)
  }

  /** The `forEach` over the social entries: entries with an empty handle are skipped. */
  function SocialItems(es: seq<(string, string)>): (r: seq<Line>)
    ensures |r| <= |es|
    ensures r == [] <==> forall k :: 0 <= k < |es| ==> es[k].1 == ""
  {
    if es == [] then []
    else
      var rest := SocialItems(es[1..]);
      assert forall k :: 1 <= k < |es| ==> es[k] == es[1..][k - 1];
      if es[0].1 != "" then [SocialLine(es[0].0, es[0].1)] + rest else rest
  }

  /** Every entry with a non-empty handle gets its line, and no line comes from anywhere
      else. */
  lemma {:induction false} SocialItemsExact(es: seq<(string, string)>)
    ensures forall k :: 0 <= k < |es| && es[k].1 != "" ==> SocialLine(es[k].0, es[k].1) in SocialItems(es)
    ensures forall l :: l in SocialItems(es) ==>
      exists k :: 0 <= k < |es| && es[k].1 != "" && l == SocialLine(es[k].0, es[k].1)
  {
    if es != [] {
      SocialItemsExact(es[1..]);
      assert forall k :: 1 <= k < |es| ==> es[k] == es[1..][k - 1];
    }
  }

  /** The social lines come in entry order: appending an entry appends its line, if any. */
  lemma {:induction false} SocialItemsAppend(es: seq<(string, string)>, e: (string, string))
    ensures SocialItems(es + [e]) == SocialItems(es) + (if e.1 != "" then [SocialLine(e.0, e.1)] else [])
  {
    if es == [] {
      assert es + [e] == [e];
      assert [e][1..] == [];
    } else {
      assert (es + [e])[0] == es[0];
      assert (es + [e])[1..] == es[1..] + [e];
      SocialItemsAppend(es[1..], e);
    }
  }

  const NoSocial: Line := Line("No social links available.", Plain)

  /** `showSocial`: the heading whenever the object has any key, even if every handle is
      empty, followed by the lines of the non-empty handles; the notice only when the
      object is missing or empty. */
  function Social(social: Option<seq<(string, string)>>): (r: seq<Line>)
    ensures |r| >= 1
    ensures r == [NoSocial] <==> social.None? || social.value == []
    ensures social.Some? && social.value != [] ==>
      r[0] == Line("\nSocial Links:", Plain) && r[1..] == SocialItems(social.value)
  {
    if social.Some? && |social.value| > 0 then
      var r := [Line("\nSocial Links:", Plain)] + SocialItems(social.value);
      assert r[0].text[0] != NoSocial.text[0];
      r
    else [NoSocial]
  }

  function ColorLine(name: string, value: string): Line {
    Line("  " + name + ": " + value, Plain)
  }

  /** The `forEach` over the colours: one line per string-valued entry, nothing else. */
  function ColorItems(cs: seq<(string, ColorValue)>): (r: seq<Line>)
    ensures |r| <= |cs|
    ensures r == [] <==> forall k :: 0 <= k < |cs| ==> !cs[k].1.Text?
    ensures forall k :: 0 <= k < |cs| && cs[k].1.Text? ==> ColorLine(cs[k].0, cs[k].1.s) in r
    ensures forall l :: l in r ==> exists k :: 0 <= k < |cs| && cs[k].1.Text? && l == ColorLine(cs[k].0, cs[k].1.s)
  {
    if cs == [] then []
    else
      var rest := ColorItems(cs[1..]);
      assert forall k :: 1 <= k < |cs| ==> cs[k] == cs[1..][k - 1];
      if cs[0].1.Text? then [ColorLine(cs[0].0, cs[0].1.s)] + rest else rest
  }

  /** The colour lines come in entry order: appending an entry appends its line, if any. */
  lemma {:induction false} ColorItemsAppend(cs: seq<(string, ColorValue)>, c: (string, ColorValue))
    ensures ColorItems(cs + [c]) == ColorItems(cs) + (if c.1.Text? then [ColorLine(c.0, c.1.s)] else [])
  {
    if cs == [] {
      assert cs + [c] == [c];
      assert [c][1..] == [];
    } else {
      assert (cs + [c])[0] == cs[0];
      assert (cs + [c])[1..] == cs[1..] + [c];
      ColorItemsAppend(cs[1..], c);
    }
  }

  const NoTheme: Line := Line("Theme information not available.", Plain)

  /** `showTheme`: any colour object, even an empty one, gets the heading and one line per
      string value; the notice only when there is no colour object. */
  function Theme(colors: Option<seq<(string, ColorValue)>>): (r: seq<Line>)
    ensures |r| >= 1
    ensures r == [NoTheme] <==> colors.None?
    ensures colors.Some? ==> r[0] == Line("\nCurrent Theme Colors:", Plain) && r[1..] == ColorItems(colors.value)
  {
    if colors.Some? then
      var r := [Line("\nCurrent Theme Colors:", Plain)] + ColorItems(colors.value);
      assert r[0].text[0] != NoTheme.text[0];
      r
    else [NoTheme]
  }

  function HistoryLine(n: nat, command: string): Line {
    Line("  " + NatToString(n) + ". " + command, Plain)
  }

  /** The `forEach` over the listed commands: line `i` shows entry `i` numbered `from + i`. */
  function HistoryItems(cs: seq<string>, from: nat): (r: seq<Line>)
    ensures |r| == |cs|
    ensures forall i :: 0 <= i < |cs| ==> r[i] == HistoryLine(from + i, cs[i])
  {
    if cs == [] then [] else [HistoryLine(from, cs[0])] + HistoryItems(cs[1..], from + 1)
  }

  /** `slice().reverse()` */
  function Reverse<T>(s: seq<T>): (r: seq<T>)
    ensures |r| == |s|
    ensures forall i :: 0 <= i < |s| ==> r[i] == s[|s| - 1 - i]
  {
    if s == [] then [] else Reverse(s[1..]) + [s[0]]
  }

  const NoHistory: Line := Line("No command history.", Plain)

  /** `showHistory` over a most-recent-first history: a heading, then the commands oldest
      first, numbered from 1, so the last line shows the newest command; the notice only
      when the history is empty. */
  function History(h: seq<string>): (r: seq<Line>)
    ensures r == [NoHistory] <==> h == []
    ensures h != [] ==>
      && |r| == |h| + 1
      && r[0] == Line("\nCommand History:", Plain)
      && (forall n :: 1 <= n <= |h| ==> r[n] == HistoryLine(n, h[|h| - n]))
      && r[|h|] == HistoryLine(|h|, h[0])
  {
    if h != [] then [Line("\nCommand History:", Plain)] + HistoryItems(Reverse(h), 1) else [NoHistory]
  }

  /** What dispatching a line asks of the display: append blocks, or wipe it (`clear`). */
  datatype Reply = Print(lines: seq<Line>) | ClearScreen

  /** The command names `executeCommand` recognises. */
  const Known: set<string> :=
    {"help", "about", "projects", "social", "clear", "whoami", "date", "history", "banner",
     "theme", "ls", "pwd", "exit", "quit"}

  /** The handler is chosen by the first space-delimited token of the lower-cased line. */
  function Token(command: string): string {
    FirstToken(Lower(command))
  }

  /** A line without spaces is dispatched on the whole of it, lower-cased. */
  lemma TokenOfWord(w: string)
    requires ' ' !in w
    ensures Token(w) == Lower(w)
  {
    var v := Lower(w);
    forall i | 0 <= i < |v| ensures v[i] != ' ' {
      assert w[i] in w;
    }
    var r := FirstToken(v);
    assert |r| == |v|;
    assert r == v[..|v|];
  }

  function NotFound(command: string): Line {
    Line("Command not found: " + command + ". Type \"help\" for available commands.", Error)
  }

  /** The `switch` of `executeCommand` over a known command name. */
  function Handle(cfg: Config, history: seq<string>, now: string, name: string): (r: Reply)
    requires name in Known
    ensures r.ClearScreen? <==> name == "clear"
    ensures name == "help" ==> r == Print([Line(HelpText, Plain)])
    ensures name == "about" ==> r == Print(About(cfg))
    ensures name == "projects" ==> r == Print(Projects(cfg.projects))
    ensures name == "social" ==> r == Print(Social(cfg.social))
    ensures name == "whoami" ==> r == Print([Line(OrElse(cfg.username, "operator"), Plain)])
    ensures name == "date" ==> r == Print([Line(now, Plain)])
    ensures name == "history" ==> r == Print(History(history))
    ensures name == "banner" ==> r == Print(Banner(cfg))
    ensures name == "theme" ==> r == Print(Theme(cfg.colors))
    ensures name == "ls" ==> r == Print([Line("Projects  Social  About  Config", Plain)])
    ensures name == "pwd" ==> r == Print([Line("/home/" + OrElse(cfg.username, "operator"), Plain)])
    ensures name == "exit" || name == "quit" ==> r == Print([Line("Session terminated.", Error)])
  {
    match name
    case "help" => Print([Line(HelpText, Plain)])
    case "about" => Print(About(cfg))
    case "projects" => Print(Projects(cfg.projects))
    case "social" => Print(Social(cfg.social))
    case "clear" => ClearScreen
    case "whoami" => Print([Line(OrElse(cfg.username, "operator"), Plain)])
    case "date" => Print([Line(now, Plain)])
    case "history" => Print(History(history))
    case "banner" => Print(Banner(cfg))
    case "theme" => Print(Theme(cfg.colors))
    case "ls" => Print([Line("Projects  Social  About  Config", Plain)])
    case "pwd" => Print([Line("/home/" + OrElse(cfg.username, "operator"), Plain)])
    case _ => Print([Line("Session terminated.", Error)])
  }

  /** `executeCommand`. `history` is the command history as it stands when the line is
      dispatched (the line itself already at its front); `now` is what `new Date().toString()`
      renders at that moment. A line whose first token names no command is reported as
      typed. */
  function Execute(cfg: Config, history: seq<string>, now: string, command: string): (r: Reply)
    ensures r.ClearScreen? <==> Token(command) == "clear"
    ensures Token(command) !in Known <==> r == Print([NotFound(command)])
    ensures Token(command) in Known ==> r == Handle(cfg, history, now, Token(command))
    // Implied by the clause above and `Handle`'s; kept as a stepping stone for the
    // proofs about `history` lines.
    ensures Token(command) == "history" ==> r == Print(History(history))
  {
    var name := Token(command);
    if name in Known then
      NeverNotFound(cfg, history, now, name, command);
      Handle(cfg, history, now, name)
    else Print([NotFound(command)])
  }

  /** No recognised command answers with the not-found line: the only error line a handler
      prints is the termination line. */
  lemma NeverNotFound(cfg: Config, history: seq<string>, now: string, name: string, command: string)
    requires name in Known
    ensures Handle(cfg, history, now, name) != Print([NotFound(command)])
  {
    assert NotFound(command).text[0] == 'C';
  }

  /** Dispatch ignores case: two lines that lower-case alike and name a known command get
      the same reply, and `exit` and `quit` are the same command. */
  lemma DispatchIgnoresCase(cfg: Config, history: seq<string>, now: string, a: string, b: string)
    requires Lower(a) == Lower(b)
    requires Token(a) in Known
    ensures Execute(cfg, history, now, a) == Execute(cfg, history, now, b)
    ensures Token(a) in {"exit", "quit"} ==> Execute(cfg, history, now, a) == Print([Line("Session terminated.", Error)])
  {
  }

  /** An unknown command is reported with the line as typed, not lower-cased. */
  lemma UnknownKeepsCase(cfg: Config, history: seq<string>, now: string, command: string)
    requires Token(command) !in Known
    ensures Execute(cfg, history, now, command).lines[0].text
      == "Command not found: " + command + ". Type \"help\" for available commands."
  {
  }
}
