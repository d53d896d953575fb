/** The configuration object the terminal reads (`config.json`, or the built-in fallback
    when it cannot be loaded), and the JavaScript value rules the handlers apply to it. */
module Settings {

  /** A configuration key that may be missing: `None` is JavaScript's `undefined`. */
  datatype Option<+T> = None | Some(value: T)

  /** One `[name, description, link]` entry of `config.projects`. */
  datatype Project = Project(name: string, description: string, link: string)

  /** A value of `config.colors`; only string values are listed by `theme`. */
  datatype ColorValue = Text(s: string) | NotText

  /** Every key is optional. `social` and `colors` are JSON objects, kept as the list of
      their entries in the order `Object.entries` gives them. */
  datatype Config = Config(
    title: Option<string>,
    username: Option<string>,
    hostname: Option<string>,
    password: Option<string>,
    ascii: Option<seq<string>>,
    aboutGreeting: Option<string>,
    repoLink: Option<string>,
    projects: Option<seq<Project>>,
    social: Option<seq<(string, string)>>,
    colors: Option<seq<(string, ColorValue)>>)

  /** The configuration used when `config.json` cannot be fetched or parsed. */
  const Fallback: Config := Config(
    title := Some("C2Whisperer Terminal"),
    username := Some("operator"),
    hostname := Some("c2whisperer"),
    password := Some("infected"),
    ascii := Some(["C2WHISPERER TERMINAL"]),
    aboutGreeting := Some("Welcome to C2Whisperer Terminal"),
    repoLink := None,
    projects := Some([]),
    social := Some([]),
    colors := None)

  /** A string property is truthy when present and non-empty. */
  predicate Truthy(v: Option<string>) {
    v.Some? && v.value != ""
  }

  /** `v || fallback` on a string property. */
  function OrElse(v: Option<string>, fallback: string): string {
    if Truthy(v) then v.value else fallback
  }

  /** `${v}` in a template literal: a missing property renders as `undefined`. */
  function Interpolate(v: Option<string>): string {
    match v
    case Some(s) => s
    case None => "undefined"
  }

  /** ASCII art is configured and has at least one line. */
  predicate HasAscii(cfg: Config) {
    cfg.ascii.Some? && |cfg.ascii.value| > 0
  }
}

/** What the terminal appends to its scrollback: one block of text per `addOutput` call,
    tagged with the CSS class the call passes. */
module Display {

  datatype Style = Plain | Error | Info | AsciiArt | CommandHistory | ProjectItem

  datatype Line = Line(text: string, style: Style)
}
