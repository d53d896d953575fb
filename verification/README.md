# C2Whisperer WebShell terminal — a Dafny model

The C2Whisperer WebShell is a browser page that imitates a shell session. A password
field guards it. Once the configured phrase is entered, a command line accepts a fixed
set of commands (`help`, `about`, `projects`, `social`, `clear`, `whoami`, `date`,
`history`, `banner`, `theme`, `ls`, `pwd`, `exit`, `quit`), keeps a command history that
the arrow keys walk through, completes command names with Tab, and prints its replies
as blocks appended to a scrollback.

This project models that session controller as a pure state machine:

- `settings.dfy` — the configuration object (every key optional, a missing key as
  `None`), the built-in fallback configuration, and the JavaScript value rules the
  handlers apply to it (`v || fallback`, `${v}`); the output block and its CSS class.
- `text.dfy` — the string operations the controller relies on: `trim` (with the exact
  whitespace set of the ECMAScript standard), `toLowerCase`, `startsWith`,
  `split(' ')[0]`, `join`, and the decimal rendering of item numbers.
- `commands.dfy` — the command handlers and the dispatcher `executeCommand`, each a
  function from the configuration (and the history, and the clock reading for `date`)
  to the blocks it prints, or to a request to wipe the screen.
- `completion.dfy` — Tab completion over the ten completable names.
- `terminal.dfy` — the session record (lock flag, password field, history most recent
  first, history cursor, command field, scrollback), the two key handlers, and `Step`
  and `Run` over a sequence of events.
- `properties.dfy` — properties of whole runs: the gate, the inertness of the command
  field while locked, the ArrowUp/ArrowDown round trip, and the `history` listing as
  reached through Enter.

Behaviours of the code that are easy to misread, all kept by the model:

- a correct password does not empty the password field (only a wrong one does);
- the history receives the trimmed line, not the line as typed;
- the command name is the text before the first space character only (a tab does not
  separate it);
- `history` lists the commands oldest first, so the line just entered comes last.
- `social` prints its heading whenever the social object has any key, even when every
  handle is empty and no link follows.

The prompt echo interpolates `config.username` and `config.hostname` directly, so a
configuration without them echoes `undefined@undefined:$ ~ …`, while `whoami` and `pwd`
fall back to `operator`; the model keeps both behaviours.

## Model

| member | source | states |
|---|---|---|
| Text.TrimStart | src/js/main.js:105 | the result is a suffix of the input, everything dropped is whitespace, and it does not start with whitespace |
| Text.TrimEnd | src/js/main.js:105 | the result is a prefix of the input, everything dropped is whitespace, and it does not end with whitespace |
| Text.Trim | src/js/main.js:105 | the trimmed line is an infix of the input between two all-whitespace ends, starts and ends with a non-space, and is empty exactly when the input is all whitespace |
| Text.TrimInfix | src/js/main.js:105 | stripping both ends leaves the infix between a whitespace prefix and a whitespace suffix |
| Text.TrimBlank | src/js/main.js:105-106 | stripping both ends gives the empty string exactly when the line is all whitespace, the case `if (command)` rejects |
| Text.TrimIdempotent | src/js/main.js:105 | trimming an already trimmed line changes nothing |
| Text.Lower | src/js/main.js:170 | lower-casing keeps the length, leaves no upper-case letter, keeps every other character and shifts each upper-case letter to its lower-case form |
| Text.LowerOfLowerCase | src/js/main.js:141 | lower-casing text with no upper-case letter is the identity |
| Text.LowerIdempotent | src/js/main.js:141 | lower-casing twice gives the same text as lower-casing once |
| Text.FirstToken | src/js/main.js:170-171 | `split(' ')[0]` is a prefix with no space, followed by a space whenever it is shorter than the line |
| Text.SplitJoin | src/js/main.js:299 | lines joined with newlines split back at newlines into the same lines, when no line holds a newline |
| Text.NatToString | src/js/main.js:323 | item numbers render as a non-empty string of decimal digits, with a leading zero only for 0 |
| Text.ParseNatToString | src/js/main.js:323 | reading a rendered item number back gives the number |
| Text.NatToStringInjective | src/js/main.js:323 | distinct item numbers render differently |
| Commands.Banner | src/js/main.js:297-302 | `banner` prints one ascii-art block exactly when art is configured, and that block is the configured lines joined by newlines |
| Commands.BannerSplits | src/js/main.js:297-302 | splitting the banner at newlines gives the configured lines back when none of them holds a newline |
| Commands.Welcome | src/js/main.js:152-160 | the welcome is the banner, then the greeting or the generic one on a fresh line, then the hint to type `help` |
| Commands.About | src/js/main.js:247-252 | `about` prints the greeting or its notice, and the repository line exactly when a link is configured |
| Commands.SharedGreeting | src/js/main.js:152-160 | with a greeting configured, the welcome shows on a fresh line the very text `about` prints first (line 248); without one, `about` prints `No about information available.` and the welcome `Welcome to the terminal!` |
| Commands.ProjectItems | src/js/main.js:258-264 | block `i` describes project `i` with its name, description and link, numbered consecutively |
| Commands.Projects | src/js/main.js:255-268 | a heading and one block per project numbered from 1, and the notice exactly when the list is missing or empty |
| Commands.SocialUrl | src/js/main.js:286-294 | the URL of each of the four platforms, the bare handle exactly for any other platform, and the URL always ends with the handle |
| Commands.SocialItems | src/js/main.js:274-279 | there are never more lines than entries, and the list is empty exactly when every handle is empty |
| Commands.SocialItemsExact | src/js/main.js:274-279 | every entry with a non-empty handle gets its line, and every line comes from such an entry |
| Commands.SocialItemsAppend | src/js/main.js:274-279 | the lines follow the entries' order: one more entry adds its line, if its handle is non-empty, at the end |
| Commands.Social | src/js/main.js:271-283 | the heading is printed whenever the social object has a key, even when every handle is empty; the notice exactly when the object is missing or empty |
| Commands.ColorItems | src/js/main.js:308-312 | every string-valued colour gets its line, no line comes from anything else, and the list is empty exactly when no value is a string |
| Commands.ColorItemsAppend | src/js/main.js:308-312 | the lines follow the entries' order: one more entry adds its line, if its value is a string, at the end |
| Commands.Theme | src/js/main.js:305-316 | any colour object, even an empty one, prints the heading and its string values; the notice exactly when there is none |
| Commands.HistoryItems | src/js/main.js:322-324 | line `i` shows entry `i` numbered consecutively |
| Commands.Reverse | src/js/main.js:322 | the reversal has the same length and holds at each index the entry the same distance from the other end |
| Commands.History | src/js/main.js:319-328 | a heading, then the commands oldest first numbered from 1, ending with the newest; the notice exactly when the history is empty |
| Commands.TokenOfWord | src/js/main.js:170-171 | a line without spaces is dispatched on the whole of it, lower-cased |
| Commands.Handle | src/js/main.js:173-214 | each recognised name gets its handler's reply: the help text, `about`, `projects`, `social`, `banner`, `theme` and `history` output, the user name or `operator` for `whoami`, `/home/` and that name for `pwd`, the clock reading for `date`, the fixed `ls` line, the termination line for `exit` and `quit`; only `clear` wipes the screen |
| Commands.Execute | src/js/main.js:169-218 | the first space-delimited token of the lower-cased line selects the reply of each recognised command as listed for `Handle`; the screen is wiped exactly for `clear`; the not-found line comes exactly for an unrecognised name |
| Commands.NeverNotFound | src/js/main.js:173-217 | no recognised command answers with the not-found line |
| Commands.DispatchIgnoresCase | src/js/main.js:169-214 | two lines that lower-case alike and name a recognised command get the same reply, and `exit` and `quit` both print the termination line |
| Commands.UnknownKeepsCase | src/js/main.js:215-216 | an unrecognised line is reported as typed, not lower-cased |
| Completion.Candidates | src/js/main.js:142 | the filter never yields more names than it is given; what it keeps and in which order is stated by `CandidatesExact` and `CandidatesAppend` |
| Completion.CandidatesExact | src/js/main.js:142 | the filter keeps exactly the names that start with the prefix |
| Completion.CandidatesAppend | src/js/main.js:142 | filtering a concatenation is the concatenation of the filtered parts, so the kept names stay in list order |
| Completion.AutoComplete | src/js/main.js:139-149 | one match replaces the input with that name and prints nothing; two or more leave the input alone and list the matches in table order on one info line; no match changes nothing; a changed input is the only name the lower-cased input is a prefix of |
| Completion.UniqueMatchCompletes | src/js/main.js:142-145 | whenever exactly one name starts with the lower-cased input, Tab replaces the input with that name and prints nothing |
| Completion.OnlyMatchIsMatches | src/js/main.js:142 | when only one of the distinct names starts with the prefix, the filter yields just that name |
| Completion.SeveralExactlyOnEmptyOrH | src/js/main.js:140-142 | two or more names match exactly when the lower-cased input is empty or `h` |
| Completion.ListsExactlyOnEmptyOrH | src/js/main.js:139-149 | Tab lists candidates exactly when the lower-cased input is empty or `h` |
| Completion.EmptyListsAll | src/js/main.js:140-147 | Tab on an empty line lists all ten names in table order |
| Completion.MatchesH | src/js/main.js:140-142 | `h` matches `help` and `history`, in that order |
| Completion.NeverCompletesHidden | src/js/main.js:140-145 | Tab never completes to `ls`, `pwd`, `exit` or `quit` |
| Completion.CompletesHe | src/js/main.js:139-145 | Tab after `he` gives `help` and prints nothing |
| Terminal.PasswordKey | src/js/main.js:77-96 | Enter with the configured password unlocks and prints the welcome; with anything else it prints the refusal and empties the field; other keys change nothing; the lock is never set |
| Terminal.Echo | src/js/main.js:163-166 | the echo line has the `command-history` class and reads the user name, `@`, the host name, then `:$ ~ ` and the command; a missing name shows as `undefined` |
| Terminal.Submit | src/js/main.js:104-112 | Enter always empties the field and resets the cursor; a blank line changes nothing else; otherwise the trimmed line is pushed to the front of the history, echoed and dispatched, and `clear` wipes everything; the history only gains that one entry at its front |
| Terminal.Older | src/js/main.js:113-118 | ArrowUp keeps the cursor in range, steps to the next older entry and shows it, and changes nothing at the oldest entry; history, output, lock and password field are untouched |
| Terminal.Newer | src/js/main.js:119-127 | ArrowDown keeps the cursor in range, steps to the next newer entry and shows it, empties the field from the newest entry, and changes nothing with no selection; history, output, lock and password field are untouched |
| Terminal.Complete | src/js/main.js:131-135 | on the session, one match replaces the field's text, several append one listing line with the field unchanged, none changes nothing; history, cursor and lock are untouched |
| Terminal.CommandKeyStep | src/js/main.js:99-136 | nothing happens while locked; once unlocked, Enter submits, ArrowUp and ArrowDown walk the history, Tab completes, Escape empties the field and resets the cursor, and any other key does nothing; the cursor stays in range; history only gains entries at its front |
| Terminal.Step | src/js/main.js:77-136 | every event keeps the cursor in range and extends the history; unlocking is one-way and prints the welcome when it happens; while locked the command side is untouched; a password-field key goes to the password handler and an edit sets that field's text only while locked; a command-field key goes to the command handler, and an edit sets the command text only once unlocked |
| Terminal.Run | src/js/main.js:77-136 | over any sequence of events the cursor stays in range, the lock stays open once opened, and the history only grows |
| Properties.WrongAttempt | src/js/main.js:90-94 | typing a wrong password and pressing Enter prints exactly the refusal and empties the field |
| Properties.WrongAttempts | src/js/main.js:77-96 | any number of wrong attempts keeps the session locked, prints one refusal each, empties the password field, and changes nothing else |
| Properties.Unlock | src/js/main.js:78-89 | typing the password and pressing Enter unlocks and prints the welcome, and no later event locks again |
| Properties.FallbackRefuses | src/js/main.js:16-25 | the built-in configuration refuses a wrong phrase with a single refusal |
| Properties.FallbackWelcome | src/js/main.js:152-160 | the built-in welcome is the banner line, the built-in greeting and the hint |
| Properties.FallbackCommands | src/js/main.js:16-25 | under the built-in configuration `whoami` and `pwd` name `operator`, and `projects`, `social` and `theme` print their notices |
| Properties.AnonymousEcho | src/js/main.js:163-166 | without a user or host name the echo reads `undefined@undefined:$ ~ ` and the command, while `whoami` prints `operator` and `pwd` prints `/home/operator` (lines 189-190 and 207-208) |
| Properties.HelpAnyCase | src/js/main.js:169-175 | `HELP`, `Help` and `help` get the same reply |
| Properties.LockedIsInert | src/js/main.js:100 | while locked, any sequence of command-field events leaves the session unchanged |
| Properties.RunPresses | src/js/main.js:113-127 | repeated presses of one arrow key on the unlocked field take the session exactly where the cursor walk goes |
| Properties.InputsPresses | src/js/main.js:113-127 | while one arrow key is pressed repeatedly, the field shows exactly the entries of the cursor walk |
| Properties.WalkOlder | src/js/main.js:113-118 | `k` ArrowUps within the history move the cursor `k` entries older and show that entry |
| Properties.WalkOlderShows | src/js/main.js:113-118 | `k` ArrowUps show the next `k` older entries in turn |
| Properties.WalkNewer | src/js/main.js:119-127 | `k` ArrowDowns move the cursor `k` entries newer, showing that entry or the empty field at no selection |
| Properties.WalkNewerShows | src/js/main.js:119-127 | the `j`-th of `k` ArrowDowns shows the entry `j + 1` places newer |
| Properties.DownFromOldest | src/js/main.js:119-127 | from the oldest entry, one ArrowDown per entry returns to no selection and an empty field |
| Properties.DownFromOldestShows | src/js/main.js:119-127 | on the way down from the oldest entry the field shows the other entries, newest last, and then the empty field |
| Properties.UpAndDown | src/js/main.js:113-127 | `n` ArrowUps then `n` ArrowDowns return to no selection with an empty field, the Ups showing the history in order and the Downs the same entries reversed |
| Properties.RoundTrip | src/js/main.js:113-127 | on the session itself, `n` ArrowUps then `n` ArrowDowns restore it with an empty field; the Ups show the history newest to oldest and the Downs show it back, ending empty |
| Properties.ListingLacksNotice | src/js/main.js:319-328 | the listing of a non-empty history never holds the empty-history notice |
| Properties.EnterSubmits | src/js/main.js:104-112 | Enter on the unlocked command field submits the line |
| Properties.SubmitHistory | src/js/main.js:105-109 | submitting a `history` line pushes it to the front, echoes it and prints the listing of the history that now holds it |
| Properties.HistoryListsItself | src/js/main.js:105-109 | Enter on a `history` line pushes it, echoes it and lists the history ending with that line numbered by the history length; the empty-history notice cannot appear this way |

## Left out

- Loading `config.json` (`fetch` and JSON parsing) is I/O: the configuration is a parameter, and the built-in fallback is the constant `Settings.Fallback`.
- The DOM wiring is not modelled: setting the page title, `updatePrompts`, registering listeners, the context-menu block, focus, and showing or hiding the two fields. Field visibility is reflected only in `Terminal.Step`, which routes each field's events to its handler only in the phase where that field is shown.
- `addOutput` creates a node and schedules a scroll with a timer. The model keeps only the appended text and its CSS class.
- `clear` rewrites the terminal's markup, including an empty prompt row. It is modelled as emptying the scrollback.
- `date` reads the clock. Its rendering is a string carried by the Enter event.
- `exit` and `quit` schedule `window.close()`. Only their printed line is modelled.
- `preventDefault` on the arrow and Tab keys is a browser concern and is not modelled.
- Text.Lower: only ASCII letters are lower-cased. JavaScript's `toLowerCase` also maps other Unicode letters; that does not matter for the command names, which are all ASCII.
- Commands.SocialUrl: `urls[platform]` is a plain-object lookup, so a platform named like an `Object.prototype` member (`constructor`, `toString`) returns that member rather than the handle. The model treats every platform other than the four as unknown.
- Commands.SocialItems: handles are strings. The truthiness test `if (handle)` on a non-string JSON value (a number, `true`, an object) is not modelled.
- Commands.Projects: each project is a `[name, description, link]` triple of strings. Shorter arrays, which would render `undefined`, and non-array entries are not modelled.
- Commands.Theme: colour values are either strings or "not a string". Only strings are printed, so the other kinds need no detail.
- A key set to JSON `null` is modelled like a missing one. The prompt echo would print `null` for a `null` user or host name where the model prints `undefined`; the other handlers treat `null` and a missing key alike.
- The item numbers in the `projects` and `history` listings are unbounded naturals. JavaScript's number precision only matters far beyond any real list length.
