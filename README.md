# Manufacturing Planner Pro page helpers, modelled in Dafny

This project models the four pieces of logic in `app.js` of the Manufacturing
Planner Pro web page that have behaviour of their own, apart from the DOM:

- **Change history** (`change_history.dfy`, module `ChangeHistory`): the
  `ChangeHistoryTracker` log of changes. The log is newest first. Each logged
  change goes in front, and the log is then cut back to 100 entries. The
  tracker is a class whose `history` field is a sequence. Its methods are
  proved against the function `Logged`. Lemmas show that after any run of
  logged changes the log holds the newest 100 of them, newest first.
- **Session timer** (`session.dfy`, module `Session`): the `SessionManager`
  idle timeout. After 30 minutes without activity the user is logged out. In
  the 5 minutes before that, the user is asked once whether to stay. The
  class fields are `lastActivity`, `warningShown` and `userStored`. The last
  one records whether local storage still holds the signed-in user's record.
  The methods are proved against the functions `Decide`, `Active` and
  `Checked`. A lemma over any sequence of events shows that there is at most
  one prompt per idle period.
- **Keyboard shortcuts** (`shortcuts.dfy`, module `Shortcuts`): `getKeyString`
  turns a key event into a combo string such as `ctrl+s`. `handleKeydown`
  looks the combo up in the fixed ten-entry table. For a key name that does not itself begin with `ctrl+`, `alt+` or
  `shift+`, the combo string is proved to read back (`ParseCombo`) into the
  event's modifiers and key name. A lemma
  states exactly which events run which action, without reference to the
  table.
- **Field validators** (`validation.dfy`, module `Validation`): the numeric
  range check, the username and password checks, and the `sanitizeInput`
  cleaner. Each check is characterised both ways: which inputs it accepts, and
  which error it gives otherwise. The cleaner's output is proved to be exactly its
  input with every `<`, `>`, `'` and `"` deleted and then trimmed; white space
  inside the text is kept. Cleaning twice is proved to equal cleaning once.

`wrappers.dfy` holds the shared `Option` type.

Time is an integer number of milliseconds passed in as `now`. The user's
answer to the session prompt is passed in as the boolean `confirmed`. The id
and timestamp of a log entry are integers supplied by the caller. `parseFloat`
is represented by its outcome, an `Option<real>`. The default upper bound
`Infinity` is represented by `None`.

## Model

| member | source | states |
|---|---|---|
| `ChangeHistory.Logged` | app.js:72-77 | the new entry is at index 0; the earlier entries follow in their original order; the length is the old length plus one, capped at 100, so only the oldest entries are dropped |
| `ChangeHistory.LogAllKeepsNewest` | app.js:62-80 | after one or more logged changes, the history is the newest 100 of (changes in reverse order, then the history first loaded) |
| `ChangeHistory.LogAllBounded` | app.js:62-80 | after one or more logged changes, the history has between 1 and 100 entries and starts with the latest change |
| `ChangeHistory.ChangeHistoryTracker.constructor` | app.js:57-60 | the tracker starts from the stored history as it is; the cap is not applied on load |
| `ChangeHistory.ChangeHistoryTracker.LogChange` | app.js:62-80 | the new history is `Logged(old history, entry)`, built from the arguments and the user's name and role; it has at most 100 entries, with this change at index 0 |
| `ChangeHistory.ChangeHistoryTracker.GetHistory` | app.js:82-84 | returns a prefix of the history: min(limit, length) entries for a non-negative limit, and all but the last |limit| for a negative one (JavaScript `slice`); the limit defaults to 20 |
| `ChangeHistory.ChangeHistoryTracker.ClearHistory` | app.js:86-89 | the history is empty afterwards |
| `Session.Decide` | app.js:29-38 | a check logs out exactly when the idle time is at least 30 minutes, whether or not a prompt was shown; it warns exactly when the idle time is in the last 5 minutes before that and no prompt was shown; otherwise it does nothing |
| `Session.RemainingMinutes` | app.js:42 | the minutes the prompt states are the remaining time rounded up, and lie between 1 and 5 inside the warning window |
| `Session.Active` | app.js:24-27 | activity sets the last-activity time to now, clears the prompt flag and leaves the stored user alone |
| `Session.Checked` | app.js:29-46 | after a check the user is still stored exactly when they were and the idle time was under 30 minutes; the last-activity time changes only through a confirmed prompt, which sets it to now and clears the flag; an unconfirmed prompt raises the flag; a check that takes no action changes nothing |
| `Session.AtMostOneWarningPerIdlePeriod` | app.js:24-46 | over any sequence of activity and checks, the prompts never outnumber the idle periods started (activity or confirmed prompts), plus one; with none started, there is at most one prompt, and none if one was already shown |
| `Session.SessionManager.constructor` | app.js:5-11 | the timer starts at the given time with no prompt shown |
| `Session.SessionManager.UpdateActivity` | app.js:24-27 | the new state is `Active(old state, now)` |
| `Session.SessionManager.CheckTimeout` | app.js:29-38 | the outcome is `Decide(now - last activity, prompt flag)` and the new state is `Checked(old state, now, answer)` |
| `Session.SessionManager.ShowWarning` | app.js:40-47 | raises the prompt flag and reports the rounded minutes left; a confirmed prompt then counts as activity at now |
| `Session.SessionManager.Logout` | app.js:49-52 | removes the stored user and changes nothing else |
| `Shortcuts.KeyName` | app.js:130-136 | `Escape` becomes `esc`, `F1` becomes `f1`, and any other key is lower-cased; the name never holds an upper-case ASCII letter |
| `Shortcuts.KeyStringShape` | app.js:123-139 | the combo string is each pressed modifier followed by `+`, in the fixed order ctrl, alt, shift, and then the key name |
| `Shortcuts.ParseKeyString` | app.js:123-139 | reading the combo string back gives the event's ctrl, alt and shift flags and its key name, so the string determines them (when the key name does not itself begin with `ctrl+`, `alt+` or `shift+`) |
| `Shortcuts.HandleKeydown` | app.js:114-121 | the default is suppressed exactly when an action runs, and that happens exactly when the combo is in the table; the action run is the table's entry for the combo |
| `Shortcuts.TableCombos` | app.js:95-106 | each of the ten table entries is the combo that the table-free description `ComboAction` maps to the same action |
| `Shortcuts.HandledEvents` | app.js:95-121 | for a key whose name (`KeyName`) does not begin with `ctrl+`, `alt+` or `shift+`: an event runs an action exactly when alt and shift are up and either ctrl is down and the key name is one of s, e, i, n, u, d, h, p, or ctrl is up and the key name is `f1` or `esc` (keys `F1`, `Escape`, and any key that lower-cases to those names); the action is the one the table names |
| `Validation.ValidateNumericInput` | app.js:228-234 | an unparsable input is refused as not a number (min defaults to 0, max to no bound); a value below min is refused first; then a value above max (when there is one); success means min <= value <= max, and the value returned is the parsed number |
| `Validation.ValidateUsername` | app.js:236-244 | accepted exactly when present, at least 3 characters long, and made only of ASCII letters, digits and `_`; a missing or short name gives the length error, and otherwise a disallowed character gives the character error |
| `Validation.ValidatePassword` | app.js:246-263 | accepted exactly when at least 8 long with an upper-case letter, a lower-case letter, a digit and one of ``!@#$%^&*(),.?":{}\|<>``; otherwise the error is the first failing check in the order length, upper, lower, digit, symbol |
| `Validation.RemoveAll` | app.js:268-269 | the result has none of the deleted characters, keeps every other character as often as the input has it, and is a subsequence of the input; an input with none of them is unchanged |
| `Validation.RemoveAllTwice` | app.js:268-269 | deleting the angle brackets and then the quotes is the same as deleting all four characters in one pass |
| `Validation.TrimKeepsContent` | app.js:270 | trimming keeps every character that is not white space, as often as the input has it |
| `Validation.TrimSlice` | app.js:270 | trimming keeps the slice between the first and last characters that are not ECMAScript white space or line terminators; everything it cuts is such a character |
| `Validation.Sanitize` | app.js:265-271 | the cleaned text is exactly the input with every `<`, `>`, `'` and `"` deleted and then trimmed, so white space inside it is kept; it holds none of those characters, has no white space at either end, is a subsequence of the input, and keeps every other non-white-space character as often as the input has it |
| `Validation.SanitizeIdempotent` | app.js:265-271 | cleaning cleaned text changes nothing |
| `Validation.SanitizeInput` | app.js:265-271 | non-text input is returned unchanged; text input comes back as text that is exactly the input with `<`, `>`, `'` and `"` deleted and then trimmed (white space inside is kept), holds none of the deleted characters, has no white space at either end, is a subsequence of the input and keeps every other non-white-space character as often as the input has it |
| `Validation.SanitizeInputIdempotent` | app.js:265-271 | cleaning any input twice is cleaning it once |

## Left out

- DOM and event wiring are not modelled: event listeners, `setInterval`, custom events, toasts, the help text and button, and injected styles. What each shortcut action does (dispatching an event, clicking the file input, `window.print`, `alert`) is represented only by the `Action` value.
- Local storage is not modelled as a store. The history is loaded into the constructor as a value, and its mirroring to storage after each change is not modelled. For the session, only whether the `currentUser` record is present is kept (`userStored`). The page reload after logout is represented by the `LogOut` outcome.
- `Session.AtMostOneWarningPerIdlePeriod`: a check that logs out reloads the page, and the reloaded page starts a new timer. Events after such a check therefore stand for no run of the page. The lemma still ranges over those sequences too; it does not count a logout as the start of a new idle period.
- `Date.now`, `new Date().toISOString()` and the random entry id are not modelled. They become integer parameters.
- `ShowWarning` uses one time for the whole prompt. The source reads the clock again for the minutes left and once more when the user answers. The time that passes while the prompt is open is therefore not modelled.
- `Shortcuts.KeyName`: lower-casing covers ASCII letters only, not the full Unicode case mapping of `toLowerCase`.
- `Validation.ValidateUsername`: the length counts Unicode scalar values, not UTF-16 code units. A character outside the Basic Multilingual Plane counts once, where the source counts it twice. Non-string inputs other than a missing username are not modelled.
- `Validation.ValidatePassword`: the length counts Unicode scalar values, not UTF-16 code units. A character outside the Basic Multilingual Plane counts once, where the source counts it twice. Non-string passwords are not modelled.
- `Validation.ValidateNumericInput`: the grammar of `parseFloat`, `NaN` bounds and `Infinity` as a parsed value are not modelled. The numbers are exact reals, not floating point.
- Limits for `getHistory` that are not integers are not modelled.
- `Shortcuts.HandleKeydown`: the lookup is membership among the table's own ten keys. The source's `this.shortcuts[key]` also finds properties inherited from `Object.prototype`. Of those, only the key values `constructor` and `__proto__` can be reached, with no modifier held; the source then suppresses the default and runs `Object()` or throws. Keyboards never produce these key values.
- `ChangeHistory.ChangeHistoryTracker.LogChange`: the user is always present. In the source a missing user makes `user.username` throw a TypeError before the entry is added, so the history is left unchanged; that error path is not modelled.
- `AutoSaveIndicator`, `PrintManager`, `PerformanceMonitor` and `ManufacturingUtils` are not part of this model. They consist of DOM updates, HTML templating, `performance.now()` timings, CSV export through an external library, and locale date formatting.
