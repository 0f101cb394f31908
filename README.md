# Luna & Energía — the rules behind the page script

`script.js` drives a static site about the moon. Most of it wires DOM
events, but a handful of its rules can be stated and proved. This project
models them in Dafny:

- the lunar-phase estimator `obtenerFaseLunar`: a scan of a table of 15
  tabulated new moons, the age modulo a 29.53-day cycle, and eight phase bins;
- `calcularProximaLunaLlena`: the first of 14 tabulated full moons after
  now, with a fallback past the end of the table;
- the days/hours/minutes/seconds countdown of `actualizarContador`;
- the day loop of `generarCalendarioLunar`;
- the contact form: `validarEmail`, the three blur checks, and the submit
  handler that writes to `localStorage`;
- the cold/warm colour toggle;
- `actualizarMenuActivo`, which highlights the menu link of the section
  being read.

Instants are integers: milliseconds since the Unix epoch. The current
instant, the page layout and the scroll position are parameters. Both
reference tables are written as millisecond constants, converted once from
the source's ISO 8601 strings with their `-03:00` offset. Every bin bound
and the 29.53-day cycle (2551392000 ms) is a whole number of milliseconds,
so the phase age is an exact integer.

JavaScript's `%` keeps the sign of the dividend. It is modelled by
`JsBuiltins.TRem`; Dafny's own `%` is Euclidean. `Math.floor(a / b)` with
`b > 0` is Dafny's `a / b`. `trim` and `\s` use the same ECMAScript set of
white-space and line-terminator characters (`JsBuiltins.IsSpace`).
`.length` counts UTF-16 code units (`JsBuiltins.Utf16Length`).

The files, one module each:

- `js_builtins.dfy`: white space, `trim`, `.length` and `%`.
- `moon_tables.dfy`: the two tables, and the proof that both ascend strictly.
- `lunar_phase.dfy`: the estimator.
- `full_moon.dfy`: the next full moon.
- `countdown.dfy`: the countdown.
- `calendar.dfy`: the calendar loop.
- `contact_form.dfy`: validation and submit.
- `theme_toggle.dfy`: the colour toggle.
- `nav_menu.dfy`: the active menu link.
- `wrappers.dfy`: `Option`.

Two behaviours of the code differ from what the comments and names
suggest. The model follows the code:

- The full-moon fallback calls `setDate(getDate() + 29.53)`. ECMAScript's
  MakeDay truncates the day number, so this adds 29 whole calendar days,
  not 29.53 days.
- The age is not always in [0, 29.53 days). For dates before the first
  tabulated new moon, the scan keeps entry 0, and the truncating `%` gives
  a negative age. That age is always classified as a new moon.

## Model

| member | source | states |
|---|---|---|
| `JsBuiltins.IsSpace` | script.js:210-213 | defines the ECMAScript white-space and line-terminator characters that `trim` removes and `\s` matches |
| `JsBuiltins.SkipSpace` | script.js:210-213 | the index `trim` starts from: every character skipped is white space and the one it stops at is not |
| `JsBuiltins.SkipSpaceBack` | script.js:210-213 | the index `trim` ends at: every character dropped from the end is white space and the one before it is not |
| `JsBuiltins.Trim` | script.js:210-213 | defines `trim` as the text between the leading and the trailing white space |
| `JsBuiltins.TrimIsInfix` | script.js:211-214 | `trim` returns a slice of its input with only white space on either side of it; the result neither starts nor ends with white space |
| `JsBuiltins.TrimEmptyIffAllSpace` | script.js:217 | a trimmed field is empty, so the submit handler treats it as missing, exactly when the raw value is all white space |
| `JsBuiltins.TrimKeeps` | script.js:252 | a value with no white space at either end is unchanged by `trim` |
| `JsBuiltins.Utf16Length` | script.js:466 | `.length` lies between the number of characters and twice that; it equals the character count exactly when no character needs a surrogate pair |
| `JsBuiltins.TRem` | script.js:130 | JavaScript's `%`: the remainder has the dividend's sign, is smaller than the divisor in magnitude, and its magnitude is the Euclidean remainder of the dividend's magnitude |
| `MoonTables.AdjacentMakesStrict` | script.js:120-126 | a sequence whose neighbours ascend is ascending everywhere |
| `MoonTables.TablesAscending` | script.js:98-124 | the 15 new moons and the 14 full moons are both strictly ascending, which the `break` at line 124 and the early return at line 38 rely on |
| `LunarPhase.Glyph` | script.js:133-141 | defines the emoji returned for each of the eight phases |
| `LunarPhase.GlyphInjective` | script.js:133-141 | different phases have different emoji, so the phase stands for what the page shows |
| `LunarPhase.Classify` | script.js:133-141 | defines the comparison chain from an age in milliseconds to a phase, bound by bound |
| `LunarPhase.CountAtMost` | script.js:133-141 | for ascending bounds, the number of bounds at or below an age is the bin the age falls in: the bound below it is at most the age, and the next bound is above it |
| `LunarPhase.BinUnique` | script.js:133-141 | the half-open bins do not overlap: only one bin index fits an age |
| `LunarPhase.ClassifyByBin` | script.js:133-141 | the comparison chain gives every age the phase of the one half-open bin `[Bounds[k-1], Bounds[k])` that contains it, so classification is total with no gaps or overlaps |
| `LunarPhase.ClassifyAtBounds` | script.js:133-141 | an age exactly on a bound goes to the next bin, one millisecond less to the bin below; ages from 28.53 days on wrap back to 🌑 |
| `LunarPhase.PriorIndex` | script.js:119-126 | when some entry is at or before the date, the chosen entry is at or before it and every later entry is after it; when none is, entry 0 is chosen |
| `LunarPhase.PriorIndexByScan` | script.js:120-126 | on an ascending table, a forward scan that stops at the first entry after the date has found the last entry at or before it (entry 0 if it stopped at once) |
| `LunarPhase.NuevaMasCercana` | script.js:119-126 | defines the new moon the age is measured from: the table entry `PriorIndex` picks |
| `LunarPhase.NuevaMasCercanaIsLastAtOrBefore` | script.js:119-126 | the nearest prior new moon is the last table entry at or before the date; it is the first entry when the date precedes the whole table |
| `LunarPhase.Age` | script.js:129-130 | defines the age as the time since that new moon, reduced by JavaScript's `%` modulo 29.53 days |
| `LunarPhase.FaseLunar` | script.js:96-142 | defines what `obtenerFaseLunar` returns for an instant: the classification of its age |
| `LunarPhase.AgeRange` | script.js:129-130 | from the first tabulated new moon on, the age lies in [0, 29.53 days); before it the age lies in (-29.53 days, 0] |
| `LunarPhase.BeforeTableIsNew` | script.js:129-133 | every date before the table is classified 🌑 |
| `LunarPhase.FaseLunarExamples` | script.js:96-141 | the first tabulated instant is 🌑, and seven days later is 🌓 |
| `LunarPhase.ObtenerFaseLunar` | script.js:96-142 | the scan with `break`, the age and the chain return the phase of the age measured from the nearest prior new moon; dates before the table give 🌑 |
| `FullMoon.FirstAfter` | script.js:36-40 | the index found is of an entry strictly after `now` with every earlier entry at or before it; `None` means no entry is after `now` |
| `FullMoon.FirstAfterIsLeast` | script.js:36-40 | on an ascending table the first entry after `now` is the least entry after it; with none, `now` is at or past the last entry |
| `FullMoon.ProximaLunaLlenaAt` | script.js:36-46 | defines what `calcularProximaLunaLlena` returns: the first tabulated full moon after `now`, else the last entry plus 29 days |
| `FullMoon.ProximaLunaLlenaSpec` | script.js:36-46 | before the last tabulated full moon, the result is the earliest tabulated full moon strictly after `now`; from then on it is the last entry plus 29 whole days |
| `FullMoon.ProximaLunaLlena` | script.js:14-47 | the loop with early return and the fallback compute that result; before the last entry it is a tabulated full moon after `now` |
| `FullMoon.FallbackInPast` | script.js:42-46 | once `now` is 29 days past the last entry, the returned "next" full moon is not after `now` |
| `FullMoon.ProximaLunaLlenaExtrapolated` | script.js:42-46 | the corrected extrapolation is always after `now`; it agrees with the source inside the table, and otherwise it is the first whole number of 29.53-day cycles past the last entry that lands after `now` |
| `Countdown.Desglose` | script.js:63-66 | for a non-negative difference, days ≥ 0, hours < 24, minutes < 60 and seconds < 60; for a negative one, days are negative and the other parts are in [-24, 0] or [-60, 0] |
| `Countdown.DivModUnique` | script.js:63-66 | a quotient and remainder in [0, m) are the floor quotient and remainder |
| `Countdown.DesgloseRecombines` | script.js:63-66 | for a non-negative difference d, days·86400000 + hours·3600000 + minutes·60000 + seconds·1000 = d − d mod 1000 |
| `Countdown.ActualizarContador` | script.js:52-66 | the counter shows the breakdown of the time from `now` to the next full moon the source computes |
| `Countdown.CountdownNonNegativeInTable` | script.js:58-66 | before the last tabulated full moon, no part of the countdown is negative |
| `Countdown.CountdownNegativeAfterFallback` | script.js:58-66 | once the 29-day fallback has passed, the countdown shows negative days |
| `Calendar.IsLeapYear` | script.js:157 | defines the Gregorian leap-year rule `Date` follows |
| `Calendar.ConstructorYear` | script.js:157 | defines the year the `Date` constructor reads: 0 to 99 mean 1900 to 1999 |
| `Calendar.DaysInMonth` | script.js:156-158 | the last day of a month is between 28 and 31: 29 only for February of a leap year as the constructor reads the year, 28 only for another February, 30 exactly for April, June, September and November |
| `Calendar.TwoDigitYears` | script.js:157 | year 0 is read as 1900, so its February has 28 days although 0 is a leap year; year 2000 keeps its 29 |
| `Calendar.GenerarCalendarioLunar` | script.js:171-188 | one cell per day 1..days-in-month, in order; cell d shows the emoji of the phase of day d's midnight; at most one cell is today, and it is the cell for today's date |
| `ContactForm.MatchesEmailPattern` | script.js:448 | defines the language of `^[^\s@]+@[^\s@]+\.[^\s@]+$`: a run of non-space, non-`@` characters, `@`, another run, `.`, and a third run |
| `ContactForm.ValidarEmail` | script.js:447-450 | defines the structural check: no white space, exactly one `@` with text before it, and a `.` after it with text on both sides |
| `ContactForm.ValidarEmailIsMatch` | script.js:447-450 | a string the checker accepts splits into the regular expression's five parts |
| `ContactForm.MatchIsValidarEmail` | script.js:447-450 | a string with the regular expression's five parts is accepted by the checker |
| `ContactForm.ValidarEmailMatchesRegex` | script.js:447-450 | no white space, exactly one `@`, a non-empty part before it, and a `.` after it with text on both sides: this holds exactly for the strings `^[^\s@]+@[^\s@]+\.[^\s@]+$` matches |
| `ContactForm.NombreValido` | script.js:465-468 | defines the name blur check: at least two UTF-16 code units once trimmed |
| `ContactForm.EmailValido` | script.js:473-476 | defines the email blur check: `validarEmail` of the trimmed value |
| `ContactForm.MensajeValido` | script.js:481-484 | defines the message blur check: at least ten UTF-16 code units once trimmed |
| `ContactForm.Enviar` | script.js:211-230 | with a trimmed name, email or message empty, storage is unchanged and the warning is shown; otherwise exactly `nombre`, `email` and `ultimoContacto` are written, every other key keeps its value, and the thank-you line names the trimmed name and email; the email's format is not checked |
| `ContactForm.ContactPage.Submit` | script.js:206-231 | the submit listener's writes to `localStorage` and to the status line leave the state `Enviar` describes |
| `ContactForm.BlurValidIsAccepted` | script.js:464-485 | values that pass the three blur checks always pass the submit check and get the thank-you line |
| `ContactForm.BlurRejectsShortName` | script.js:466 | a name of one character from the Basic Multilingual Plane is marked invalid on blur |
| `ContactForm.SubmitAcceptsRejectedEmail` | script.js:217-225 | a non-blank address without `@` fails the blur check, yet the submit handler stores it (trimmed) under `email` |
| `ContactForm.AstralNameIsLongEnough` | script.js:466 | a name of one character outside the Basic Multilingual Plane, such as a moon emoji, passes the two-character name check, because `.length` counts its two UTF-16 code units |
| `ThemeToggle.Toggled` | script.js:254-270 | defines the state after a click: warm when the trimmed card value is one of the two cold spellings, cold otherwise |
| `ThemeToggle.ToggledCanonical` | script.js:254-270 | a click lands on the warm state exactly when the trimmed card value was `#121829` or `rgb(18, 24, 41)`, and on the cold state otherwise |
| `ThemeToggle.ToggleAlternates` | script.js:254-270 | the cold state clicks to the warm one and the warm state to the cold one |
| `ThemeToggle.ToggleTwiceFromAny` | script.js:250-271 | from any starting state, the third click gives the same state as the first, and the second click always gives a different one |
| `ThemeToggle.ToggleButton.Click` | script.js:250-271 | the click handler overwrites the four custom properties, the button text and the aria label with the state `Toggled` gives |
| `JsBuiltins.IndexOf` | script.js:394 | the link `querySelector` finds is the first whose `href` is the target; no earlier link has it, and with none the index is past the end |
| `NavMenu.Step` | script.js:382-398 | defines one section's turn: when it contains the point, only the first link to it is active; otherwise the flags stay |
| `NavMenu.Visit` | script.js:382-399 | defines the pass over the sections in document order, one `Step` each |
| `NavMenu.OnlyLinkTo` | script.js:388-397 | after the clear-and-set step, exactly the first link to `#id` is active, or none if there is no such link |
| `NavMenu.LastContaining` | script.js:382-387 | the index found is of a section containing the point with no later section containing it; `None` means no section contains it |
| `NavMenu.LastContainingWins` | script.js:377-400 | after the pass over the sections, the active links are those of the last section containing `scrollY + 150`; when none contains it, the links are unchanged |
| `NavMenu.AtMostOneActive` | script.js:377-400 | when some section contains the point, at most one link is active, and it points to the last such section |
| `NavMenu.Menu.ActualizarMenuActivo` | script.js:377-400 | the nested loops over sections and links leave the flags the section-by-section pass describes |

## Left out

- DOM construction and rendering are not modelled. This covers `innerHTML`, `createElement`, class names, inline styles, the title of each calendar cell, and the month heading with its `toLocaleDateString` text and capitalisation.
- The early returns for missing DOM elements are not modelled (`getElementById` returning `null`).
- The timers are not modelled: `setInterval` for the counter, and the `setTimeout` that resets the form after five seconds.
- The clock is not modelled. Every `new Date()` is a parameter. `actualizarContador` reads the clock twice, once inside `calcularProximaLunaLlena`; the model uses one instant for both.
- `toISOString()` is not modelled. The `ultimoContacto` value is a string parameter.
- Parsing of the ISO 8601 table strings is not modelled. The tables are millisecond constants.
- Local time and time zones are not modelled. The caller gives each calendar day's local midnight. The full-moon fallback adds 29 × 86400000 ms; in a zone that changes its UTC offset within those 29 days, `setDate` would move by a different number of milliseconds.
- Double-precision arithmetic is not modelled. Ages and durations are exact integers, so rounding at an exact bin bound is not captured. `Math.floor` of a double quotient equals the integer floor for all realistic durations.
- ContactForm.Enviar: storage never fails. In a browser, `localStorage.setItem` can throw (a SecurityError when storage is blocked, a QuotaExceededError when it is full); the listener then stops after zero, one or two writes and never shows the thank-you line. `ContactForm.ContactPage.Submit` shares this gap.
- The `motivo` field is read by the submit handler and never used, so it is not a parameter.
- `NavMenu.Menu.ActualizarMenuActivo` works on `href` strings. It does not model a section without an `id` (which looks up `#null`), selector escaping of unusual ids, or fractional `scrollY`.
- Drag and drop, smooth scrolling, lazy image loading, the reading-progress bar, `verificarCompatibilidad` and the console banner are event plumbing or browser probes, and are not modelled.
- The regular expression has no `u` flag, so it runs over UTF-16 code units. Both halves of a surrogate pair fall in `[^\s@]`, so matching over whole characters gives the same answer. The white-space set is the one current Unicode places in category Zs.
- Countdown.Desglose: for a negative difference, only the signs and ranges of the four parts are stated, not how they recombine. The page shows negative differences only after the fallback has passed.

## Findings

| source | as written | input that shows it | evidently intended | confidence | as-written member | corrected member |
|---|---|---|---|---|---|---|
| script.js:42-46 | once the table is exhausted, the fallback takes a single 29-day step from the last entry (2025-12-04T23:14-03:00) | any `now` from 2026-01-02T23:14-03:00 on, e.g. 2026-01-10: the "next" full moon returned is 2026-01-02T23:14-03:00, in the past, and the counter shows negative days | the first extrapolated full moon after `now`, in whole 29.53-day cycles past the last entry | high (not executed) | `FullMoon.FallbackInPast` | `FullMoon.ProximaLunaLlenaExtrapolated` |

The page model keeps the source's behaviour. `FullMoon.ProximaLunaLlena`
and `Countdown.ActualizarContador` use the as-written fallback, because
that is what the page does. The corrected definition stands beside them,
with its property proved.
