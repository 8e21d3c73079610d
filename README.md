# Suzanne Blender Assistant — a verified model of its suggestion engine

The Suzanne Blender Assistant is a Blender add-on that watches what the user
does and pops up tips. A bank of rules, each with an id, a condition string,
a text, buttons and an action string, is walked in order. The first rule that
is not dismissed and whose condition tokens all pass becomes the current
suggestion. A popup gate decides when to show it. The suggestion operator
records the user's answer and runs the rule's action directives: open a URL,
invoke a Blender operator, or rewind the clocks so a follow-up tip shows sooner.
A build script substitutes `$VERSION` in the staged sources.

The Dafny project has four modules:

- `PyStr` (`pystr.dfy`): the Python string built-ins the add-on relies on.
  These are `split(sep)` with its empty pieces, `sep.join`, substring `in`,
  `startswith`, `lower`, `capitalize` and `int`. Lemmas cover split/join
  round trips and piece counts.
- `AssistantTools` (`assistant_tools.dfy`): the engine.
  - The condition evaluator `Check` follows the source's `if`/`elif` chain token by token.
  - `Scan` and `SelectFrom` are the inner and outer loops of `generate_suggestions` as functions.
  - The history refresh `Recent` builds `OPS_SEQUENCE`.
  - The class `AssistantState` holds the module globals (`LAST_CHECK`, `UI_LAST_CHECK`, `BACKGROUND_THREAD`, `STOP_SERVER`, `SUGGESTION_BANK`, `SUGGESTIONS`, `OPS_SEQUENCE`, `PREVIOUS_SUGGESTION`, `PREVIOUS_POPUP`, `DISMISSED`). Its methods update them in place and are proved against those functions.
- `AssistantUi` (`assistant_ui.dfy`): the popup gate `SceneUpdateHandler`, and the operator class `SuggestionAction`.
  - `Draw` derives the action and id from the snapshot.
  - `Execute` and its directive loop are proved against the directive semantics `Step`/`Run`.
- `Reload` (`reload.dfy`): `do_replacements_on` as a loop proved equal to `Substitute`, the split on `$VERSION` joined by the capitalized version.

### Inputs standing in for Blender, threads and time

- Blender's queries are inputs:
  - `Scene` holds the names in `bpy.data.objects` and the types of the scene's objects.
  - `Report` is what `reports_to_textblock` produced.
  - A map from operator namespace to operator names stands in for `bpy.ops`.
  - Opening a URL or invoking an operator is an `Effect` in a log.
- Wall-clock time is an integer `now` passed to each call.
- The worker thread is `Worker(alive)`. The worker body runs its single pass to completion.

### Exceptions

The engine's exceptions are part of the model, not preconditions:

- `ops_last:` on an empty history;
- `int()` of a non-numeric `elapsed:` argument;
- a report that created no text block;
- the operator log line that concatenates a string and a list.

Each exception ends the current pass, and the state it leaves is stated in the method's contract.

### Behaviour kept as written

Four behaviours follow the code as written:

- The ignore list filters nothing.
- `ops_recent:` tests membership of the whole entry, not a substring.
- `ops_last:` reads `OPS_SEQUENCE[-1]`. The list is built newest first, so this is the oldest retained entry (`OpsLastReadsOldest`).
- `PREVIOUS_SUGGESTION` changes only when there is an action.

## Model

| member | source | states |
|---|---|---|
| `PyStr.JoinSplit` | reload.py:103-106 | joining the pieces of `s.split(sep)` with `sep` gives back `s` |
| `PyStr.SplitJoin` | reload.py:103-106 | splitting a join gives back the pieces when the separator's first character occurs in none of them |
| `PyStr.SplitCountsOccurrences` | reload.py:103-104 | `split` on a separator that cannot overlap itself yields one piece more than there are occurrences |
| `PyStr.ParseDecimal` | assistant_tools.py:313-314 | `int` of a written decimal numeral gives the number back |
| `AssistantTools.IsVoid` | assistant_tools.py:363-367 | a void scene, one without objects, has in particular no camera |
| `AssistantTools.HasNoCamera` | assistant_tools.py:370-375 | true exactly when no scene object has type `"CAMERA"` |
| `AssistantTools.Check` | assistant_tools.py:300-350 | a token is reported unknown exactly when it is none of the ten known forms; only `elapsed:` and `ops_last:` tokens can raise |
| `AssistantTools.Scan` | assistant_tools.py:297-351 | the inner loop ends met only with `condition_met` still set; an exception it ends with is the one some token from position `i` on raised |
| `AssistantTools.RuleVerdict` | assistant_tools.py:297-351 | a rule's tokens are AND-combined: met exactly when every token passes |
| `AssistantTools.UnknownTokenFailsClosed` | assistant_tools.py:348-350 | an unrecognised token anywhere makes the rule unmet, whatever the other tokens say |
| `AssistantTools.EmptyTokenNeverMatches` | assistant_tools.py:295-350 | an empty token, from a doubled, leading or trailing space, makes its rule unmatchable |
| `AssistantTools.EmptyConditionNeverMatches` | assistant_tools.py:295 | a rule with an empty condition never matches, since it splits to `[""]` |
| `AssistantTools.NoPrevToken` | assistant_tools.py:303-306 | `no_prev` passes iff there is no previous suggestion, and never raises |
| `AssistantTools.PrevToken` | assistant_tools.py:307-311 | `prev:a,b,…` passes iff the previous suggestion is one of the listed ids; none never is |
| `AssistantTools.ElapsedToken` | assistant_tools.py:312-316 | `elapsed:<N>s` passes iff `now - UI_LAST_CHECK >= N` |
| `AssistantTools.ElapsedWithoutNumberRaises` | assistant_tools.py:313-314 | an `elapsed:` token with no number raises instead of failing |
| `AssistantTools.OpsLastToken` | assistant_tools.py:317-321 | on a non-empty history, `ops_last:x` passes iff `x` is a substring of the last entry |
| `AssistantTools.OpsLastEmptyHistory` | assistant_tools.py:319 | on an empty history, `ops_last:` raises |
| `AssistantTools.OpsRecentToken` | assistant_tools.py:322-331 | `ops_recent:x` passes iff `x` equals a whole history entry |
| `AssistantTools.ObjectExistsToken` | assistant_tools.py:332-335 | `object_exists:n` passes iff `n` names an object |
| `AssistantTools.NoObjectExistsToken` | assistant_tools.py:336-339 | `no_object_exists:n` passes iff `n` names no object |
| `AssistantTools.IsVoidToken` | assistant_tools.py:340-343 | `is_void` passes iff the scene has no objects |
| `AssistantTools.NoCameraToken` | assistant_tools.py:344-347 | `no_camera` passes iff no scene object is a camera |
| `AssistantTools.SelectFrom` | assistant_tools.py:288-357 | the outer loop from rule `i` on publishes only a rule at or after `i` whose id is not dismissed |
| `AssistantTools.Select` | assistant_tools.py:283-359 | a published rule belongs to the bank and is not dismissed, whatever its conditions |
| `AssistantTools.RaisedFrom` | assistant_tools.py:288-351 | an exception of the selector comes from a rule that is not dismissed, and it is the exception that rule's own tokens raised |
| `AssistantTools.SelectedIsFirstEligible` | assistant_tools.py:288-357 | a selected rule is eligible, and every rule before it is dismissed or unmet |
| `AssistantTools.FirstEligibleIsSelected` | assistant_tools.py:352-355 | the first eligible rule is the one selected, whatever the later rules say |
| `AssistantTools.NothingSelectedIffAllPassedOver` | assistant_tools.py:283-359 | nothing is published (`{}`) exactly when every rule is dismissed or unmet |
| `AssistantTools.IntroductionScenario` | assistant_tools.py:303-306 | a `no_prev` rule is offered until a suggestion has been acted on, and not after |
| `AssistantTools.ObjectScenario` | assistant_tools.py:332-335 | an `object_exists:` rule is offered exactly when the object exists |
| `AssistantTools.Recent` | assistant_tools.py:240-248 | the history holds `min(n, LAST_N_ACTIONS)` entries, `n` being the number of non-empty lines of the report, and each entry is a non-empty line of the report |
| `AssistantTools.RecentNewestFirst` | assistant_tools.py:240-246 | history entry `k` is the `k`-th recorded line counted back from the end of the report |
| `AssistantTools.OpsLastReadsOldest` | assistant_tools.py:319 | with at most 20 recorded lines, `OPS_SEQUENCE[-1]` is the first recorded line, the oldest |
| `AssistantTools.RecentKeepsIgnoredLines` | assistant_tools.py:243-245 | as written, a line the ignore list names is still recorded |
| `AssistantTools.RecentIntended` | assistant_tools.py:240-248 | the intended history holds `min(n, LAST_N_ACTIONS)` entries, `n` being the number of non-empty lines that match no ignore pattern, and records no line matching one |
| `AssistantTools.AssistantState.constructor` | assistant_tools.py:39-49 | the globals start at zero, empty or none |
| `AssistantTools.AssistantState.DismissedSuggestions` | assistant_tools.py:255-257 | the dismissed ids are exactly the keys of `DISMISSED` |
| `AssistantTools.AssistantState.SaveDismissedSuggestion` | assistant_tools.py:260-262 | `DISMISSED[id] := disk`; other entries are unchanged |
| `AssistantTools.AssistantState.DismissThenGenerate` | assistant_tools.py:288-292 | after a dismissal, a completed selection never publishes that id |
| `AssistantTools.AssistantState.GenerateSuggestions` | assistant_tools.py:273-359 | publishes the outcome of `Select` on the bank, the dismissed ids and the current facts; an exception leaves `SUGGESTIONS` as it was |
| `AssistantTools.AssistantState.SelectRule` | assistant_tools.py:283-357 | the loop over the bank, skipping dismissed ids and stopping at the first met rule or the first exception, computes `Select` |
| `AssistantTools.AssistantState.EvaluateConditions` | assistant_tools.py:295-351 | the loop over a rule's tokens computes `RuleVerdict`: met iff every token passes, or the first exception |
| `AssistantTools.AssistantState.UpdateOpsSequence` | assistant_tools.py:223-252 | not FINISHED gives an empty history; no new block raises; otherwise the history is `Recent` of the block |
| `AssistantTools.AssistantState.StartBackgroundThreadIfNone` | assistant_tools.py:160-185 | starts a worker iff not stopped, none alive, and `LAST_CHECK` is 0 or the interval has passed; a start from 0 sets `LAST_CHECK := now` |
| `AssistantTools.AssistantState.AssistantThread` | assistant_tools.py:188-220 | loads an empty bank, waits out the interval, refreshes the history and selects once; the worker is cleared, or left dead after an exception; a report without a new block leaves `OPS_SEQUENCE` empty |
| `AssistantTools.AssistantState.ThreadPass` | assistant_tools.py:200-220 | one pass sets `LAST_CHECK` to the end of the wait, refreshes the history, then publishes `Select` on it, or stops at the first exception |
| `AssistantTools.AssistantState.Register` | assistant_tools.py:384-386 | clears the stop flag |
| `AssistantTools.AssistantState.Unregister` | assistant_tools.py:389-395 | sets the stop flag and empties the suggestion and the bank |
| `AssistantUi.SceneUpdateHandler` | assistant_ui.py:45-63 | shows iff there is a suggestion, not passive, not dismissed, not the previous popup, and the interval has passed; a show sets `UI_LAST_CHECK` and `PREVIOUS_POPUP`, otherwise nothing changes |
| `AssistantUi.ConsecutiveGateCalls` | assistant_ui.py:56-63 | two gate calls in a row never both show |
| `AssistantUi.Step` | assistant_ui.py:204-223 | one directive adds at most one effect and keeps the earlier ones; a raising directive changes nothing else; only `trigger_followup` moves `LAST_CHECK`, and `UI_LAST_CHECK` either stays or takes its value |
| `AssistantUi.Run` | assistant_ui.py:203-223 | the loop keeps earlier effects and adds at most one per directive; once an exception is raised nothing more happens |
| `AssistantUi.Directives` | assistant_ui.py:196-203 | an unset or empty action gives no directive; otherwise the directives are the action's pieces, which joined with spaces give the action back |
| `AssistantUi.Performed` | assistant_ui.py:203-219 | the loop takes up every directive unless one raises |
| `AssistantUi.DotInOperatorPath` | assistant_ui.py:209-212 | the period of an `ops:` directive lies after the prefix, so the split has a second piece |
| `AssistantUi.FollowupsRewind` | assistant_ui.py:203-223 | each `trigger_followup` the loop reaches before any exception takes 10 from `LAST_CHECK`, and `UI_LAST_CHECK` ends equal to it; with none reached both are unchanged |
| `AssistantUi.FollowupStep` | assistant_ui.py:220-223 | a `trigger_followup` directive takes 10 from `LAST_CHECK` and sets `UI_LAST_CHECK` to the result |
| `AssistantUi.FollowupsRewindAll` | assistant_ui.py:203-223 | on a run that does not raise, every `trigger_followup` of the action takes 10 from `LAST_CHECK` |
| `AssistantUi.InertDirectiveSkipped` | assistant_ui.py:204-215 | an unknown directive, an `ops:` one without a period, or one with a missing namespace is skipped, and later directives still run |
| `AssistantUi.UrlDirective` | assistant_ui.py:205-206 | `url:` in any case opens the rest of the directive, case kept |
| `AssistantUi.OperatorDirective` | assistant_ui.py:207-219 | `ops:ns.name` of an existing operator invokes it and the loop goes on |
| `AssistantUi.OperatorPath` | assistant_ui.py:212-219 | an `ops:` directive names the namespace before the first period and the operator before the next |
| `AssistantUi.MissingOperatorAborts` | assistant_ui.py:216-217 | as written, an unknown operator in a known namespace raises, and no later directive runs |
| `AssistantUi.FollowupThenElapsed` | assistant_ui.py:220-223 | after a follow-up, an `elapsed:10s` condition passes at once |
| `AssistantUi.StepIntended` | assistant_ui.py:213-218 | the intended step never raises, and moves the clocks exactly as the written step does |
| `AssistantUi.RunIntended` | assistant_ui.py:203-223 | the intended directive loop never raises, keeps earlier effects and adds at most one per directive |
| `AssistantUi.MissingOperatorSkipped` | assistant_ui.py:216-218 | the intended step skips an unknown operator in a known namespace |
| `AssistantUi.IntendedAgrees` | assistant_ui.py:203-223 | where the written loop does not raise, the intended loop does the same |
| `AssistantUi.MissingOperatorStopsFollowup` | assistant_ui.py:216-223 | as written, an unknown operator before `trigger_followup` raises, and neither clock is rewound |
| `AssistantUi.IntendedPerformsFollowup` | assistant_ui.py:216-223 | on the same directives the intended loop does not raise and rewinds both clocks by 10 |
| `AssistantUi.SkipThenFollowup` | assistant_ui.py:204-223 | a skipped directive followed by `trigger_followup` leaves only the rewind |
| `AssistantUi.SuggestionAction.constructor` | assistant_ui.py:128-135 | the operator holds the snapshot of the suggestion |
| `AssistantUi.SuggestionAction.Draw` | assistant_ui.py:172-186 | no snapshot gives the form URL and no id; otherwise the id, an action unset when empty, and the dismiss box iff `"dismiss"` is in the buttons |
| `AssistantUi.SuggestionAction.Execute` | assistant_ui.py:192-225 | records a dismissal only with `dismiss` and an id; sets `PREVIOUS_SUGGESTION` only with an action and an id; the clocks, effects and abort are those of the directive loop from `LAST_CHECK := now` |
| `AssistantUi.SuggestionAction.RunDirectives` | assistant_ui.py:203-223 | the loop performs the directives in order, stopping at the first that raises |
| `Reload.Substitute` | reload.py:102-108 | a line without `$VERSION` comes back unchanged, whatever the version |
| `Reload.DoReplacementsOn` | reload.py:98-110 | the result is the line's pieces around `$VERSION` joined by the capitalized version; a line without it is returned as is |
| `Reload.SubstitutedLength` | reload.py:103-106 | the result is `len(line) - 8k + k*len(version)` long, with `k` occurrences |
| `Reload.PiecesKept` | reload.py:103-106 | splitting the result on the capitalized version gives back the pieces, in order, when it cannot be confused with the line |
| `Reload.EmptyVersionDeletes` | reload.py:98-110 | with the empty version, every `$VERSION` is deleted and the pieces are concatenated |

## Left out

- `load_suggestions` is not part of this model. It reads the CSV file and renames and removes files, so the bank is an input sequence of `Rule` records. CSV cells that are `None` are not modelled; every field is a string.
- Threads are not modelled: their start, `is_alive`, the daemon flag and `time.sleep`. The worker is a `Worker(alive)` value, and the sleep is an exact wake at `LAST_CHECK + CHECK_INTERVAL`.
- `time.time()` floats are not modelled. Each call receives one integer `now`, used for every reading the source makes in that call.
- Blender's API is not modelled.
  - `reports_to_textblock` and the text blocks are a `Report`. The block chosen as `new_texts[0]` from an unordered set difference is the first of `newTexts`. Removing the block afterwards is not modelled.
  - `bpy.data.objects` and the scene's objects are a `Scene`.
  - `bpy.ops` is a map of namespaces to operator names.
  - The URL opening and the operator calls are `Effect`s. What an invoked operator does, and any exception it raises, are not modelled.
- Logging, `VERBOSE` and the `first_live` timestamp are not modelled. They have no effect on state.
- `get_addon_preferences` is not modelled. The `passive` preference is a boolean input; a missing preferences object is not modelled.
- These UI parts are not modelled: `word_wrap`, `get_suzanne_mood` and the random icon tick, `invoke`'s dialog choice, layout drawing, icon loading, the preferences panel and handler registration. They are drawing code.
- The rest of reload.py is not modelled: copying, zipping and install paths are build I/O. `__init__.py` and `load_modules.py` are not part of this model; they are registration glue.
- Python `lower` and `capitalize` are modelled on ASCII letters only.
- `int()` is modelled as an optional sign followed by ASCII digits. Surrounding whitespace, underscores and non-ASCII digits are not modelled.
- `AssistantTools.ElapsedToken`: stated for numerals written as `str(N)` with `N >= 0`. The evaluator itself handles signs and leading zeros, but no lemma states those cases.
- `AssistantTools.OpsLastToken`: stated for a non-empty history. The empty case raises and is stated separately by `AssistantTools.OpsLastEmptyHistory`.
- `AssistantTools.OpsLastReadsOldest`: stated for at most `LAST_N_ACTIONS` recorded lines. With more, the last entry is the oldest of the 20 kept (`AssistantTools.RecentNewestFirst`).
- `AssistantUi.FollowupsRewind`: counts the follow-ups among the directives taken up (`Performed`), so a raising directive ends the count. `AssistantUi.FollowupsRewindAll` states the count over the whole action for a run that does not raise.
- `AssistantTools.RaisedFrom`: does not state that every rule before the raising one was passed over; the proof of that part is too costly for the solver. `AssistantTools.SelectedIsFirstEligible` states it for a published rule.
- `bpy.ops` existence tests: `hasattr(bpy.ops, ns)` and `hasattr(getattr(bpy.ops, ns), name)` are read as membership in the operator map, so both can be false. Blender resolves `bpy.ops` lazily, which may make these tests always true; an unknown operator would then fail only at the call on line 219, which is not modelled.
- `Reload.PiecesKept`: stated for a version whose capitalized first letter does not occur in the line. Otherwise the split of the result can differ from the pieces.

## Findings

| source | as written | input that shows it | evidently intended | confidence | as-written member | corrected member |
|---|---|---|---|---|---|---|
| assistant_tools.py:243-245 | the `continue` inside the loop over `IGNORE_ACTIONS` only moves to the next pattern, so every non-empty line is recorded | a report line `bpy.ops.object.select_all(action='TOGGLE')` | lines matching an ignore pattern are skipped | high; not executed | `AssistantTools.RecentKeepsIgnoredLines` | `AssistantTools.RecentIntended` |
| assistant_ui.py:217 | the log line adds a string to a list, which raises `TypeError` and ends `execute` | action `ops:object.no_such_op trigger_followup` when `bpy.ops.object` has no `no_such_op` | log and skip the directive, as for a missing namespace at line 214 | high; not executed | `AssistantUi.MissingOperatorStopsFollowup` | `AssistantUi.RunIntended` |

The engine and the operator keep the as-written behaviour (`Recent`, `Run`), because that is what the add-on does. The corrected definitions are `RecentIntended` and `StepIntended`/`RunIntended`. They stand beside the as-written ones with their properties proved. `AssistantUi.IntendedAgrees` shows that the corrected loop changes nothing where the written one does not raise.
