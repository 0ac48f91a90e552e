# Adaptive Student Dashboard — command interpreter, in Dafny

The Adaptive Student Dashboard is a single-page React app. The user types
into a chat box and a language model answers with JSON:
`{"actions": [...], "reply": "..."}`. The app applies the actions to a
workspace of post-its, tasks, timers, widgets, calendar events and
expenses. It restyles its ambient "atmosphere", and a small companion
character ("Lenny") changes expression to match the mood of the turn.

This project models the part of `frontend/src/App.jsx` that turns a model
response into workspace changes. That part is:

- `parseResponse`: fence stripping, `JSON.parse`, and the greedy `{…}` fallback.
- The `exec` action interpreter.
- The keyword mood classifier (`MOOD_RULES`, `inferMood`) and the face lookup (`getLennyByMood`).
- The emoji guesser (`EMOJI_MAP`, `guessEmoji`).
- The weekday offsets of the date reference.
- The control flow of `callLLM`, `callAmbientLLM` and `send`.

Modules:

- `Wrappers`: `Option`.
- `Text`: trimming, ASCII lower-casing, substring search, decimal digits.
- `JsValue`: JSON/JavaScript values, with truthiness, `String()` and `Number()`.
- `Patterns`: the `/\b(w1|w2|…)\b/i` keyword regexes, decided exactly for ASCII word characters.
- `Collections`: `filter`, uniqueness of keys, small sequence identities.
- `State`: the entities, the workspace, the seeded initial state and the id invariant.
- `Mood`, `Emoji`, `Dates`, `ResponseParser`: the four pure helpers.
- `Interpreter`: `exec` and each of its commands.
- `Conversation`: the two model calls and the `send` turn.

Modelling choices:

- React state updates are applied in action order to one immutable `Workspace`. The app queues them and React runs them later; see "## Left out".
- The `adjust_ambient` merge uses the corrected clamp of the finding below, not the code as written. `Interpreter.MergeAmbientAgreesWithSource` states exactly where the two differ: a supplied clamped field that is not absent and does not convert to a number.
- `gid()` is a counter in the workspace (`nextId`, starting at 300). A generated id is `Generated(n)`, rendered as `"i" + n`.
- A property read on `null` or `undefined` throws in JavaScript. The model represents that throw explicitly:
  - A null element in the action list aborts the rest of the batch.
  - `send` then logs "Something went wrong — try again?" (`Conversation.SendLogsReplyOrApology`).
  - An `adjust_ambient` whose truthy `mood` is not a string throws inside `inferMood`, after the ambient merge.
- Mood scores are doubled so that they stay integers: a keyword match is 4 and an action boost is 3.
- `JSON.parse` is a parameter `decode: string -> Option<Value>`.
- The network outcome of a model call is a parameter: `Completed(raw)`, `Aborted` or `Failed`.
- Random post-it placement is `Scattered(origin, spread)`.
- The current date is a parameter `today`.
- The `HAS_EMOJI` Unicode property class is a parameter `pictographic`.

Where the code and its design description differ, the model follows the code:

- One null action aborts the rest of the batch.
- `split_task` on a subtask makes it both a parent and a child.
- The stems `creat`, `inspir`, `imagin`, `exhaust`, `meditat`, `mysteri` and `priorit` are wrapped in `\b…\b`. So they match only the bare stem, never a longer word such as "creative".
- The guard `du === 0 && i !== dow` in the date reference can never fire (`Dates.ZeroOffsetBranchUnreachable`).

## Model

| member | source | states |
|---|---|---|
| Dates.ThisWeekOffset | frontend/src/App.jsx:68-70 | "this <weekday>" is 0–6 days ahead, lands on that weekday, and is 0 exactly for today |
| Dates.NextWeekOffset | frontend/src/App.jsx:68-71 | "next <weekday>" is 7–13 days ahead, lands on that weekday, and is exactly a week after "this <weekday>" |
| Dates.ZeroOffsetBranchUnreachable | frontend/src/App.jsx:69-70 | the special case for a zero offset on another weekday never applies |
| Emoji.GuessWith | frontend/src/App.jsx:52-56 | empty text or text with an emoji gives ""; otherwise the result is the emoji of the first matching rule, and "" exactly when no rule matches |
| Emoji.GuessEmoji | frontend/src/App.jsx:18-56 | the same, for the 32-row emoji table |
| Emoji.EmojiNonEmpty | frontend/src/App.jsx:18-51 | every emoji in the table is non-empty, so "" always means "no guess" |
| Patterns.Matches | frontend/src/App.jsx:54 | the scan accepts exactly when some keyword occurs at some index between word boundaries, ignoring ASCII case |
| Patterns.NoMatchInEmpty | frontend/src/App.jsx:328-335 | no keyword pattern matches the empty string |
| Mood.BestIndex | frontend/src/App.jsx:330-340 | the winner is the first strictly highest positive score, and there is none when all scores are 0 |
| Mood.FirstFullScoreWins | frontend/src/App.jsx:332-339 | a first score of 7 (match plus boost) wins when no score is higher |
| Mood.ThemeOverride | frontend/src/App.jsx:343-347 | the first `change_theme` action with a mapped theme decides the mood; none when no action does |
| Mood.InferMood | frontend/src/App.jsx:327-351 | a theme override wins; otherwise the first best-scoring rule's mood; the result is null exactly when there is no override and every score is 0 |
| Mood.ProudWhenCompleting | frontend/src/App.jsx:304 | text matching the "proud" pattern in a turn that completed a task is "proud" unless a theme overrides |
| Mood.EmptyTurnHasNoMood | frontend/src/App.jsx:328-351 | `inferMood("", [])` is null |
| Mood.LennyByMood | frontend/src/App.jsx:353-355 | the face row has the requested id when one exists, else it is the "neutral" row |
| Mood.RuleMoodHasFace | frontend/src/App.jsx:277-325 | every rule's mood has a face row |
| Mood.ThemeMoodHasFace | frontend/src/App.jsx:344 | every theme-mapped mood has a face row |
| Mood.InferredMoodHasFace | frontend/src/App.jsx:277-355 | whatever mood is inferred, the face lookup finds it rather than falling back |
| ResponseParser.RemoveMarkerAbsent | frontend/src/App.jsx:144 | the global replace leaves a text without the marker unchanged |
| ResponseParser.RemoveMarkerKeepsPrefix | frontend/src/App.jsx:144 | a prefix without the marker's first character passes through the replace unchanged |
| ResponseParser.NoFenceNoChange | frontend/src/App.jsx:144 | a response without backticks is only trimmed |
| ResponseParser.FencedBodyRecovered | frontend/src/App.jsx:144 | a body wrapped in a ```` ```json ```` fence, with any white space around it, comes back exactly |
| ResponseParser.GreedyBraces | frontend/src/App.jsx:147 | the match exists exactly when some `{` precedes some `}`; it runs from the first `{` to the last `}` |
| ResponseParser.EmbeddedObjectFound | frontend/src/App.jsx:147 | an object between brace-free prose is extracted exactly |
| ResponseParser.Normalise | frontend/src/App.jsx:145 | a parsed null gives no result; `actions` is kept only if it is an array, and `reply` only if it is truthy, else "" |
| ResponseParser.ParseResponse | frontend/src/App.jsx:142-151 | "" gives null; a direct parse wins; otherwise the result comes from the greedy braces; null means both attempts failed |
| ResponseParser.NoBracesNoRecovery | frontend/src/App.jsx:146-150 | an unparseable response without a `{…}` span gives null |
| ResponseParser.ProseWrappedObjectRecovered | frontend/src/App.jsx:146-148 | an object wrapped in brace-free prose is recovered through the fallback |
| Collections.Filter | frontend/src/App.jsx:770 | the filtered list holds exactly the kept elements, and is no longer than the input |
| Collections.FilterMultiset | frontend/src/App.jsx:770 | a kept element occurs as often as in the input and a dropped one not at all |
| Collections.FilterAppend | frontend/src/App.jsx:770 | filtering a concatenation filters each part and keeps their order |
| Collections.FilterIdempotent | frontend/src/App.jsx:770 | filtering twice with one predicate is filtering once |
| State.IdText | frontend/src/App.jsx:726 | a generated id is "i" followed by the counter's decimal digits |
| State.GeneratedTextsDistinct | frontend/src/App.jsx:725-726 | distinct counter values give distinct id texts |
| State.Initial | frontend/src/App.jsx:703-724 | the seeded workspace starts the counter at 300, Lenny at "neutral", and the default ambience in range, and is well formed |
| Interpreter.CompleteTasks | frontend/src/App.jsx:769 | only `done` changes, and a task is done afterwards exactly when it was done, or when it is not a parent and its text contains the query |
| Interpreter.CompleteIdempotent | frontend/src/App.jsx:769 | completing twice with one query is completing once |
| Interpreter.DeleteTasks | frontend/src/App.jsx:770 | exactly the tasks whose text does not contain the query remain |
| Interpreter.DeleteIdempotent | frontend/src/App.jsx:770 | deleting twice with one query is deleting once |
| Interpreter.FindTask | frontend/src/App.jsx:773 | the index of the first task whose text contains the query, done or not |
| Interpreter.FindTaskReadsOnlyText | frontend/src/App.jsx:773 | the search depends on the texts only |
| Interpreter.SplitTask | frontend/src/App.jsx:771-782 | without a match nothing changes; otherwise the counter advances by min(5, number of subtasks) and the list grows by that many |
| Interpreter.SplitTaskPlacement | frontend/src/App.jsx:775-780 | the earlier tasks stay, the match is flagged as a parent, its children follow in order with fresh ids and its priority, then the rest |
| Interpreter.SplitAt | frontend/src/App.jsx:775-780 | the same placement, for a given parent index |
| Interpreter.SplitUndo | frontend/src/App.jsx:771-782 | dropping the ids a split issued gives back the original list with the parent flagged |
| Interpreter.SplitKeyed | frontend/src/App.jsx:776 | a split keeps task ids distinct and below the advanced counter |
| Interpreter.DeleteEvents | frontend/src/App.jsx:788 | exactly the events whose title does not contain the query remain |
| Interpreter.ClampAsWritten | frontend/src/App.jsx:794-796 | the clamp as written: null keeps the old value, a number lands in [0, hi], and a non-number gives NaN |
| Interpreter.NaNEscapesClamp | frontend/src/App.jsx:794 | `glowIntensity: "high"` stores NaN |
| Interpreter.ClampField | frontend/src/App.jsx:794-796 | the corrected clamp: null or a non-number keeps the old value; a number is clamped to [0, hi]; 0 is applied; an in-range old value stays in range |
| Interpreter.ClampAgreesOnNumbers | frontend/src/App.jsx:794-796 | where the clamp as written gives a number, the corrected clamp gives the same number |
| Interpreter.MergeAmbient | frontend/src/App.jsx:792-798 | panel fields are untouched; colour, particles and mood take a truthy value, else keep theirs; each numeric field is exactly `ClampField` of the supplied value, the previous value and its maximum: absent keeps, 0 applies, a non-number keeps; the range is kept |
| Interpreter.MergeAmbientIdempotent | frontend/src/App.jsx:792-798 | applying one adjustment twice is applying it once |
| Interpreter.MergeAmbientAgreesWithSource | frontend/src/App.jsx:794-796 | each clamped field of the merge equals the code's `Math.min(hi, Math.max(0, Number(v)))` exactly when the supplied value is absent or converts to a number |
| Interpreter.FieldAgreesWithSource | frontend/src/App.jsx:794-796 | the same, for one field: the corrected and the as-written clamp agree exactly when the value is absent or numeric |
| Interpreter.AdjustAmbient | frontend/src/App.jsx:791-801 | only the ambience and Lenny change; a string mood sets Lenny when it infers one; a truthy non-string mood throws |
| Interpreter.Place | frontend/src/App.jsx:767 | a non-zero numeric coordinate is used; otherwise the note is placed at random |
| Interpreter.AddPostIt | frontend/src/App.jsx:767 | one post-it is appended with the next id; a truthy content and colour are stored, else "Note" and "#fef68a"; the coordinates follow `Place`; nothing else changes; ids stay distinct |
| Interpreter.AddTask | frontend/src/App.jsx:768 | one open, top-level task is appended with the next id; a truthy text and priority are stored, else "New task" and "medium"; ids stay distinct |
| Interpreter.AddTimer | frontend/src/App.jsx:783 | one timer is appended with the next id; a non-zero `Number(minutes)` is stored, else 5; a truthy label is stored, else "Timer"; ids stay distinct |
| Interpreter.AddWidget | frontend/src/App.jsx:786 | one widget of the given kind is appended with the next id |
| Interpreter.AddEvent | frontend/src/App.jsx:787 | one event is appended with the next id; a truthy title, date, time and colour and a non-zero `Number(duration)` are stored, else "Event", today, "09:00", 60 and "#6c5ce7"; ids stay distinct |
| Interpreter.AddExpense | frontend/src/App.jsx:789 | one expense is appended with the next id; a truthy description and category and `Number(amount)` are stored, else "Expense", 0 and "other"; ids stay distinct |
| Interpreter.Step | frontend/src/App.jsx:765-802 | one action throws exactly when it is null, or is an ambient adjustment with a truthy non-string mood; the counter never goes back; an unknown type changes nothing |
| Interpreter.StepRest | frontend/src/App.jsx:784-789 | the chain from `change_theme` on throws exactly when the action throws, never moves the counter back, and ignores unknown types |
| Interpreter.StepTail | frontend/src/App.jsx:790-802 | the last four branches leave the counter alone, throw exactly for a truthy non-string mood, and ignore unknown types |
| Interpreter.Run | frontend/src/App.jsx:764-803 | a batch throws exactly when one of its actions throws; the counter never goes back; a batch of unknown types changes nothing |
| Interpreter.Exec | frontend/src/App.jsx:762-803 | a non-array is ignored; an array throws exactly when one of its actions does |
| Interpreter.RunAppend | frontend/src/App.jsx:764 | running `xs + ys` runs `xs`, then `ys` unless `xs` threw |
| Interpreter.ClearCanvasOnlyClears | frontend/src/App.jsx:802 | `clear_canvas` empties post-its, timers and widgets and nothing else |
| Interpreter.TaskCommandWithoutTextIsIgnored | frontend/src/App.jsx:769-770 | `complete_task` or `delete_task` without a truthy text does nothing |
| Interpreter.TaskCommandsDispatch | frontend/src/App.jsx:769-782 | the three task commands with a text change the task list (and, for a split, the counter) only |
| Interpreter.KnownThemeApplied | frontend/src/App.jsx:784 | a known theme sets exactly the background and the accent from the theme table |
| Interpreter.UnknownThemeIgnored | frontend/src/App.jsx:784 | an unknown theme does nothing |
| Interpreter.BudgetSet | frontend/src/App.jsx:790 | `set_budget` stores `Number(amount) \|\| 0` and nothing else |
| Interpreter.AddCommandsDispatch | frontend/src/App.jsx:767-783 | `add_postit`, `add_task` and `add_timer` are exactly `AddPostIt`, `AddTask` and `AddTimer` |
| Interpreter.LaterAddCommandsDispatch | frontend/src/App.jsx:786-789 | `add_widget` with a truthy kind, `add_event` and `add_expense` are exactly `AddWidget`, `AddEvent` and `AddExpense` |
| Interpreter.FieldCommandsDispatch | frontend/src/App.jsx:766-785 | `change_bg` with a truthy colour sets only the background; `set_greeting` with a truthy text sets only the greeting |
| Interpreter.DeleteEventDispatch | frontend/src/App.jsx:788 | `delete_event` with a truthy title replaces the events by `DeleteEvents` and changes nothing else |
| Interpreter.AmbientDispatch | frontend/src/App.jsx:791-801 | `adjust_ambient` is exactly `AdjustAmbient` |
| Interpreter.GuardedCommandIgnored | frontend/src/App.jsx:766-788 | `change_bg` without a colour, `split_task` without a text or a subtasks array, `set_greeting` without a text, `add_widget` without a kind and `delete_event` without a title change nothing |
| Interpreter.StepKeepsAmbientInRange | frontend/src/App.jsx:794-796 | no action takes a clamped field out of its range |
| Interpreter.RunKeepsAmbientInRange | frontend/src/App.jsx:764-803 | no batch takes a clamped field out of its range |
| Interpreter.StepKeepsWellFormed | frontend/src/App.jsx:765-802 | every action keeps ids distinct within each list and below the counter |
| Interpreter.RunKeepsWellFormed | frontend/src/App.jsx:764-803 | every batch keeps ids distinct within each list and below the counter |
| Conversation.CallLLM | frontend/src/App.jsx:169-186 | the reply is truthy exactly when the call was not aborted; a failure gives the rephrase message; an unparseable or empty reply gives "Done! ✨"; parsed actions are passed on |
| Conversation.CallAmbientLLM | frontend/src/App.jsx:192-200 | a parsed response is passed on; anything else gives no actions |
| Conversation.AmbientActions | frontend/src/App.jsx:828 | the filter throws exactly on a null element; otherwise it keeps exactly the `adjust_ambient` actions |
| Conversation.AmbientBatchOnlyRestyles | frontend/src/App.jsx:828-829 | a batch of ambient adjustments changes only the ambience and Lenny |
| Conversation.AmbientLane | frontend/src/App.jsx:826-831 | when the filtered ambient actions are non-empty they are executed on the workspace; otherwise the workspace is unchanged; only the ambience and Lenny change, and the range is kept |
| Conversation.WithMood | frontend/src/App.jsx:822-823 | Lenny takes the inferred mood when there is one; otherwise nothing changes |
| Conversation.Turn | frontend/src/App.jsx:816-835 | at most one assistant reply, none exactly when the call was aborted; ids and ambient ranges are kept |
| Conversation.Respond | frontend/src/App.jsx:818-835 | exactly one assistant reply. When the actions throw, the reply is the apology and the workspace is the one the throw left. Otherwise the reply is the model's text with the action count, and the workspace gets the inferred mood, then the ambient lane unless the actions already adjusted the ambience. Ids and ambient ranges are kept |
| Conversation.Send | frontend/src/App.jsx:806-839 | blank input, or input while loading, changes nothing; otherwise the trimmed text is logged, followed by at most one assistant message, and loading ends; ids and ranges are kept |
| Conversation.SendLogsReplyOrApology | frontend/src/App.jsx:815-835 | a call that was not aborted logs the user's text and then either the apology with the workspace the throw left, or the reply with its action count |
| Conversation.TurnResponds | frontend/src/App.jsx:174-185 | a call that was not aborted always yields a truthy reply, so the turn responds |
| Conversation.AbortedTurnOnlyLogs | frontend/src/App.jsx:181-183 | an aborted call only logs the user's text |
| Conversation.UnparseableTurn | frontend/src/App.jsx:177-180 | an unparseable response logs "Done! ✨" with no actions and changes at most the ambience and Lenny |
| Conversation.AmbientLaneSkipped | frontend/src/App.jsx:825-826 | when the turn already adjusted the ambience, the ambient call's outcome does not matter |
| Conversation.AmbientLaneApplied | frontend/src/App.jsx:819-829 | otherwise the ambient call's adjustments apply after the actions and the inferred mood |

## Left out

- React rendering, hooks, refs, effects, local storage and the UI panels are not modelled. Neither are manual edits (`manualAddTask`, `manualAddEvent`, `manualAddExpense`, `snap`) or the `.ics` export. They are outside the command interpreter.
- Ambient lane ordering: the lane's adjustments are applied right after their turn. In the app they arrive later and may interleave with a following turn; that concurrency is not modelled.
- The React StrictMode double-invocation of state updaters is not modelled. `gid()` is treated as a plain counter.
- The network calls (`fetchLLM`), `AbortController`, the prompts and `console.log` are not modelled. A call's outcome is the parameter `CallOutcome`.
- `JSON.parse` is the parameter `decode`. The JSON grammar itself is not modelled.
- `Math.random()` placement is left symbolic (`Scattered`). Timers counting down and the clock are not modelled. The date is the parameter `today`, and the date arithmetic is only the weekday offsets.
- The Unicode property class of `HAS_EMOJI` is the parameter `pictographic`.
- `toLowerCase` is modelled for ASCII letters only. Non-ASCII case mappings are left out.
- JsValue.ToNumber: reads optional white space, a sign, digits and one optional fraction. It does not read exponents, hexadecimal or `Infinity`, so `NumberOr` and the branches built on it differ from the code on such strings. For example, `{"type":"add_timer","minutes":"1e3"}` gives 1000 minutes in the app and 5 in the model.
- JsValue.ToStr: no exponent form for numbers. An object with its own `toString` key is not modelled as a throw. In JavaScript, `String()`, `Number()` and property-key conversion of such an object throw a TypeError, because its `toString` is not callable. The model gives "[object Object]" or NaN instead. So `{"type":"set_budget","amount":{"toString":0}}` throws in the app at line 790 but sets the budget to 0 in the model.
- JsValue.Value: `Num` holds an exact real, not an IEEE double. Rounding, `-0`, overflow to `Infinity` and a stored NaN are not represented.
- Theme lookup on inherited object keys (`themes["constructor"]`) and property reads on primitives (`"abc".length`) are not modelled. A property of a non-object reads as `undefined`.
- Entity text fields hold `String(value)` rather than the raw JSON value; the interpreter only ever reads them through `String()`.
- Budget totals and `toFixed` belong to the UI and are left out. So are `netlify/functions/llm.mjs` and `generate-hash.mjs`.
- The welcome message of the chat log is a UI constant and is left out.
- Interpreter.Step: its own contract covers only throws, the counter and unknown types. The per-command effects are stated by the dispatch lemmas (`AddCommandsDispatch`, `LaterAddCommandsDispatch`, `FieldCommandsDispatch`, `DeleteEventDispatch`, `AmbientDispatch`, `TaskCommandsDispatch`, `KnownThemeApplied`, `BudgetSet`, `ClearCanvasOnlyClears`) and by `GuardedCommandIgnored`, `TaskCommandWithoutTextIsIgnored` and `UnknownThemeIgnored` for failed guards. For `adjust_ambient` it runs the corrected clamp: where the code stores NaN for a non-numeric `glowIntensity`, `grainOpacity` or `borderWarmth`, the model keeps the previous value.
- Interpreter.Run: hands out fresh ids in action order. In the app, `exec` only queues updater functions, and React runs them later: the first queued updater may run at once, and the rest run at render, hook by hook (post-its, tasks, timers, widgets, events, expenses). So within one batch, which counter value an entity receives can differ from the model. The model does not cover that order. Like Step, Run uses the corrected clamp.
- Interpreter.Exec: uses the corrected clamp, as Run does. A non-numeric clamped field in an `adjust_ambient` keeps the previous value, where the code stores NaN.
- Interpreter.MergeAmbient: uses the corrected clamp `ClampField`. A supplied clamped field that does not convert to a number keeps its previous value, where the code stores NaN.
- Interpreter.AdjustAmbient: merges with the corrected clamp, so the NaN the code stores for a non-numeric clamped field is not represented; the ambient fields are exact reals. `MergeAmbientAgreesWithSource` states that this is the only difference in the merge.
- Interpreter.StepKeepsAmbientInRange: holds for the corrected clamp. The code as written leaves the range on a non-numeric clamped field (`NaNEscapesClamp`).
- Interpreter.RunKeepsAmbientInRange: holds for the corrected clamp only, as `StepKeepsAmbientInRange` does.
- Conversation.AmbientLane: its range preservation holds for the corrected clamp only. The code stores NaN when the ambient call returns a non-numeric clamped field.
- Conversation.Turn: runs the corrected `Exec`, so its ambient result differs from the code on a non-numeric clamped field; its range clause holds for the corrected clamp only.
- Conversation.Respond: the same difference as `Turn`.
- Conversation.Send: the same difference as `Turn`. Its bound of at most one assistant message assumes conversions do not throw (see `JsValue.ToStr`). For an action `{"type":{"toString":0}}`, the app queues the reply at line 820 and then throws at line 827 while joining the action types. It therefore logs both the reply and the apology: three messages where the model promises at most two.
- State.Initial: ids are proved distinct within each list, not across lists; the seeded ids happen to differ across lists too.

## Findings

| source | as written | input that shows it | evidently intended | confidence | as-written member | corrected member |
|---|---|---|---|---|---|---|
| frontend/src/App.jsx:794-796 | `Math.min(hi, Math.max(0, Number(v)))` whenever `v != null` | `{"type":"adjust_ambient","glowIntensity":"high"}` stores `NaN`, because `Math.max` and `Math.min` propagate NaN | a value that is not a number keeps the previous setting, so the field stays in `[0, hi]` | not executed | Interpreter.ClampAsWritten, Interpreter.NaNEscapesClamp | Interpreter.ClampField |
