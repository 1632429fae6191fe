# InkSage core, modelled in Dafny

InkSage is a desktop writing assistant. It watches keystrokes, keeps a rolling
buffer of what the user typed, and waits for a typing pause or a trigger key. It
then asks a local language model for a continuation, and shows the suggestion in a
popup. This project models the sequential decision logic behind that, as pure
state-transition functions over immutable datatypes, and proves properties of it:

- **`TextBuffer`** (`text_buffer.dfy`): the rolling text buffer. It keeps a suffix
  of what was typed, within a capacity, and counts the characters of the session.
  The debounce timer is an "armed" flag.
- **`GenerationWorker`** (`generation_worker.dfy`): the bounded priority queue of
  generation requests. It covers admission with eviction when full, cancellation,
  one turn of the serving loop, the engine-argument defaults, and the statistics
  counters.
- **`KeyboardMonitor`** (`keyboard_monitor.dfy`): the keystroke state machine. It
  parses hotkey strings into modifier groups and a trigger key, and matches them
  against the held modifiers. A press or release changes the modifier set and the
  buffer and may raise a "hotkey" or "captured text" signal.
- **`ContextSniffer`** (`context_sniffer.dfy`): the role classifier. The first
  role in table order whose keyword occurs case-insensitively in the window title
  wins. The poll tick suppresses unchanged titles and unchanged roles.
- **`Assistant`** (`assistant.dfy`): the orchestrator. It holds the
  pause/enable/auto-completion flags and the cooldown gate on automatic requests.
  It tags priority (1 for manual, 2 for automatic) and keeps the table of
  in-flight request ids. It routes the worker's completion and failure signals.
- **`Config`** (`config.dfy`): dot-path `get`, path-creating `set` and the
  three-level role-prompt fallback, all over an in-memory tree.
- **Supporting modules:** `Wrappers` (`Option`, `Result`); `Values`, the dynamic
  values of the configuration tree and request parameters; `PyStr`, the Python
  string operations the code relies on: `strip` with Python's whitespace set,
  `lower`/`upper`, `split` on one character, and the `in` substring test.

Time is an integer clock passed to each step. A request id that `uuid4` would
draw is a parameter. The engine's answer is the parameter `EngineOutcome`: no
engine, some text (possibly empty), or an exception message. Where the Python
code would raise on an unexpected configuration shape, the model returns an `Err`
naming the exception class.

### Behaviour that is easy to misread

The model follows the code in each case:

- **Eviction direction.** Eviction sorts by `(priority, timestamp)` and pops the
  last element. Among the worst-priority entries it therefore drops the newest,
  although the comment above the sort says "oldest". See
  `GenerationWorker.EvictionDropsNewest`.
- **No FIFO on equal priority.** Requests compare by `priority` alone, because
  `timestamp` is `compare=False`. Equal priorities are therefore not served
  first-in first-out, and the model only promises that a minimal-priority request
  is served.
- **Context change keeps the buffer.** A context (role) change does not clear the
  text buffer. It only updates the current role and the status line.
- **Quick-complete ignores the pause.** The `quick_complete` hotkey calls
  `trigger_manual_completion`, which checks neither the pause flag nor the enabled
  flag. Hotkeys are matched before the keyboard monitor's pause test, so this
  hotkey of the assistant's own keyboard monitor submits requests while paused.
  That monitor cannot do so while disabled, because disabling stops it and nothing
  restarts it until the assistant is enabled again. See
  `Assistant.QuickCompleteIgnoresPause`, `Assistant.KeyboardFollowsSwitchKept` and
  `Assistant.DisabledHearsNoKeys`. The start-up script's second monitor is a
  different matter (see "Left out").
- **A list as the roles table.** When the configured roles table is a list,
  `default_role in roles` is list membership, and `roles[default_role]` is list
  indexing. An integer (or boolean) default role found in the list therefore
  selects the entry at that position, counting from the end when negative; an
  index past the end raises `IndexError`. See `Config.ListTableIndexed`.
- **Evicted ids are never cleared.** A request dropped by eviction is never
  reported by the worker. If the assistant was tracking it, its id stays in the
  table of active requests forever. See `Assistant.EvictedStaysActive`.
- **Bounds only for positive capacities.** `max_size == 0` keeps the whole string
  (`s[-0:]` is `s`), and a non-positive queue size means "unbounded". The bound
  properties are therefore stated for positive capacities only.

## Model

| member | source | states |
|---|---|---|
| PyStr.Strip | src/core/text_buffer.py:76 | `strip()` removes exactly the leading and trailing Python whitespace: the result is an infix with blank surroundings and non-blank ends, and it is empty iff the input is all whitespace |
| PyStr.StripIdempotent | src/core/text_buffer.py:76 | stripping twice gives the same as stripping once |
| PyStr.ContainsIff | src/core/context_sniffer.py:98 | the `in` test on strings holds iff the needle occurs at some position of the haystack |
| PyStr.JoinSplit | src/utils/config.py:51 | joining the pieces of `split('.')` with the separator restores the path |
| PyStr.SplitJoin | src/utils/config.py:86 | splitting a join of separator-free keys gives back the keys |
| TextBuffer.Init | src/core/text_buffer.py:22-38 | a new buffer is empty, has counted nothing, has no timer pending and satisfies the buffer invariant |
| TextBuffer.LastChars | src/core/text_buffer.py:50 | Python's `s[-m:]` is a suffix of `s`: the last `m` characters for `m >= 1`, the whole string for `m == 0`, all but the first `-m` for negative `m` |
| TextBuffer.Append | src/core/text_buffer.py:40-52 | after `append(t)`, the text is a suffix of old text plus `t` and equals it within capacity. It is exactly `max_size` long after an overflow, and never longer when `max_size >= 1`. The session count grows by `len(t)`. A timer is armed iff the text has at least `min_context_length` characters |
| TextBuffer.ResetDebounce | src/core/text_buffer.py:82-89 | after a reset a timer is pending exactly when the text has at least `min_context_length` characters; the text, settings, count and time are kept, so the buffer invariant is kept |
| TextBuffer.Backspace | src/core/text_buffer.py:54-60 | on an empty buffer nothing changes, timer included; otherwise exactly the last character goes, the timer is re-armed by the length rule, and the session count is unchanged |
| TextBuffer.Clear | src/core/text_buffer.py:62-66 | the text is empty and no timer is pending; the session count is unchanged |
| TextBuffer.Context | src/core/text_buffer.py:68-76 | the context is the whitespace-stripped text, empty iff the text is blank, and reading it changes nothing |
| TextBuffer.Fire | src/core/text_buffer.py:91-96 | when the timer runs out it is gone, and the callback receives the context iff a timer was pending, a callback is registered and the context is non-empty |
| TextBuffer.GetStats | src/core/text_buffer.py:107-112 | the statistics report the current length and the characters typed this session |
| TextBuffer.StatsCountTyped | src/core/text_buffer.py:40-112 | the reported session count grows by exactly the characters appended, and backspace, clear and firing leave it; clearing reports length 0 and appending adds at most the typed length |
| TextBuffer.OperationsPreserveValid | src/core/text_buffer.py:40-101 | append, backspace, clear and firing all keep the invariant: a pending timer implies enough context, and a positive capacity bounds the text |
| TextBuffer.FireOnce | src/core/text_buffer.py:82-96 | a timer fires at most once: a second firing delivers nothing |
| TextBuffer.AppendInPieces | src/core/text_buffer.py:43-50 | with a non-negative capacity, typing `t1` then `t2` leaves the same buffer as appending `t1 + t2` at once |
| GenerationWorker.Init | src/workers/generation_worker.py:46-65 | a new worker has an empty queue and zero counters and satisfies the capacity invariant |
| GenerationWorker.WorstIndex | src/workers/generation_worker.py:205-208 | the popped position holds an element that is maximal in `(priority, timestamp)` order |
| GenerationWorker.BestIndex | src/workers/generation_worker.py:97-99 | the dequeued position holds a minimal priority |
| GenerationWorker.RemoveLowPriority | src/workers/generation_worker.py:192-213 | eviction of a non-empty queue drops exactly one queued element, maximal in `(priority, timestamp)` order, and keeps all others; an empty queue is left alone |
| GenerationWorker.AddRequest | src/workers/generation_worker.py:167-190 | an entry is evicted iff the queue was full; the dropped entry was queued and maximal. When accepted, the queue is the old one minus the dropped entry plus the new request, and the size is announced. Under the capacity invariant the request is always accepted, even if it is the worst, and the invariant is kept |
| GenerationWorker.CancelRequest | src/workers/generation_worker.py:215-239 | the answer is true iff some queued entry had the id; every entry with that id is removed and every other entry stays as often as it was there; a size signal follows only a removal |
| GenerationWorker.CancelUnknown | src/workers/generation_worker.py:222-239 | cancelling an id that no queued entry carries answers false |
| GenerationWorker.EngineArgs | src/workers/generation_worker.py:142-148 | `max_tokens` is added only when the caller gave none: 64 for a completion, 512 otherwise; all caller parameters are kept |
| GenerationWorker.ProcessRequest | src/workers/generation_worker.py:132-165 | each request yields exactly one terminal signal for its id: "completed" with the text iff the engine returned non-empty text, "failed" otherwise, carrying the exception message when the engine raised |
| GenerationWorker.Step | src/workers/generation_worker.py:85-121 | an empty queue changes nothing. Otherwise a minimal-priority request leaves the queue, and exactly one of the processed/failed counters grows by one: processed iff the request completed. The signals are started, then the terminal signal, then the queue size. The capacity invariant is kept |
| GenerationWorker.EvictionDropsNewest | src/workers/generation_worker.py:203-208 | with two priority-2 entries queued and a priority-1 request arriving at capacity 2, the newer priority-2 entry is dropped |
| KeyboardMonitor.Init | src/core/keyboard_monitor.py:33-56 | a new monitor holds no modifiers, is neither running nor paused, and its table is the parse of the configured hotkeys |
| KeyboardMonitor.Tokens | src/core/keyboard_monitor.py:192 | a hotkey string's tokens are its `+`-separated pieces, each stripped and lower-cased |
| KeyboardMonitor.LastKeyIndex | src/core/keyboard_monitor.py:196-209 | the trigger position is the last token that is not a modifier; with none, every token is a modifier |
| KeyboardMonitor.ParseGroupsSpec | src/core/keyboard_monitor.py:196-207 | the parsing loop collects one modifier group per modifier token, in token order |
| KeyboardMonitor.ParseTriggerSpec | src/core/keyboard_monitor.py:196-209 | the parsing loop ends with the last non-modifier token as trigger |
| KeyboardMonitor.ParseHotkeySpec | src/core/keyboard_monitor.py:191-212 | a hotkey string gives a combination iff it has a non-empty non-modifier token; the combination is its modifier groups in order plus the last such token |
| KeyboardMonitor.PresentConcat | src/core/keyboard_monitor.py:190-214 | the parsed entries of a concatenation are those of each part, in order |
| KeyboardMonitor.ParseHotkeysOrder | src/core/keyboard_monitor.py:190-214 | the table follows configuration order: parsing a longer configuration appends the later entries' combinations after the earlier ones' |
| KeyboardMonitor.ParseHotkeysMembers | src/core/keyboard_monitor.py:185-214 | the parsed table holds exactly the combinations the entries parse to; entries without a trigger are left out, and every trigger is non-empty |
| KeyboardMonitor.FirstMatch | src/core/keyboard_monitor.py:149-183 | the fired combination matches (trigger key plus one held key from every group), and no earlier one in table order matches; nothing fires iff none matches |
| KeyboardMonitor.KeyToText | src/core/keyboard_monitor.py:216-221 | a character key types itself; `space`, `enter` and `tab` type `" "`, `"\n"` and `"\t"`; every other named key and a key without a character type nothing |
| KeyboardMonitor.TriggerKeysTypeWhitespace | src/core/keyboard_monitor.py:216-225 | every completion trigger key types exactly one whitespace character |
| KeyboardMonitor.HandlePress | src/core/keyboard_monitor.py:108-134 | modifier tracking happens first; a hotkey fires iff a combination matches, and it is the first; a hotkey or a paused monitor leaves the buffer alone; navigation clears; a text key appends its text and raises captured text iff it is a configured trigger key and the context is non-empty; backspace deletes |
| KeyboardMonitor.HandleRelease | src/core/keyboard_monitor.py:136-147 | a release removes the key's name (`"char"` for a non-named key) from the held set and changes nothing else |
| KeyboardMonitor.OnPress | src/core/keyboard_monitor.py:90-91 | presses reach the state machine only while the monitor runs |
| KeyboardMonitor.OnRelease | src/core/keyboard_monitor.py:93-94 | releases reach the state machine only while the monitor runs; a stopped monitor is unchanged |
| KeyboardMonitor.Start | src/core/keyboard_monitor.py:58-75 | a disabled keyboard (or missing pynput) answers false; a running one answers true at once; otherwise the answer is whether the thread and listener start, and a failed start leaves the monitor stopped. Only the running flag changes |
| KeyboardMonitor.Stop | src/core/keyboard_monitor.py:77-84 | a stopped monitor does not run |
| KeyboardMonitor.Pause | src/core/keyboard_monitor.py:86 | `pause` sets the paused flag and changes nothing else |
| KeyboardMonitor.Resume | src/core/keyboard_monitor.py:87 | `resume` clears the paused flag and changes nothing else |
| KeyboardMonitor.HeldAreModifiers | src/core/keyboard_monitor.py:112-113 | only modifier names are ever held |
| KeyboardMonitor.ReleaseCharKeepsModifiers | src/core/keyboard_monitor.py:136-147 | releasing a character key leaves the held set alone |
| KeyboardMonitor.HotkeysIgnorePause | src/core/keyboard_monitor.py:115-119 | a press fires a hotkey paused iff it fires one unpaused |
| KeyboardMonitor.HotkeyExample | src/core/keyboard_monitor.py:185-188 | `ctrl+shift+c` matches `c` with right ctrl and shift held, not with alt and shift |
| ContextSniffer.Init | src/core/context_sniffer.py:36-48 | the sniffer starts with no title seen and the default role current |
| ContextSniffer.FirstClaim | src/core/context_sniffer.py:92-104 | the chosen role claims the title (some keyword, lower-cased, occurs in the lower-cased title) and no earlier role does |
| ContextSniffer.Classify | src/core/context_sniffer.py:84-104 | the detected role is the first claiming role in table order, or the default when none claims |
| ContextSniffer.ProcessChange | src/core/context_sniffer.py:106-110 | a change is emitted iff the detected role differs from the last one, and the last role becomes the detected one |
| ContextSniffer.Tick | src/core/context_sniffer.py:70-75 | an empty or repeated title changes nothing; any other title is remembered even when the role is unchanged |
| ContextSniffer.TickRecordsClassification | src/core/context_sniffer.py:84-110 | after a new title the remembered role is that title's classification, whatever came before |
| ContextSniffer.EmptyKeywordClaimsAll | src/core/context_sniffer.py:97-98 | an empty keyword claims every title |
| ContextSniffer.FirstDefaultTitleSilent | src/core/context_sniffer.py:47-48 | a first title classified as the default role emits nothing |
| ContextSniffer.NoRepeatedChange | src/core/context_sniffer.py:106-110 | a change is not repeated, neither for the same title nor for a new title in the same role |
| ContextSniffer.RoleExample | src/core/context_sniffer.py:32-34 | a `code` role with keyword `Editor` claims `main.py - Editor` |
| Config.Lookup | src/utils/config.py:51-63 | the walk returns the value the path resolves to through dictionaries holding non-`None` values (falsy values included), or the default exactly when nothing resolves |
| Config.Get | src/utils/config.py:46-63 | `get` returns the value the dot path resolves to, or the default exactly when it resolves to nothing; a step through a non-dictionary or a missing or `None` value does not resolve |
| Config.ResolvesUnique | src/utils/config.py:55-63 | a path resolves to at most one value |
| Config.LookupResolved | src/utils/config.py:55-63 | a path that resolves reads as its value whatever the default |
| Config.LookupUnresolved | src/utils/config.py:55-63 | a path that resolves to nothing reads as the default |
| Config.LookupDefaultOnlyOnFailure | src/utils/config.py:55-63 | the default is only the answer for a path that does not resolve; any other default gives the same resolved value |
| Config.Store | src/utils/config.py:86-92 | `set` succeeds iff every existing value on the path is a dictionary. The root then gains the first key |
| Config.Set | src/utils/config.py:82-92 | `set` on a dot path succeeds iff the walk meets only dictionaries or absent keys |
| Config.StoreThenLookup | src/utils/config.py:86-92 | the stored value is read back on the same keys, with `None` reading as missing |
| Config.StoreKeepsOthers | src/utils/config.py:86-92 | every path that parts from the stored one reads as before; creating missing dictionaries changes no other reading |
| Config.SetThenGet | src/utils/config.py:82-92 | on a walkable path, `set` then `get` returns any non-`None` value stored |
| Config.In | src/utils/config.py:71 | `in` on a dictionary of the tree is key membership |
| Config.PromptOf | src/utils/config.py:72 | `.get('system_prompt', fallback)` gives the stored prompt, else the fallback, and raises on a non-dictionary |
| Config.RolesIsGet | src/utils/config.py:70 | the roles table is the `get` of `context_awareness.roles` |
| Config.DefaultRoleIsGet | src/utils/config.py:75 | the default role is the `get` of `context_awareness.default_role` |
| Config.AsIndex | src/utils/config.py:77 | an integer subscripts as itself and a boolean as 1 or 0; nothing else is an index |
| Config.ListItem | src/utils/config.py:77 | list subscription succeeds iff the index is within the list counted from either end, yields an element of the list, and otherwise raises `IndexError` |
| Config.ListItemFromEnd | src/utils/config.py:77 | a negative index reaches the same element as its non-negative counterpart |
| Config.GetRolePrompt | src/utils/config.py:65-80 | dictionary table: a known role answers with its own prompt or `""`; an unknown role falls back to a different known default role's prompt, or "You are a helpful assistant."; otherwise "You are a helpful AI assistant."; an unhashable default role raises `TypeError`. List table: a string role in it raises `TypeError`; a different default role found in it indexes the list (`IndexError` out of range, the entry's prompt otherwise) when it is an integer or boolean and raises `TypeError` otherwise; else the fixed prompt. A string table raises `TypeError` or yields the fixed prompt; any other table raises `TypeError` |
| Config.RoleConfigReads | src/utils/config.py:70-75 | a configuration holding a roles table and a default role reads them back |
| Config.ListTableIndexed | src/utils/config.py:75-77 | roles `[1, {"system_prompt": "hi"}]` with default role `1` answer "hi" for an unknown role |
| Config.ListTableOutOfRange | src/utils/config.py:75-77 | roles `[5]` with default role `5` raise `IndexError` |
| Config.ListTableNoGet | src/utils/config.py:75-77 | roles `[0]` with default role `0` raise `AttributeError` (`0.get`) |
| Assistant.PauseMonitoring | src/core/assistant.py:57-61 | pausing sets the flag, pauses the keyboard, empties the buffer and shows "Paused"; the request table is untouched |
| Assistant.ResumeMonitoring | src/core/assistant.py:63-67 | resuming always clears the pause; the keyboard resumes and "Monitoring" shows only when enabled and auto-completion is on |
| Assistant.StartMonitoring | src/core/assistant.py:69-73 | "Monitoring (role)" shows iff the keyboard agreed to start, that is, it is enabled and either already running or its listener starts; an enabled keyboard that failed to start is left stopped |
| Assistant.StopMonitoring | src/core/assistant.py:75-77 | stopping leaves the keyboard not running and shows "Paused" |
| Assistant.ToggleEnabled | src/core/assistant.py:148-153 | the switch flips and is announced first; when enabling with auto-completion on, the keyboard ends up running iff it was running or is enabled and its listener starts, and it is stopped when disabling or with auto-completion off; afterwards the keyboard runs only if enabled |
| Assistant.HandleContextChange | src/core/assistant.py:79-82 | the current role becomes the detected one, announced in capitals only when it changed; nothing else changes |
| Assistant.NewRequest | src/core/assistant.py:104-110 | a request is a completion of priority 1 when manual and 2 when automatic |
| Assistant.RequestGeneration | src/core/assistant.py:100-114 | a role-prompt lookup that raises changes nothing; the flags, clock and buffer are never touched |
| Assistant.HandleBufferReady | src/core/assistant.py:84-88 | a paused or disabled assistant, blank text, or a call inside the cooldown does nothing |
| Assistant.HandleManualTrigger | src/core/assistant.py:90-93 | a paused or disabled assistant or blank text does nothing, and the cooldown clock is never moved |
| Assistant.TriggerManualCompletion | src/core/assistant.py:155-157 | a blank buffer does nothing; otherwise its context is submitted as a manual request |
| Assistant.HandleGenerationStarted | src/core/assistant.py:119-121 | only tracked ids are announced as started |
| Assistant.HandleHotkey | src/core/assistant.py:95-98 | no action touches the buffer, and only `toggle_assistant` changes the keyboard or the switch |
| Assistant.HandleDictation | src/core/assistant.py:116-117 | the dictate action only sets the status line to "🎤 Listening..." and emits it; the buffer, queue, table and flags are kept |
| Assistant.ShowResult | src/core/assistant.py:127-135 | showing a result changes at most the status line, and raises the result's signals |
| Assistant.HandleGenerationCompleted | src/core/assistant.py:123-140 | an untracked id changes nothing; a tracked one leaves the table, its result's signals come first and "generation completed" last, and only the table and status change |
| Assistant.HandleGenerationFailed | src/core/assistant.py:142-146 | an untracked id changes nothing; a tracked one leaves the table and the status becomes "Error" |
| Assistant.RequestRecorded | src/core/assistant.py:100-114 | with a well-formed queue and a resolvable prompt, the request joins the queue with its id, text, priority and completion tag, the id is recorded as a completion, and "Thinking..." shows |
| Assistant.AutoRequestIff | src/core/assistant.py:84-88 | an automatic request is recorded iff not paused, enabled, the text is non-blank, the cooldown has passed and the prompt resolves. Once the gate is passed, the cooldown clock moves to now, even if the lookup then fails |
| Assistant.ManualBypassesCooldown | src/core/assistant.py:90-93 | inside the cooldown, where the automatic path does nothing, a manual trigger still submits at priority 1 and leaves the clock alone |
| Assistant.QuickCompleteIgnoresPause | src/core/assistant.py:155-157 | the quick-complete handler submits the context whatever the pause and enabled flags say; the hotkey of the assistant's own keyboard monitor reaches it while paused |
| Assistant.HotkeyActions | src/core/assistant.py:95-98 | `toggle_assistant` flips the switch, `dictate` only shows the listening status, other actions do nothing |
| Assistant.SingleRemoval | src/core/assistant.py:123-146 | a tracked id leaves the table at its first terminal signal; a second one of either kind changes nothing |
| Assistant.SuggestionIff | src/core/assistant.py:125-135 | a suggestion is shown iff the id was tracked as a completion and the result is not blank |
| Assistant.ResultSuggests | src/core/assistant.py:129-135 | a result's signals hold a suggestion iff the tag is the completion tag and the stripped result is not empty |
| Assistant.SuggestionIsStripped | src/core/assistant.py:127-135 | the suggestion is the stripped result followed by "Ready"; a blank result shows "No suggestion" |
| Assistant.PauseResume | src/core/assistant.py:57-67 | pause then resume of an enabled assistant leaves the keyboard unpaused, the buffer empty and the requests untouched |
| Assistant.ContextChangeKeepsRequests | src/core/assistant.py:79-82 | a role change leaves the request table, buffer and queue alone |
| Assistant.EvictedStaysActive | src/core/assistant.py:112-114 | a tracked request dropped by eviction stays in the table |
| Assistant.OnWorkerEvent | src/core/assistant.py:52-54 | a worker signal changes only the table and status; a finished or failed id leaves the table, the other signals keep it |
| Assistant.OnWorkerEvents | src/core/assistant.py:52-54 | a list of worker signals removes from the table exactly the ids reported finished or failed, and changes nothing but the table and status |
| Assistant.OnKeyPress | src/core/assistant.py:42-43 | a stopped keyboard hears nothing; a paused one never changes the buffer; the keyboard keeps running only while enabled |
| Assistant.OnKeyRelease | src/core/assistant.py:42-43 | a release raises nothing and changes only the held modifiers, which can only shrink |
| Assistant.OnDebounceFire | src/core/text_buffer.py:91-96 | the timer is gone and the text untouched afterwards; with no timer pending nothing happens |
| Assistant.OnWindowPoll | src/core/assistant.py:38 | empty or repeated titles do nothing; no tick touches the table, buffer, queue, keyboard or switch; the assistant's role keeps agreeing with the sniffer's |
| Assistant.OnWorkerTurn | src/core/assistant.py:52-54 | an empty queue does nothing; the served request's id leaves the table, and no id joins it |
| Assistant.KeyboardFollowsSwitchKept | src/core/assistant.py:57-77 | the keyboard runs only while the assistant is enabled, and every handler keeps it so |
| Assistant.DisabledHearsNoKeys | src/core/assistant.py:148-153 | with that invariant, a key press reaching the assistant's own keyboard monitor while disabled does nothing |
| Assistant.ToggleTwice | src/core/assistant.py:148-153 | toggling twice restores the switch, the pause, the table and the buffer, and the keyboard's running state: stopped for a disabled assistant, and for an enabled one with auto-completion on, running iff the second toggle's listener starts |
| Assistant.PausedKeepsBuffer | src/core/assistant.py:57-61 | while paused, key presses never change the buffer |
| Assistant.DebounceFiresOnce | src/core/text_buffer.py:82-96 | right after the debounce timer fires, another firing does nothing |
| Assistant.TurnClearsServed | src/core/assistant.py:123-146 | a worker turn on a non-empty queue serves a request whose id is then out of the table, which shrinks by one if it was tracked |

## Left out

- Threads and synchronisation are not modelled: `threading.Timer`, the worker
  `QThread` and its mutex and wait condition, the pynput listener, and the
  keyboard's producer queue. Each press, release, timer expiry, poll tick and
  worker turn is one step, in arrival order. `stop`, `join`, `cleanup` and the
  worker's `running` loop flag are left out with them.
- The debounce delay and the poll interval are not modelled. The timer is a flag
  that the next step may fire.
- Wall-clock time is an integer clock (milliseconds) passed in. The worker's
  processing time is a given elapsed amount.
- The engine (`src/core/engine.py`) is not part of this model. Its answer is a
  parameter. The engine-initialisation failure that ends `run` before the loop is
  not modelled.
- The heap's internal order is not modelled. Dequeue picks the first
  minimal-priority entry. This is one of the choices the heap may make, and
  contracts only promise minimality.
- The worker's `active_requests` set and `current_request` are left out. They
  are written during a turn and read by nothing in the core.
- `lower` and `upper` change ASCII letters only. Python's full Unicode case
  mapping is not modelled.
- Configuration loading from YAML and the singleton construction are file I/O.
  Dictionary keys are strings only. `in` on a list uses structural equality,
  without Python's `1 == True` and `0 == False`; list indexing by an integer or
  boolean is modelled.
- In `_process_context_change`, roles whose entry is not a dictionary or whose
  keywords are not strings are left out. They would raise inside the poll loop,
  which catches and sleeps. The role table is a sequence of (key, keywords)
  pairs in dictionary order.
- The sniffer's and keyboard's `enabled` configuration reads are construction
  parameters. The sniffer's `start` (which does nothing when disabled) is not
  modelled.
- KeyboardMonitor.Start: whether pynput imported (`PYNPUT_AVAILABLE`) is folded
  into the monitor's `enabled` flag. Whether starting the processor thread and
  the listener raises is a parameter (`listenerStarts`) of `Start` and of the
  handlers that reach it. The error message printed on failure is not modelled.
  A processor thread that started before the listener failed, and then exits
  because `running` is cleared, is not modelled either.
- The construction in `WritingAssistant.__init__` (building the components and
  showing "Initializing..." and "Ready") is not modelled; the state is a
  parameter of every step. The signal connections it makes are modelled by the
  `Assistant.On*` functions: each event source's step followed by the handler of
  the signal it raised. The `error_occurred` signal is never emitted by the core,
  and `print` output is not modelled.
- The hotkey table is a sequence of (action, string) pairs with distinct
  actions, in dictionary order.
- The start-up script (`src/main.py:72-76`) starts a second keyboard monitor on
  the assistant's text buffer, whatever the enabled flag says, and disabling the
  assistant stops only the assistant's own monitor. That second monitor is not
  modelled. Its `quick_complete` hotkey reaches `trigger_manual_completion`
  through the window (`src/main.py:121-122`, `src/ui/main_window.py:107-113`), so
  it still submits while the assistant is disabled. Its typing is still appended
  to the buffer while the assistant is paused or disabled.
- Config.StoreKeepsOthers: shared sub-dictionaries are not modelled. The value
  tree is a tree, but `yaml.safe_load` turns anchors and aliases into one shared
  dictionary, and `set` mutates dictionaries in place. After loading
  `a: &x {k: 1}` and `b: *x`, `set('a.k', 2)` also makes `get('b.k')` return 2,
  which the model does not show.
- Floating-point values are not modelled. YAML yields floats, and a float
  setting such as `text.buffer_size: 2000.0` would make the buffer's slice
  `self.text[-self.max_size:]` raise `TypeError`; the model's settings are
  integers.
- PII scrubbing, audio and dictation capture, the user interface, the clipboard
  and the start-up scripts are outside the core.
