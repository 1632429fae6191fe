/** The orchestrator: the assistant's own flags, the cooldown gate in front of
    automatic requests, the table of requests it is waiting for, and the routing
    of the worker's signals to the suggestion popup and the status line. Every
    handler is a pure step returning the new state and the signals it emitted.
    The clock is an integer (milliseconds) passed in, and the fresh request id
    that `uuid4` would produce is a parameter. */
module Assistant {
  import opened Wrappers
  import opened Values
  import PyStr
  import TextBuffer
  import KeyboardMonitor
  import GenerationWorker
  import ContextSniffer
  import Config

  /** The tag recorded for every request the assistant itself submits. */
  const CompletionTag: string := "completion"
  const ManualPriority: int := 1
  const AutoPriority: int := 2

  datatype State = State(
    enabled: bool,
    autoCompletion: bool,
    paused: bool,
    lastSuggestion: int,
    cooldown: int,
    active: map<string, string>,
    currentRole: string,
    status: string,
    config: Value,
    buffer: TextBuffer.Buffer,
    keyboard: KeyboardMonitor.Monitor,
    worker: GenerationWorker.Worker,
    sniffer: ContextSniffer.Sniffer)

  /** The assistant's signals. */
  datatype Output =
    | SuggestionReady(text: string)
    | StatusChanged(message: string)
    | GenerationStarted
    | GenerationCompleted

  /** A handler's effect: the next state and the signals emitted, in order. */
  datatype Reaction = Reaction(state: State, out: seq<Output>)

  /** Doing nothing. */
  function Ignore(a: State): Reaction {
    Reaction(a, [])
  }

  /** `_update_status`: remember the message and announce it. */
  function UpdateStatus(a: State, msg: string): Reaction {
    Reaction(a.(status := msg), [StatusChanged(msg)])
  }

  /** One reaction after another: the second's state, both outputs in order. */
  function Then(first: Reaction, second: Reaction): Reaction {
    Reaction(second.state, first.out + second.out)
  }

  // ---------------------------------------------------------------------------
  // Monitoring flags
  // ---------------------------------------------------------------------------

  /** `pause_monitoring`. */
  function PauseMonitoring(a: State): (r: Reaction)
    ensures r.state.paused && r.state.keyboard.paused
    ensures r.state.buffer == TextBuffer.Clear(a.buffer)
    ensures r.state.active == a.active && r.state.worker == a.worker && r.state.enabled == a.enabled
    ensures r.out == [StatusChanged("Paused")]
  {
    UpdateStatus(a.(
      paused := true,
      keyboard := KeyboardMonitor.Pause(a.keyboard),
      buffer := TextBuffer.Clear(a.buffer)), "Paused")
  }

  /** `resume_monitoring`: the pause always ends; the keyboard resumes only when the
      assistant and auto-completion are both on. */
  function ResumeMonitoring(a: State): (r: Reaction)
    ensures !r.state.paused
    ensures r.state.buffer == a.buffer && r.state.active == a.active && r.state.enabled == a.enabled
    ensures a.enabled && a.autoCompletion ==> !r.state.keyboard.paused && r.out == [StatusChanged("Monitoring")]
    ensures !(a.enabled && a.autoCompletion) ==> r.state == a.(paused := false) && r.out == []
  {
    var a1 := a.(paused := false);
    if a.enabled && a.autoCompletion then
      UpdateStatus(a1.(keyboard := KeyboardMonitor.Resume(a1.keyboard)), "Monitoring")
    else Ignore(a1)
  }

  /** `_start_monitoring`: a status line only if the keyboard agreed to start;
      `listenerStarts` is whether starting its listener succeeds. */
  function StartMonitoring(a: State, listenerStarts: bool): (r: Reaction)
    ensures var started := a.keyboard.enabled && (a.keyboard.running || listenerStarts);
            && (started ==> r.out == [StatusChanged("Monitoring (" + a.currentRole + ")")])
            && (!started ==> r.out == [])
            && (!started && a.keyboard.enabled ==> !r.state.keyboard.running)
    ensures r.state.keyboard.running <==> a.keyboard.running || (a.keyboard.enabled && listenerStarts)
    ensures r.state.keyboard == a.keyboard.(running := r.state.keyboard.running)
    ensures r.state.active == a.active && r.state.enabled == a.enabled && r.state.paused == a.paused
    ensures a.enabled ==> KeyboardFollowsSwitch(r.state)
  {
    var started := KeyboardMonitor.Start(a.keyboard, listenerStarts);
    var a1 := a.(keyboard := started.0);
    if started.1 then UpdateStatus(a1, "Monitoring (" + a.currentRole + ")") else Ignore(a1)
  }

  /** `_stop_monitoring`. */
  function StopMonitoring(a: State): (r: Reaction)
    ensures !r.state.keyboard.running
    ensures r.out == [StatusChanged("Paused")]
    ensures r.state.active == a.active && r.state.enabled == a.enabled && r.state.paused == a.paused
  {
    UpdateStatus(a.(keyboard := KeyboardMonitor.Stop(a.keyboard)), "Paused")
  }

  /** `toggle_enabled`: flip the switch, announce it, then start or stop the keyboard. */
  function ToggleEnabled(a: State, listenerStarts: bool): (r: Reaction)
    ensures r.state.enabled == !a.enabled
    ensures |r.out| >= 1 && r.out[0] == StatusChanged(if a.enabled then "Assistant Disabled" else "Assistant Enabled")
    ensures !a.enabled && a.autoCompletion ==>
              (r.state.keyboard.running <==> a.keyboard.running || (a.keyboard.enabled && listenerStarts))
    ensures !(!a.enabled && a.autoCompletion) ==> !r.state.keyboard.running
    ensures r.state.active == a.active && r.state.paused == a.paused && r.state.buffer == a.buffer
    ensures r.state.autoCompletion == a.autoCompletion && r.state.keyboard.enabled == a.keyboard.enabled
    ensures KeyboardFollowsSwitch(r.state)
  {
    var a1 := a.(enabled := !a.enabled);
    var announced := UpdateStatus(a1, if a1.enabled then "Assistant Enabled" else "Assistant Disabled");
    if a1.enabled && a1.autoCompletion then Then(announced, StartMonitoring(announced.state, listenerStarts))
    else Then(announced, StopMonitoring(announced.state))
  }

  /** `_handle_context_change`: adopt a different role and announce it in capitals. */
  function HandleContextChange(a: State, title: string, role: string): (r: Reaction)
    ensures r.state.currentRole == role
    ensures a.currentRole == role ==> r == Ignore(a)
    ensures a.currentRole != role ==> r.out == [StatusChanged("Role: " + PyStr.Upper(role))]
    ensures r.state == a.(currentRole := role, status := r.state.status)
  {
    if a.currentRole != role then UpdateStatus(a.(currentRole := role), "Role: " + PyStr.Upper(role))
    else Ignore(a)
  }

  // ---------------------------------------------------------------------------
  // Submitting requests
  // ---------------------------------------------------------------------------

  /** The request `_request_generation` builds: a completion, priority 1 when manual
      and 2 otherwise, no parameters, stamped with the clock. */
  function NewRequest(id: string, text: string, systemPrompt: Value, manual: bool, now: int): (req: GenerationWorker.Request)
    ensures req.id == id && req.prompt == text && req.systemPrompt == systemPrompt
    ensures req.priority == (if manual then ManualPriority else AutoPriority)
    ensures req.kind == CompletionTag && req.parameters == map[] && req.timestamp == now
  {
    GenerationWorker.Request(if manual then ManualPriority else AutoPriority, id, text, systemPrompt,
                             CompletionTag, map[], now)
  }

  /** `_request_generation`: look up the role's prompt (a lookup that raises ends
      the handler with nothing changed), submit the request, and record its id as a
      completion only if the worker took it. */
  function RequestGeneration(a: State, text: string, manual: bool, id: string, now: int): (r: Reaction)
    ensures Config.GetRolePrompt(a.config, a.currentRole).Err? ==> r == Ignore(a)
    ensures r.state.lastSuggestion == a.lastSuggestion && r.state.paused == a.paused
    ensures r.state.enabled == a.enabled && r.state.buffer == a.buffer && r.state.currentRole == a.currentRole
    ensures r.state.keyboard == a.keyboard
  {
    match Config.GetRolePrompt(a.config, a.currentRole)
    case Err(_) => Ignore(a)
    case Ok(systemPrompt) =>
      var admission := GenerationWorker.AddRequest(a.worker, NewRequest(id, text, systemPrompt, manual, now));
      var a1 := a.(worker := admission.worker);
      if admission.accepted then UpdateStatus(a1.(active := a1.active[id := CompletionTag]), "Thinking...")
      else Ignore(a1)
  }

  /** `_handle_buffer_ready`: the automatic path. Paused, disabled, blank text or a
      call inside the cooldown does nothing; otherwise the clock is remembered
      before the request is made. */
  function HandleBufferReady(a: State, text: string, now: int, id: string): (r: Reaction)
    ensures a.paused || !a.enabled || PyStr.IsBlank(text) || now - a.lastSuggestion < a.cooldown ==> r == Ignore(a)
  {
    if a.paused || !a.enabled || PyStr.Strip(text) == "" then Ignore(a)
    else if now - a.lastSuggestion < a.cooldown then Ignore(a)
    else RequestGeneration(a.(lastSuggestion := now), text, false, id, now)
  }

  /** `_handle_manual_trigger`: the keyboard's captured text; no cooldown. */
  function HandleManualTrigger(a: State, text: string, now: int, id: string): (r: Reaction)
    ensures a.paused || !a.enabled || PyStr.IsBlank(text) ==> r == Ignore(a)
    ensures r.state.lastSuggestion == a.lastSuggestion
  {
    if a.paused then Ignore(a)
    else if a.enabled && PyStr.Strip(text) != "" then RequestGeneration(a, text, true, id, now)
    else Ignore(a)
  }

  /** `trigger_manual_completion`: the current context, as a manual request, when not
      empty; it consults neither the pause nor the enabled flag. */
  function TriggerManualCompletion(a: State, now: int, id: string): (r: Reaction)
    ensures PyStr.IsBlank(a.buffer.text) ==> r == Ignore(a)
    ensures !PyStr.IsBlank(a.buffer.text) ==> r == RequestGeneration(a, TextBuffer.Context(a.buffer), true, id, now)
  {
    var context := TextBuffer.Context(a.buffer);
    if context != "" then RequestGeneration(a, context, true, id, now) else Ignore(a)
  }

  /** `_handle_dictation`: only a status line. */
  function HandleDictation(a: State): (r: Reaction)
    ensures r.state.status == "\U{1F3A4} Listening..."
    ensures r.state == a.(status := r.state.status)
    ensures r.out == [StatusChanged(r.state.status)]
  {
    UpdateStatus(a, "\U{1F3A4} Listening...")
  }

  /** `_handle_hotkey`: dispatch on the action name; unknown actions do nothing. */
  function HandleHotkey(a: State, action: string, now: int, id: string, listenerStarts: bool): (r: Reaction)
    ensures action != "toggle_assistant" ==> r.state.keyboard == a.keyboard && r.state.enabled == a.enabled
    ensures r.state.buffer == a.buffer
  {
    if action == "toggle_assistant" then ToggleEnabled(a, listenerStarts)
    else if action == "quick_complete" then TriggerManualCompletion(a, now, id)
    else if action == "dictate" then HandleDictation(a)
    else Ignore(a)
  }

  // ---------------------------------------------------------------------------
  // Worker signals
  // ---------------------------------------------------------------------------

  /** `_handle_generation_started`: only tracked requests are announced. */
  function HandleGenerationStarted(a: State, id: string): (r: Reaction)
    ensures r.state == a
    ensures r.out == if id in a.active then [GenerationStarted] else []
  {
    if id in a.active then Reaction(a, [GenerationStarted]) else Ignore(a)
  }

  /** The signals a finished request raises before `generation_completed`, given
      its stripped result: a completion with a non-empty one becomes a suggestion,
      an empty one reports "No suggestion", any other tag raises nothing. */
  function ResultSignals(tag: string, clean: string): seq<Output> {
    if tag != CompletionTag then []
    else if clean != "" then [SuggestionReady(clean), StatusChanged("Ready")]
    else [StatusChanged("No suggestion")]
  }

  /** What a finished request shows: its signals, with the status line following
      the last status signal among them. */
  function ShowResult(a: State, tag: string, result: string): (r: Reaction)
    ensures r.state.(status := a.status) == a
    ensures r.out == ResultSignals(tag, PyStr.Strip(result))
  {
    var clean := PyStr.Strip(result);
    if tag != CompletionTag then Ignore(a)
    else if clean != "" then Reaction(a.(status := "Ready"), [SuggestionReady(clean), StatusChanged("Ready")])
    else UpdateStatus(a, "No suggestion")
  }

  /** `_handle_generation_completed`: untracked ids are ignored; a tracked id is
      removed from the table and its result shown. */
  function HandleGenerationCompleted(a: State, id: string, result: string): (r: Reaction)
    ensures id !in a.active ==> r == Ignore(a)
    ensures id in a.active ==> r.state.active == a.active - {id}
    ensures id in a.active ==> |r.out| >= 1 && r.out[|r.out| - 1] == GenerationCompleted
    ensures id in a.active ==> r.out == ResultSignals(a.active[id], PyStr.Strip(result)) + [GenerationCompleted]
    ensures r.state.(active := a.active, status := a.status) == a
  {
    if id !in a.active then Ignore(a)
    else
      var shown := ShowResult(a.(active := a.active - {id}), a.active[id], result);
      Reaction(shown.state, shown.out + [GenerationCompleted])
  }

  /** `_handle_generation_failed`: a tracked id is removed and the status shows the error. */
  function HandleGenerationFailed(a: State, id: string, error: string): (r: Reaction)
    ensures id !in a.active ==> r == Ignore(a)
    ensures id in a.active ==> r.state == a.(active := a.active - {id}, status := "Error")
    ensures id in a.active ==> r.out == [StatusChanged("Error")]
  {
    if id in a.active then UpdateStatus(a.(active := a.active - {id}), "Error") else Ignore(a)
  }

  /** The connections to the worker's signals, one signal at a time: only the
      request table and the status line can change, and a terminal signal takes
      its id out of the table. */
  function OnWorkerEvent(a: State, ev: GenerationWorker.Event): (r: Reaction)
    ensures r.state == a.(active := r.state.active, status := r.state.status)
    ensures ev.Completed? || ev.Failed? ==> r.state.active == a.active - {ev.id}
    ensures ev.Started? || ev.QueueStatus? ==> r.state.active == a.active
  {
    match ev
    case Started(id) => HandleGenerationStarted(a, id)
    case Completed(id, result) => HandleGenerationCompleted(a, id, result)
    case Failed(id, error) => HandleGenerationFailed(a, id, error)
    case QueueStatus(_) => Ignore(a)
  }

  /** The ids that a list of worker signals reports as finished or failed. */
  function TerminalIds(evs: seq<GenerationWorker.Event>): set<string> {
    set i | 0 <= i < |evs| && (evs[i].Completed? || evs[i].Failed?) :: evs[i].id
  }

  /** A list of worker signals, handled in order: the table loses exactly the ids
      reported as finished or failed, and nothing but the status line else changes. */
  function OnWorkerEvents(a: State, evs: seq<GenerationWorker.Event>): (r: Reaction)
    ensures r.state == a.(active := r.state.active, status := r.state.status)
    ensures r.state.active == a.active - TerminalIds(evs)
    decreases |evs|
  {
    if evs == [] then Ignore(a)
    else
      var first := OnWorkerEvent(a, evs[0]);
      assert TerminalIds(evs) == TerminalIds(evs[..1]) + TerminalIds(evs[1..]) by {
        TerminalIdsSplit(evs);
      }
      Then(first, OnWorkerEvents(first.state, evs[1..]))
  }

  /** The terminal ids of a list are those of its head and of its tail. */
  lemma TerminalIdsSplit(evs: seq<GenerationWorker.Event>)
    requires evs != []
    ensures TerminalIds(evs) == TerminalIds(evs[..1]) + TerminalIds(evs[1..])
    ensures TerminalIds(evs[..1]) == if evs[0].Completed? || evs[0].Failed? then {evs[0].id} else {}
  {
    forall x | x in TerminalIds(evs)
      ensures x in TerminalIds(evs[..1]) + TerminalIds(evs[1..])
    {
      var i :| 0 <= i < |evs| && (evs[i].Completed? || evs[i].Failed?) && evs[i].id == x;
      if i == 0 {
        assert evs[..1][0] == evs[0];
      } else {
        assert evs[1..][i - 1] == evs[i];
      }
    }
    forall x | x in TerminalIds(evs[1..])
      ensures x in TerminalIds(evs)
    {
      var i :| 0 <= i < |evs[1..]| && (evs[1..][i].Completed? || evs[1..][i].Failed?) && evs[1..][i].id == x;
      assert evs[i + 1] == evs[1..][i];
    }
  }

  // ---------------------------------------------------------------------------
  // Event sources
  // ---------------------------------------------------------------------------

  /** A key press through the keyboard monitor, and the handler of the signal it
      raised. A stopped keyboard hears nothing, and a paused one never changes the
      buffer, whatever hotkey fires. */
  function OnKeyPress(a: State, key: KeyboardMonitor.Key, now: int, id: string, listenerStarts: bool): (r: Reaction)
    ensures !a.keyboard.running ==> r == Ignore(a)
    ensures a.keyboard.paused ==> r.state.buffer == a.buffer
    ensures KeyboardFollowsSwitch(a) ==> KeyboardFollowsSwitch(r.state)
  {
    var press := KeyboardMonitor.OnPress(a.keyboard, a.buffer, key, now);
    var a1 := a.(keyboard := press.monitor, buffer := press.buffer);
    match press.signal
    case None => Ignore(a1)
    case Some(HotkeyTriggered(action)) => HandleHotkey(a1, action, now, id, listenerStarts)
    case Some(TextCaptured(text)) => HandleManualTrigger(a1, text, now, id)
  }

  /** A key release: only the held modifiers can change, and only by losing one. */
  function OnKeyRelease(a: State, key: KeyboardMonitor.Key): (r: Reaction)
    ensures r.out == [] && r.state == a.(keyboard := r.state.keyboard)
    ensures r.state.keyboard.mods <= a.keyboard.mods
    ensures r.state.keyboard.running == a.keyboard.running
  {
    Ignore(a.(keyboard := KeyboardMonitor.OnRelease(a.keyboard, key)))
  }

  /** The debounce timer running out; the buffer's callback is this assistant's
      handler. The timer is gone afterwards and the text is untouched; with no
      timer pending nothing happens. */
  function OnDebounceFire(a: State, now: int, id: string): (r: Reaction)
    ensures r.state.buffer == a.buffer.(timerArmed := false)
    ensures !a.buffer.timerArmed ==> r == Ignore(a)
    ensures r.state.keyboard == a.keyboard && r.state.enabled == a.enabled
  {
    var fired := TextBuffer.Fire(a.buffer, true);
    var a1 := a.(buffer := fired.0);
    match fired.1
    case None => Ignore(a1)
    case Some(context) => HandleBufferReady(a1, context, now, id)
  }

  /** A tick of the window sniffer. Empty and repeated titles do nothing; no tick
      touches the requests, the buffer or the queue; and an assistant whose role
      agrees with the sniffer's keeps agreeing. */
  function OnWindowPoll(a: State, title: string): (r: Reaction)
    ensures title == "" || title == a.sniffer.lastTitle ==> r == Ignore(a)
    ensures r.state.active == a.active && r.state.buffer == a.buffer && r.state.worker == a.worker
    ensures r.state.keyboard == a.keyboard && r.state.enabled == a.enabled
    ensures a.currentRole == a.sniffer.lastRole ==> r.state.currentRole == r.state.sniffer.lastRole
  {
    var tick := ContextSniffer.Tick(a.sniffer, title);
    var a1 := a.(sniffer := tick.0);
    match tick.1
    case None => Ignore(a1)
    case Some(change) => HandleContextChange(a1, change.title, change.role)
  }

  /** A turn of the worker, and the handlers of the signals it raised: the request
      served leaves the table, and no id joins it. */
  function OnWorkerTurn(a: State, outcome: GenerationWorker.EngineOutcome, elapsed: nat): (r: Reaction)
    ensures a.worker.queue == [] ==> r == Ignore(a)
    ensures var turn := GenerationWorker.Step(a.worker, outcome, elapsed);
            && r.state.worker == turn.worker
            && (turn.served.Some? ==> r.state.active == a.active - {turn.served.value.id})
            && r.state.active.Keys <= a.active.Keys
    ensures r.state.keyboard == a.keyboard && r.state.enabled == a.enabled
  {
    var turn := GenerationWorker.Step(a.worker, outcome, elapsed);
    assert turn.served.Some? ==> TerminalIds(turn.events) == {turn.served.value.id} by {
      if turn.served.Some? {
        var evs := turn.events;
        assert evs[1].id == turn.served.value.id && (evs[1].Completed? || evs[1].Failed?);
        assert forall i :: 0 <= i < |evs| && i != 1 ==> !(evs[i].Completed? || evs[i].Failed?);
      }
    }
    OnWorkerEvents(a.(worker := turn.worker), turn.events)
  }

  // ---------------------------------------------------------------------------
  // Properties
  // ---------------------------------------------------------------------------

  /** What `_request_generation` did to the queue: a request with the given id,
      text, priority and the completion tag joined it. */
  predicate Submitted(before: GenerationWorker.Worker, after: GenerationWorker.Worker,
                      id: string, text: string, priority: int)
  {
    exists req :: req in after.queue && req.id == id && req.prompt == text
      && req.priority == priority && req.kind == CompletionTag
      && multiset(after.queue) <= multiset(before.queue) + multiset{req}
  }

  /** With a well-formed queue and a role prompt that resolves, a request is always
      taken, recorded as a completion, and announced. */
  lemma {:induction false} RequestRecorded(a: State, text: string, manual: bool, id: string, now: int)
    requires GenerationWorker.Valid(a.worker)
    requires Config.GetRolePrompt(a.config, a.currentRole).Ok?
    ensures var r := RequestGeneration(a, text, manual, id, now);
            && r.state.active == a.active[id := CompletionTag]
            && r.out == [StatusChanged("Thinking...")]
            && GenerationWorker.Valid(r.state.worker)
            && Submitted(a.worker, r.state.worker, id, text, if manual then ManualPriority else AutoPriority)
  {
    var sp := Config.GetRolePrompt(a.config, a.currentRole).value;
    var req := NewRequest(id, text, sp, manual, now);
    var adm := GenerationWorker.AddRequest(a.worker, req);
    assert adm.accepted;
    assert multiset(adm.worker.queue)[req] > 0;
    assert req in adm.worker.queue;
    assert multiset(adm.worker.queue) <= multiset(a.worker.queue) + multiset{req};
  }

  /** The cooldown gate: an automatic request is made exactly when the assistant is
      running, not paused, the text is not blank, the cooldown has passed and the
      role prompt resolves; the gate then moves to `now` even if the lookup fails.
      (A closed gate changes nothing at all, as `HandleBufferReady` states.) */
  lemma AutoRequestIff(a: State, text: string, now: int, id: string)
    requires GenerationWorker.Valid(a.worker)
    requires id !in a.active
    ensures var r := HandleBufferReady(a, text, now, id);
            var gateOpen := !a.paused && a.enabled && !PyStr.IsBlank(text) && now - a.lastSuggestion >= a.cooldown;
            && (id in r.state.active <==> gateOpen && Config.GetRolePrompt(a.config, a.currentRole).Ok?)
            && (gateOpen ==> r.state.lastSuggestion == now)
  {
    var r := HandleBufferReady(a, text, now, id);
    if !a.paused && a.enabled && !PyStr.IsBlank(text) && now - a.lastSuggestion >= a.cooldown {
      var a1 := a.(lastSuggestion := now);
      assert r == RequestGeneration(a1, text, false, id, now);
      if Config.GetRolePrompt(a1.config, a1.currentRole).Ok? {
        RequestRecorded(a1, text, false, id, now);
      } else {
        assert r == Ignore(a1);
      }
    }
  }

  /** A manual trigger ignores the cooldown: whatever the clock says, a running,
      unpaused assistant submits non-blank text at priority 1. */
  lemma ManualBypassesCooldown(a: State, text: string, now: int, id: string)
    requires GenerationWorker.Valid(a.worker)
    requires !a.paused && a.enabled && !PyStr.IsBlank(text)
    requires Config.GetRolePrompt(a.config, a.currentRole).Ok?
    requires now - a.lastSuggestion < a.cooldown
    ensures var r := HandleManualTrigger(a, text, now, id);
            && r.state.active == a.active[id := CompletionTag]
            && r.state.lastSuggestion == a.lastSuggestion
            && Submitted(a.worker, r.state.worker, id, text, ManualPriority)
    ensures HandleBufferReady(a, text, now, id) == Ignore(a)
  {
    RequestRecorded(a, text, true, id, now);
  }

  /** The quick-complete handler checks neither flag: it submits even for a paused,
      disabled assistant. A paused keyboard still matches hotkeys, so the hotkey of
      the assistant's own keyboard monitor reaches it while paused; while disabled
      that monitor is stopped (see `DisabledHearsNoKeys`). */
  lemma QuickCompleteIgnoresPause(a: State, now: int, id: string, starts: bool)
    requires GenerationWorker.Valid(a.worker)
    requires a.paused && !a.enabled
    requires !PyStr.IsBlank(a.buffer.text)
    requires Config.GetRolePrompt(a.config, a.currentRole).Ok?
    ensures var r := HandleHotkey(a, "quick_complete", now, id, starts);
            && r.state.active == a.active[id := CompletionTag]
            && Submitted(a.worker, r.state.worker, id, TextBuffer.Context(a.buffer), ManualPriority)
  {
    RequestRecorded(a, TextBuffer.Context(a.buffer), true, id, now);
  }

  /** The hotkey actions: `toggle_assistant` flips the switch, `dictate` only shows
      the listening status, and any other action name does nothing. */
  lemma HotkeyActions(a: State, other: string, now: int, id: string, starts: bool)
    requires other != "toggle_assistant" && other != "quick_complete" && other != "dictate"
    ensures HandleHotkey(a, "toggle_assistant", now, id, starts).state.enabled == !a.enabled
    ensures HandleHotkey(a, "dictate", now, id, starts)
              == Reaction(a.(status := "\U{1F3A4} Listening..."), [StatusChanged("\U{1F3A4} Listening...")])
    ensures HandleHotkey(a, other, now, id, starts) == Ignore(a)
  {
  }

  /** A tracked id leaves the table at its first terminal signal, so a second
      terminal signal for it, of either kind, changes nothing. */
  lemma SingleRemoval(a: State, id: string, result: string, again: string)
    requires id in a.active
    ensures var first := HandleGenerationCompleted(a, id, result).state;
            && first.active == a.active - {id}
            && HandleGenerationCompleted(first, id, again) == Ignore(first)
            && HandleGenerationFailed(first, id, again) == Ignore(first)
    ensures var first := HandleGenerationFailed(a, id, result).state;
            && first.active == a.active - {id}
            && HandleGenerationCompleted(first, id, again) == Ignore(first)
            && HandleGenerationFailed(first, id, again) == Ignore(first)
  {
  }

  /** Some signal in the list is a suggestion. */
  predicate ShowsSuggestion(out: seq<Output>) {
    exists i :: 0 <= i < |out| && out[i].SuggestionReady?
  }

  /** A suggestion is shown iff the id was tracked as a completion and the result
      is not blank. */
  lemma SuggestionIff(a: State, id: string, result: string)
    ensures ShowsSuggestion(HandleGenerationCompleted(a, id, result).out) <==>
              id in a.active && a.active[id] == CompletionTag && !PyStr.IsBlank(result)
  {
    if id in a.active {
      ResultSuggests(a.active[id], PyStr.Strip(result));
    } else {
      assert HandleGenerationCompleted(a, id, result).out == [];
    }
  }

  /** The result signals, followed by the completion signal, hold a suggestion iff
      the tag is the completion tag and the stripped result is not empty. */
  lemma ResultSuggests(tag: string, clean: string)
    ensures ShowsSuggestion(ResultSignals(tag, clean) + [GenerationCompleted]) <==>
              tag == CompletionTag && clean != ""
  {
    var out := ResultSignals(tag, clean) + [GenerationCompleted];
    if tag != CompletionTag {
      assert out == [GenerationCompleted];
    } else if clean != "" {
      assert out[0] == SuggestionReady(clean);
    } else {
      assert out == [StatusChanged("No suggestion"), GenerationCompleted];
    }
  }

  /** The suggestion shown is the stripped result; a blank result of a tracked
      completion reports "No suggestion" instead. */
  lemma SuggestionIsStripped(a: State, id: string, result: string)
    requires id in a.active && a.active[id] == CompletionTag
    ensures !PyStr.IsBlank(result) ==>
              HandleGenerationCompleted(a, id, result).out
                == [SuggestionReady(PyStr.Strip(result)), StatusChanged("Ready"), GenerationCompleted]
    ensures PyStr.IsBlank(result) ==>
              HandleGenerationCompleted(a, id, result).out == [StatusChanged("No suggestion"), GenerationCompleted]
              && HandleGenerationCompleted(a, id, result).state.status == "No suggestion"
  {
    var r := HandleGenerationCompleted(a, id, result);
    if PyStr.IsBlank(result) {
      var a1 := a.(active := a.active - {id});
      assert PyStr.Strip(result) == "";
      assert ShowResult(a1, CompletionTag, result) == UpdateStatus(a1, "No suggestion");
    } else {
      assert PyStr.Strip(result) != "";
    }
  }

  /** Pausing then resuming a running, enabled assistant ends with the keyboard
      unpaused, an empty buffer, and the request table untouched. */
  lemma PauseResume(a: State)
    requires a.enabled && a.autoCompletion
    ensures var r := ResumeMonitoring(PauseMonitoring(a).state).state;
            && !r.paused && !r.keyboard.paused
            && r.buffer.text == [] && !r.buffer.timerArmed
            && r.active == a.active && r.worker == a.worker
  {
  }

  /** The keyboard runs only while the assistant is enabled. */
  predicate KeyboardFollowsSwitch(a: State) {
    a.keyboard.running ==> a.enabled
  }

  /** Every handler keeps the keyboard off while the assistant is disabled:
      disabling stops it, and nothing else starts it. */
  lemma KeyboardFollowsSwitchKept(a: State, key: KeyboardMonitor.Key, now: int, id: string, starts: bool, title: string,
                                  outcome: GenerationWorker.EngineOutcome, elapsed: nat)
    requires KeyboardFollowsSwitch(a)
    ensures KeyboardFollowsSwitch(ToggleEnabled(a, starts).state)
    ensures KeyboardFollowsSwitch(PauseMonitoring(a).state)
    ensures KeyboardFollowsSwitch(ResumeMonitoring(a).state)
    ensures KeyboardFollowsSwitch(StopMonitoring(a).state)
    ensures KeyboardFollowsSwitch(OnKeyPress(a, key, now, id, starts).state)
    ensures KeyboardFollowsSwitch(OnKeyRelease(a, key).state)
    ensures KeyboardFollowsSwitch(OnDebounceFire(a, now, id).state)
    ensures KeyboardFollowsSwitch(OnWindowPoll(a, title).state)
    ensures KeyboardFollowsSwitch(OnWorkerTurn(a, outcome, elapsed).state)
  {
  }

  /** A disabled assistant's own keyboard monitor hears no keys, so none of its
      hotkeys, quick-complete included, can act on the assistant. */
  lemma DisabledHearsNoKeys(a: State, key: KeyboardMonitor.Key, now: int, id: string, starts: bool)
    requires KeyboardFollowsSwitch(a) && !a.enabled
    ensures OnKeyPress(a, key, now, id, starts) == Ignore(a)
  {
  }

  /** Toggling twice restores the switch, and with it the keyboard: stopped if the
      assistant was disabled; if it was enabled with auto-completion on and the
      keyboard allowed to start, running again exactly when the second toggle's
      listener starts. */
  lemma ToggleTwice(a: State, first: bool, second: bool)
    ensures var r := ToggleEnabled(ToggleEnabled(a, first).state, second).state;
            && r.enabled == a.enabled && r.paused == a.paused && r.active == a.active && r.buffer == a.buffer
            && (!a.enabled ==> !r.keyboard.running)
            && (a.enabled && a.autoCompletion && a.keyboard.enabled ==> (r.keyboard.running <==> second))
  {
  }

  /** A paused assistant's buffer is untouched by key presses. */
  lemma PausedKeepsBuffer(a: State, key: KeyboardMonitor.Key, now: int, id: string, starts: bool)
    requires a.keyboard.paused
    ensures OnKeyPress(a, key, now, id, starts).state.buffer == a.buffer
  {
  }

  /** The debounce timer fires once: right after a firing another does nothing. */
  lemma DebounceFiresOnce(a: State, now1: int, id1: string, now2: int, id2: string)
    ensures var first := OnDebounceFire(a, now1, id1).state;
            OnDebounceFire(first, now2, id2) == Ignore(first)
  {
  }

  /** A worker turn that serves a tracked id takes it out of the table. */
  lemma TurnClearsServed(a: State, outcome: GenerationWorker.EngineOutcome, elapsed: nat)
    requires a.worker.queue != []
    ensures var turn := GenerationWorker.Step(a.worker, outcome, elapsed);
            var after := OnWorkerTurn(a, outcome, elapsed).state.active;
            && turn.served.Some?
            && turn.served.value.id !in after
            && (turn.served.value.id in a.active ==> |after| == |a.active| - 1)
  {
    var turn := GenerationWorker.Step(a.worker, outcome, elapsed);
    var after := OnWorkerTurn(a, outcome, elapsed).state.active;
    if turn.served.value.id in a.active {
      assert after.Keys == a.active.Keys - {turn.served.value.id};
    }
  }

  /** A role change never touches the request table, the buffer or the queue. */
  lemma ContextChangeKeepsRequests(a: State, title: string, role: string)
    ensures var r := HandleContextChange(a, title, role).state;
            r.active == a.active && r.buffer == a.buffer && r.worker == a.worker
  {
  }

  /** A request dropped by eviction while tracked stays in the table: the worker
      never reports it, so nothing ever removes it. */
  lemma EvictedStaysActive(a: State, text: string, manual: bool, id: string, now: int)
    requires Config.GetRolePrompt(a.config, a.currentRole).Ok?
    ensures var sp := Config.GetRolePrompt(a.config, a.currentRole).value;
            var adm := GenerationWorker.AddRequest(a.worker, NewRequest(id, text, sp, manual, now));
            adm.dropped.Some? && adm.dropped.value.id in a.active ==>
              adm.dropped.value.id in RequestGeneration(a, text, manual, id, now).state.active
  {
  }
}
