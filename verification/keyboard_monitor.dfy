/** The keystroke state machine: hotkey parsing and matching, the held-modifier
    set, and the press/release handling that feeds the rolling text buffer.
    The producer/consumer threads are not modelled: each press or release is
    handled as one step, in arrival order. */
module KeyboardMonitor {
  import opened Wrappers
  import PyStr
  import TextBuffer

  /** A key as the keyboard hook reports it: a character key, a named special key
      (`Key.<name>`), or a key code that carries no character. */
  datatype Key = Char(c: char) | Named(name: string) | Unmapped

  /** A parsed hotkey: its action, one group of acceptable key names per required
      modifier, and the trigger key. */
  datatype Combo = Combo(action: string, groups: seq<set<string>>, trigger: string)

  datatype Monitor = Monitor(
    enabled: bool,
    running: bool,
    paused: bool,
    triggerKeys: set<string>,
    combos: seq<Combo>,
    mods: set<string>,
    lastKeyTime: int)

  /** The monitor's signals. */
  datatype Signal = HotkeyTriggered(action: string) | TextCaptured(text: string)

  /** The outcome of one key press: the monitor, the shared buffer, and at most one signal. */
  datatype Press = Press(monitor: Monitor, buffer: TextBuffer.Buffer, signal: Option<Signal>)

  /** The keys `_is_modifier` recognises. */
  const ModifierKeys: set<string> := {"ctrl_l", "ctrl_r", "shift", "shift_r", "alt_l", "alt_r", "cmd"}

  /** Cursor movement keys, which invalidate the buffer. */
  const NavigationKeys: set<string> := {"up", "down", "left", "right", "home", "end"}

  /** The configuration tokens naming one physical modifier. */
  const SidedModifiers: set<string> := {"ctrl_l", "ctrl_r", "shift_l", "shift_r", "alt_l", "alt_r"}

  function Init(enabled: bool, triggerKeys: set<string>, hotkeys: seq<(string, string)>): (m: Monitor)
    ensures m.mods == {} && !m.running && !m.paused
    ensures m.combos == ParseHotkeys(hotkeys)
  {
    Monitor(enabled, false, false, triggerKeys, ParseHotkeys(hotkeys), {}, 0)
  }

  predicate IsModifier(key: Key) {
    key.Named? && key.name in ModifierKeys
  }

  /** `_get_key_name`: the name of a named key, `"char"` for any other key. */
  function KeyName(key: Key): string {
    if key.Named? then key.name else "char"
  }

  // ---------------------------------------------------------------------------
  // Hotkey parsing
  // ---------------------------------------------------------------------------

  /** The modifier group a configuration token stands for, or `None` for a
      token that is not a modifier (and so names the trigger key). */
  function ModifierGroup(tok: string): Option<set<string>> {
    if tok == "ctrl" then Some({"ctrl_l", "ctrl_r"})
    else if tok == "shift" then Some({"shift", "shift_r"})
    else if tok == "alt" then Some({"alt_l", "alt_r"})
    else if tok == "cmd" then Some({"cmd"})
    else if tok in SidedModifiers then Some({tok})
    else None
  }

  /** The tokens of a hotkey string: split on `+`, each stripped and lower-cased. */
  function Tokens(s: string): (toks: seq<string>)
    ensures |toks| == |PyStr.Split(s, '+')|
    ensures forall i :: 0 <= i < |toks| ==> toks[i] == PyStr.Lower(PyStr.Strip(PyStr.Split(s, '+')[i]))
  {
    var parts := PyStr.Split(s, '+');
    seq(|parts|, i requires 0 <= i < |parts| => PyStr.Lower(PyStr.Strip(parts[i])))
  }

  /** The loop of `_parse_hotkeys` over one string's tokens: modifier tokens append
      their group, any other token overwrites the trigger. */
  function ParseTokens(toks: seq<string>, groups: seq<set<string>>, trigger: Option<string>)
    : (seq<set<string>>, Option<string>)
    decreases |toks|
  {
    if toks == [] then (groups, trigger)
    else match ModifierGroup(toks[0])
      case Some(g) => ParseTokens(toks[1..], groups + [g], trigger)
      case None => ParseTokens(toks[1..], groups, Some(toks[0]))
  }

  /** The modifier groups of the tokens, in token order. */
  function GroupsOf(toks: seq<string>): (gs: seq<set<string>>)
    ensures |gs| <= |toks|
    ensures forall g :: g in gs ==> exists t :: t in toks && ModifierGroup(t) == Some(g)
  {
    if toks == [] then []
    else
      var g := ModifierGroup(toks[0]);
      (if g.Some? then [g.value] else []) + GroupsOf(toks[1..])
  }

  /** The position of the last non-modifier token, searching from the end. */
  function LastKeyIndex(toks: seq<string>): (k: Option<nat>)
    ensures k.Some? ==> k.value < |toks| && ModifierGroup(toks[k.value]).None?
    ensures k.Some? ==> forall j :: k.value < j < |toks| ==> ModifierGroup(toks[j]).Some?
    ensures k.None? ==> forall j :: 0 <= j < |toks| ==> ModifierGroup(toks[j]).Some?
  {
    if toks == [] then None
    else if ModifierGroup(toks[|toks| - 1]).None? then Some(|toks| - 1)
    else LastKeyIndex(toks[..|toks| - 1])
  }

  /** The forward loop keeps every modifier group, in order. */
  lemma {:induction false} ParseGroupsSpec(toks: seq<string>, groups: seq<set<string>>, trigger: Option<string>)
    ensures ParseTokens(toks, groups, trigger).0 == groups + GroupsOf(toks)
    decreases |toks|
  {
    if toks != [] {
      var g := ModifierGroup(toks[0]);
      if g.Some? {
        ParseGroupsSpec(toks[1..], groups + [g.value], trigger);
        assert groups + [g.value] + GroupsOf(toks[1..]) == groups + ([g.value] + GroupsOf(toks[1..]));
      } else {
        ParseGroupsSpec(toks[1..], groups, Some(toks[0]));
        assert [] + GroupsOf(toks[1..]) == GroupsOf(toks[1..]);
      }
    }
  }

  /** The trigger the forward loop ends with: the last non-modifier token, or the
      initial value when every token is a modifier. */
  function FinalTrigger(toks: seq<string>, trigger: Option<string>): Option<string> {
    match LastKeyIndex(toks)
    case Some(k) => Some(toks[k])
    case None => trigger
  }

  /** The forward loop ends with the last non-modifier token as the trigger. */
  lemma {:induction false} ParseTriggerSpec(toks: seq<string>, groups: seq<set<string>>, trigger: Option<string>)
    ensures ParseTokens(toks, groups, trigger).1 == FinalTrigger(toks, trigger)
    decreases |toks|
  {
    if toks != [] {
      var g := ModifierGroup(toks[0]);
      LastKeyIndexOfTail(toks);
      if g.Some? {
        ParseTriggerSpec(toks[1..], groups + [g.value], trigger);
      } else {
        ParseTriggerSpec(toks[1..], groups, Some(toks[0]));
      }
      match LastKeyIndex(toks[1..])
      case Some(k) =>
        assert toks[1..][k] == toks[k + 1];
      case None =>
    }
  }

  lemma {:induction false} LastKeyIndexOfTail(toks: seq<string>)
    requires toks != []
    ensures LastKeyIndex(toks) ==
              match LastKeyIndex(toks[1..])
              case Some(k) => Some(k + 1)
              case None => if ModifierGroup(toks[0]).None? then Some(0) else None
    decreases |toks|
  {
    if |toks| > 1 && ModifierGroup(toks[|toks| - 1]).Some? {
      assert toks[1..][..|toks[1..]| - 1] == toks[..|toks| - 1][1..];
      LastKeyIndexOfTail(toks[..|toks| - 1]);
    }
  }

  /** `_parse_hotkeys` for one entry: a combination exists exactly when the loop ends
      with a trigger, and that trigger is non-empty (an empty trigger is falsy). */
  function ParseHotkey(action: string, s: string): (r: Option<Combo>)
    ensures r.Some? ==> r.value.action == action && r.value.trigger != ""
  {
    var parsed := ParseTokens(Tokens(s), [], None);
    if parsed.1.Some? && parsed.1.value != "" then Some(Combo(action, parsed.0, parsed.1.value)) else None
  }

  /** What one hotkey string parses to: the groups of its modifier tokens in token
      order, and the last non-modifier token as trigger; with no such token, or an
      empty one, the entry is left out. */
  lemma ParseHotkeySpec(action: string, s: string)
    ensures var toks := Tokens(s);
            var k := LastKeyIndex(toks);
            var r := ParseHotkey(action, s);
            && (r.Some? <==> k.Some? && toks[k.value] != "")
            && (r.Some? ==> r.value == Combo(action, GroupsOf(toks), toks[k.value]))
  {
    ParseGroupsSpec(Tokens(s), [], None);
    ParseTriggerSpec(Tokens(s), [], None);
  }

  /** `_parse_hotkeys`: the table of combinations, in configuration order, without
      the entries that name no trigger key. */
  function ParseHotkeys(hotkeys: seq<(string, string)>): (r: seq<Combo>)
    ensures |r| <= |hotkeys|
  {
    Present(ParseEach(hotkeys))
  }

  /** Each entry's parse, entry by entry. */
  function ParseEach(hotkeys: seq<(string, string)>): (r: seq<Option<Combo>>)
    ensures |r| == |hotkeys|
    ensures forall i :: 0 <= i < |hotkeys| ==> r[i] == ParseHotkey(hotkeys[i].0, hotkeys[i].1)
  {
    seq(|hotkeys|, i requires 0 <= i < |hotkeys| => ParseHotkey(hotkeys[i].0, hotkeys[i].1))
  }

  /** The present values, in order. */
  function Present(os: seq<Option<Combo>>): (r: seq<Combo>)
    ensures |r| <= |os|
    ensures |r| == |os| ==> forall i :: 0 <= i < |os| ==> os[i] == Some(r[i])
  {
    if os == [] then []
    else (if os[0].Some? then [os[0].value] else []) + Present(os[1..])
  }

  /** `Present` keeps exactly the present values. */
  lemma {:induction false} PresentMembers(os: seq<Option<Combo>>, c: Combo)
    ensures c in Present(os) <==> Some(c) in os
    decreases |os|
  {
    if os != [] {
      PresentMembers(os[1..], c);
      assert os == [os[0]] + os[1..];
    }
  }

  /** `Present` keeps order: the values of a concatenation are those of the first
      part followed by those of the second. */
  lemma {:induction false} PresentConcat(a: seq<Option<Combo>>, b: seq<Option<Combo>>)
    ensures Present(a + b) == Present(a) + Present(b)
    decreases |a|
  {
    if a != [] {
      assert (a + b)[0] == a[0];
      assert (a + b)[1..] == a[1..] + b;
      PresentConcat(a[1..], b);
    } else {
      assert a + b == b;
    }
  }

  /** The table follows configuration order: the entries of a longer configuration
      come after those of its prefix, so `FirstMatch` prefers earlier entries. */
  lemma ParseHotkeysOrder(h1: seq<(string, string)>, h2: seq<(string, string)>)
    ensures ParseHotkeys(h1 + h2) == ParseHotkeys(h1) + ParseHotkeys(h2)
  {
    var whole, left, right := ParseEach(h1 + h2), ParseEach(h1), ParseEach(h2);
    forall i | 0 <= i < |h1 + h2|
      ensures whole[i] == (left + right)[i]
    {
      if i < |h1| {
        assert (h1 + h2)[i] == h1[i];
      } else {
        assert (h1 + h2)[i] == h2[i - |h1|];
      }
    }
    assert whole == left + right;
    PresentConcat(ParseEach(h1), ParseEach(h2));
  }

  /** The table holds exactly the combinations the entries parse to, and so every
      combination in it names a non-empty trigger. */
  lemma ParseHotkeysMembers(hotkeys: seq<(string, string)>, c: Combo)
    ensures c in ParseHotkeys(hotkeys) <==> Some(c) in ParseEach(hotkeys)
    ensures c in ParseHotkeys(hotkeys) ==> c.trigger != ""
  {
    PresentMembers(ParseEach(hotkeys), c);
  }

  // ---------------------------------------------------------------------------
  // Hotkey matching
  // ---------------------------------------------------------------------------

  /** The trigger test of `_check_hotkeys`: characters compare case-insensitively,
      named keys by exact name, a key without a character never matches. */
  predicate KeyMatches(key: Key, trigger: string) {
    match key
    case Char(c) => trigger != "" && PyStr.Lower([c]) == PyStr.Lower(trigger)
    case Named(n) => n == trigger
    case Unmapped => false
  }

  /** Every required group has at least one member held down. */
  predicate ModifiersHeld(groups: seq<set<string>>, mods: set<string>) {
    forall i :: 0 <= i < |groups| ==> groups[i] * mods != {}
  }

  predicate ComboMatches(c: Combo, key: Key, mods: set<string>) {
    KeyMatches(key, c.trigger) && ModifiersHeld(c.groups, mods)
  }

  /** `_check_hotkeys`: the first combination, in table order, that the key completes. */
  function FirstMatch(combos: seq<Combo>, key: Key, mods: set<string>): (k: Option<nat>)
    ensures k.Some? ==> k.value < |combos| && ComboMatches(combos[k.value], key, mods)
    ensures k.Some? ==> forall j :: 0 <= j < k.value ==> !ComboMatches(combos[j], key, mods)
    ensures k.None? <==> forall j :: 0 <= j < |combos| ==> !ComboMatches(combos[j], key, mods)
  {
    if combos == [] then None
    else if ComboMatches(combos[0], key, mods) then Some(0)
    else match FirstMatch(combos[1..], key, mods)
      case Some(k) => Some(k + 1)
      case None => None
  }

  // ---------------------------------------------------------------------------
  // Press and release
  // ---------------------------------------------------------------------------

  /** `_key_to_text`: the text a key types, or the empty string. */
  function KeyToText(key: Key): (t: string)
    ensures |t| <= 1
    ensures key.Char? ==> t == [key.c]
    ensures key == Named("space") ==> t == " "
    ensures key == Named("enter") ==> t == "\n"
    ensures key == Named("tab") ==> t == "\t"
    ensures key.Named? && key.name !in {"space", "enter", "tab"} ==> t == ""
    ensures key.Unmapped? ==> t == ""
  {
    match key
    case Char(c) => [c]
    case Named(n) => if n == "space" then " " else if n == "enter" then "\n" else if n == "tab" then "\t" else ""
    case Unmapped => ""
  }

  /** `_should_trigger_completion`: space, enter or tab, when configured as a trigger key. */
  predicate ShouldTrigger(key: Key, triggerKeys: set<string>) {
    key.Named? && key.name in {"space", "enter", "tab"} && key.name in triggerKeys
  }

  /** A trigger key always types one whitespace character, so the text it appends
      never makes a blank buffer non-blank: only earlier typing can. */
  lemma TriggerKeysTypeWhitespace(key: Key, triggerKeys: set<string>)
    requires ShouldTrigger(key, triggerKeys)
    ensures |KeyToText(key)| == 1 && PyStr.IsBlank(KeyToText(key))
  {
    assert PyStr.IsSpace(KeyToText(key)[0]);
  }

  predicate IsNavigation(key: Key) {
    key.Named? && key.name in NavigationKeys
  }

  /** A press reaches text capture: no combination matches it and the monitor is not paused. */
  predicate Captures(m: Monitor, key: Key, mods: set<string>) {
    !m.paused && forall j :: 0 <= j < |m.combos| ==> !ComboMatches(m.combos[j], key, mods)
  }

  /** `_handle_press_logic`. */
  function HandlePress(m: Monitor, buf: TextBuffer.Buffer, key: Key, now: int): (r: Press)
    // modifier tracking happens first, paused or not
    ensures r.monitor == m.(lastKeyTime := now, mods := if IsModifier(key) then m.mods + {KeyName(key)} else m.mods)
    // a hotkey fires iff some combination matches, and then it is the first one
    ensures (r.signal.Some? && r.signal.value.HotkeyTriggered?) <==>
              exists i :: 0 <= i < |m.combos| && ComboMatches(m.combos[i], key, r.monitor.mods)
    ensures r.signal.Some? && r.signal.value.HotkeyTriggered? ==>
              exists i :: 0 <= i < |m.combos| && ComboMatches(m.combos[i], key, r.monitor.mods)
                && r.signal.value.action == m.combos[i].action
                && forall j :: 0 <= j < i ==> !ComboMatches(m.combos[j], key, r.monitor.mods)
    // a matched hotkey is never buffer text, and a paused monitor captures nothing
    ensures r.signal.Some? && r.signal.value.HotkeyTriggered? ==> r.buffer == buf
    ensures m.paused && (r.signal.None? || r.signal.value.TextCaptured?) ==> r.buffer == buf && r.signal.None?
    ensures r.signal.None? || r.signal.value.HotkeyTriggered? || !m.paused
    // captured text is the non-blank context, only after a trigger key
    ensures r.signal.Some? && r.signal.value.TextCaptured? ==>
              ShouldTrigger(key, m.triggerKeys) && r.signal.value.text == TextBuffer.Context(r.buffer)
              && r.signal.value.text != []
    // with no hotkey and not paused: navigation clears, text appends, backspace deletes
    ensures Captures(m, key, r.monitor.mods) && IsNavigation(key) ==> r.buffer == TextBuffer.Clear(buf) && r.signal.None?
    ensures Captures(m, key, r.monitor.mods) && !IsNavigation(key) && KeyToText(key) != "" ==>
              r.buffer == TextBuffer.Append(buf, KeyToText(key), now)
              && (r.signal.Some? <==> ShouldTrigger(key, m.triggerKeys) && !PyStr.IsBlank(r.buffer.text))
    ensures Captures(m, key, r.monitor.mods) && key == Named("backspace") ==>
              r.buffer == TextBuffer.Backspace(buf, now) && r.signal.None?
    ensures Captures(m, key, r.monitor.mods) && !IsNavigation(key) && KeyToText(key) == "" && key != Named("backspace") ==>
              r.buffer == buf && r.signal.None?
  {
    var mods := if IsModifier(key) then m.mods + {KeyName(key)} else m.mods;
    var m1 := m.(lastKeyTime := now, mods := mods);
    match FirstMatch(m1.combos, key, mods)
    case Some(k) => Press(m1, buf, Some(HotkeyTriggered(m1.combos[k].action)))
    case None =>
      if m1.paused then Press(m1, buf, None)
      else if IsNavigation(key) then Press(m1, TextBuffer.Clear(buf), None)
      else
        var text := KeyToText(key);
        if text != "" then
          var b1 := TextBuffer.Append(buf, text, now);
          var context := TextBuffer.Context(b1);
          if ShouldTrigger(key, m1.triggerKeys) && context != "" then Press(m1, b1, Some(TextCaptured(context)))
          else Press(m1, b1, None)
        else if key == Named("backspace") then Press(m1, TextBuffer.Backspace(buf, now), None)
        else Press(m1, buf, None)
  }

  /** `_handle_release_logic`: the key's name leaves the held set. */
  function HandleRelease(m: Monitor, key: Key): (r: Monitor)
    ensures r.mods == m.mods - {KeyName(key)}
    ensures r == m.(mods := r.mods)
  {
    m.(mods := m.mods - {KeyName(key)})
  }

  /** A press as delivered by the hook: only a running monitor queues and handles it. */
  function OnPress(m: Monitor, buf: TextBuffer.Buffer, key: Key, now: int): (r: Press)
    ensures !m.running ==> r == Press(m, buf, None)
    ensures m.running ==> r == HandlePress(m, buf, key, now)
  {
    if m.running then HandlePress(m, buf, key, now) else Press(m, buf, None)
  }

  function OnRelease(m: Monitor, key: Key): (r: Monitor)
    ensures !m.running ==> r == m
    ensures m.running ==> r == HandleRelease(m, key)
  {
    if m.running then HandleRelease(m, key) else m
  }

  /** `start`: refused when the keyboard is disabled (or pynput is missing, which
      `enabled` includes); an already running monitor answers true at once.
      Otherwise the processor thread and the listener are started, and
      `listenerStarts` says whether that succeeded: if it raised, the monitor is
      left stopped and the answer is false. */
  function Start(m: Monitor, listenerStarts: bool): (r: (Monitor, bool))
    ensures r.1 <==> m.enabled && (m.running || listenerStarts)
    ensures r.0.running <==> m.running || (m.enabled && listenerStarts)
    ensures m.enabled && !r.1 ==> !r.0.running
    ensures r.0 == m.(running := r.0.running)
  {
    if !m.enabled then (m, false)
    else if m.running then (m, true)
    else if listenerStarts then (m.(running := true), true)
    else (m.(running := false), false)
  }

  function Stop(m: Monitor): (r: Monitor)
    ensures !r.running && r == m.(running := false)
  {
    m.(running := false)
  }

  function Pause(m: Monitor): (r: Monitor)
    ensures r.paused
    ensures r.enabled == m.enabled && r.running == m.running && r.triggerKeys == m.triggerKeys
    ensures r.combos == m.combos && r.mods == m.mods && r.lastKeyTime == m.lastKeyTime
  {
    m.(paused := true)
  }

  function Resume(m: Monitor): (r: Monitor)
    ensures !r.paused
    ensures r.enabled == m.enabled && r.running == m.running && r.triggerKeys == m.triggerKeys
    ensures r.combos == m.combos && r.mods == m.mods && r.lastKeyTime == m.lastKeyTime
  {
    m.(paused := false)
  }

  // ---------------------------------------------------------------------------
  // Properties
  // ---------------------------------------------------------------------------

  /** Only modifier names are ever held: presses add modifier names only and
      releases only remove. */
  lemma HeldAreModifiers(m: Monitor, buf: TextBuffer.Buffer, key: Key, now: int)
    requires m.mods <= ModifierKeys
    ensures OnPress(m, buf, key, now).monitor.mods <= ModifierKeys
    ensures OnRelease(m, key).mods <= ModifierKeys
  {
  }

  /** Releasing a character key changes nothing once only modifiers are held:
      its name is `"char"`, which is never a modifier. */
  lemma ReleaseCharKeepsModifiers(m: Monitor, c: char)
    requires m.mods <= ModifierKeys
    ensures HandleRelease(m, Char(c)) == m
  {
    assert "char" !in ModifierKeys;
  }

  /** Hotkeys stay live while paused: the same press fires the same action
      whether or not the monitor is paused. */
  lemma HotkeysIgnorePause(m: Monitor, buf: TextBuffer.Buffer, key: Key, now: int)
    ensures var paused := HandlePress(m.(paused := true), buf, key, now).signal;
            var live := HandlePress(m.(paused := false), buf, key, now).signal;
            (paused.Some? && paused.value.HotkeyTriggered?) <==> (live.Some? && live.value.HotkeyTriggered?)
  {
  }

  /** The example of `_parse_hotkeys`'s docstring: `ctrl` and `shift` groups with trigger `c`
      match with right ctrl and shift held, and do not match with alt and shift. */
  lemma HotkeyExample()
    ensures ComboMatches(Combo("quick_complete", [{"ctrl_l", "ctrl_r"}, {"shift", "shift_r"}], "c"),
                         Char('c'), {"ctrl_r", "shift"})
    ensures !ComboMatches(Combo("quick_complete", [{"ctrl_l", "ctrl_r"}, {"shift", "shift_r"}], "c"),
                          Char('c'), {"alt_l", "shift"})
  {
    var groups := [{"ctrl_l", "ctrl_r"}, {"shift", "shift_r"}];
    assert "ctrl_r" in groups[0] * {"ctrl_r", "shift"};
    assert "shift" in groups[1] * {"ctrl_r", "shift"};
    assert groups[0] * {"alt_l", "shift"} == {};
  }
}
