/** The rolling text buffer: the suffix of what the user typed, kept within a
    capacity, with a debounce timer that signals "the user stopped typing".
    The timer is a flag: armed means a timer is pending; firing it disarms it. */
module TextBuffer {
  import opened Wrappers
  import PyStr

  /** Configuration read at construction (`text.buffer_size`, `text.min_context_length`). */
  datatype Settings = Settings(maxSize: int, minContextLength: int)

  datatype Buffer = Buffer(
    settings: Settings,
    text: string,
    sessionChars: nat,
    lastUpdate: int,
    timerArmed: bool)

  /** Results of `get_stats`. */
  datatype Stats = Stats(currentLength: nat, totalCharsTyped: nat)

  predicate IsSuffix(r: string, s: string) {
    |r| <= |s| && s[|s| - |r|..] == r
  }

  /** The state invariant: a pending timer implies enough context, and a positive
      capacity bounds the text. */
  predicate Valid(b: Buffer) {
    && (b.timerArmed ==> |b.text| >= b.settings.minContextLength)
    && (b.settings.maxSize >= 1 ==> |b.text| <= b.settings.maxSize)
  }

  /** A fresh buffer: empty, nothing typed, no timer. */
  function Init(settings: Settings): (b: Buffer)
    ensures b.text == [] && b.sessionChars == 0 && !b.timerArmed
    ensures Valid(b)
  {
    Buffer(settings, "", 0, 0, false)
  }

  /** Python's start index of the slice `s[k:]` for a string of length `n`. */
  function SliceStart(n: nat, k: int): (i: nat)
    ensures i <= n
  {
    if k < 0 then (if n + k < 0 then 0 else n + k)
    else if k > n then n else k
  }

  /** Python's `s[-m:]`: the last `m` characters when `m >= 1`, but the whole string
      when `m == 0` (because `-0 == 0`) and all but the first `-m` when `m < 0`. */
  function LastChars(s: string, m: int): (r: string)
    ensures IsSuffix(r, s)
    ensures m >= 1 ==> |r| == if |s| < m then |s| else m
    ensures m == 0 ==> r == s
    ensures m < 0 ==> |r| == if |s| < -m then 0 else |s| + m
  {
    s[SliceStart(|s|, -m)..]
  }

  /** The rolling-window rule of `append`: trim only when the capacity is exceeded. */
  function Window(s: string, m: int): string
  {
    if |s| > m then LastChars(s, m) else s
  }

  /** `_reset_debounce`: cancels any pending timer, then arms one exactly when the
      buffer holds at least the minimum context length. */
  function ResetDebounce(b: Buffer): (r: Buffer)
    ensures r.timerArmed <==> |b.text| >= b.settings.minContextLength
    ensures r.text == b.text && r.settings == b.settings
    ensures r.sessionChars == b.sessionChars && r.lastUpdate == b.lastUpdate
    ensures Valid(b) ==> Valid(r)
  {
    b.(timerArmed := |b.text| >= b.settings.minContextLength)
  }

  /** `append`: concatenate, trim to the rolling window, count the characters, restart the debounce. */
  function Append(b: Buffer, t: string, now: int): (r: Buffer)
    ensures r.settings == b.settings && r.lastUpdate == now
    ensures r.sessionChars == b.sessionChars + |t|
    ensures IsSuffix(r.text, b.text + t)
    ensures |b.text + t| <= b.settings.maxSize ==> r.text == b.text + t
    ensures b.settings.maxSize >= 1 && |b.text + t| > b.settings.maxSize ==> |r.text| == b.settings.maxSize
    ensures b.settings.maxSize >= 1 ==> |r.text| <= b.settings.maxSize
    ensures r.timerArmed <==> |r.text| >= b.settings.minContextLength
  {
    var kept := Window(b.text + t, b.settings.maxSize);
    ResetDebounce(b.(text := kept, sessionChars := b.sessionChars + |t|, lastUpdate := now))
  }

  /** `handle_backspace`: drop the last character; an empty buffer is left entirely alone. */
  function Backspace(b: Buffer, now: int): (r: Buffer)
    ensures b.text == [] ==> r == b
    ensures b.text != [] ==> r.text + [b.text[|b.text| - 1]] == b.text
    ensures b.text != [] ==> r.lastUpdate == now
    ensures b.text != [] ==> (r.timerArmed <==> |r.text| >= b.settings.minContextLength)
    ensures r.settings == b.settings && r.sessionChars == b.sessionChars
  {
    if b.text == [] then b
    else ResetDebounce(b.(text := b.text[..|b.text| - 1], lastUpdate := now))
  }

  /** `clear`: wipe the text and cancel the pending timer. */
  function Clear(b: Buffer): (r: Buffer)
    ensures r.text == [] && !r.timerArmed
    ensures r.settings == b.settings && r.sessionChars == b.sessionChars && r.lastUpdate == b.lastUpdate
  {
    b.(text := "", timerArmed := false)
  }

  /** `get_context`: the buffer with surrounding whitespace stripped. */
  function Context(b: Buffer): (r: string)
    ensures PyStr.IsStrippingOf(r, b.text)
    ensures r == [] <==> PyStr.IsBlank(b.text)
  {
    PyStr.Strip(b.text)
  }

  /** The timer running out (`_fire_trigger`): the pending timer is gone, and the
      registered callback, if any, receives the context when it is not blank. */
  function Fire(b: Buffer, hasCallback: bool): (r: (Buffer, Option<string>))
    ensures r.0 == b.(timerArmed := false)
    ensures r.1.Some? <==> b.timerArmed && hasCallback && !PyStr.IsBlank(b.text)
    ensures r.1.Some? ==> r.1.value != [] && PyStr.IsStrippingOf(r.1.value, b.text)
  {
    var next := b.(timerArmed := false);
    if b.timerArmed && hasCallback && Context(b) != [] then (next, Some(Context(b))) else (next, None)
  }

  /** `get_stats`. */
  function GetStats(b: Buffer): (s: Stats)
    ensures s.currentLength == |b.text| && s.totalCharsTyped == b.sessionChars
  {
    Stats(|b.text|, b.sessionChars)
  }

  /** Every operation keeps the state invariant. */
  lemma OperationsPreserveValid(b: Buffer, t: string, now: int, hasCallback: bool)
    requires Valid(b)
    ensures Valid(Append(b, t, now))
    ensures Valid(Backspace(b, now))
    ensures Valid(Clear(b))
    ensures Valid(Fire(b, hasCallback).0)
  {
  }

  /** The session count in the statistics only grows: typing adds exactly the
      characters typed, and deleting, clearing or firing never takes any back. */
  lemma StatsCountTyped(b: Buffer, t: string, now: int, hasCallback: bool)
    ensures GetStats(Append(b, t, now)).totalCharsTyped == GetStats(b).totalCharsTyped + |t|
    ensures GetStats(Backspace(b, now)).totalCharsTyped == GetStats(b).totalCharsTyped
    ensures GetStats(Clear(b)).totalCharsTyped == GetStats(b).totalCharsTyped
    ensures GetStats(Fire(b, hasCallback).0).totalCharsTyped == GetStats(b).totalCharsTyped
    ensures GetStats(Append(b, t, now)).currentLength <= GetStats(b).currentLength + |t|
    ensures GetStats(Clear(b)).currentLength == 0
  {
  }

  /** A timer fires at most once: after firing nothing is pending, so a second
      firing delivers nothing. */
  lemma FireOnce(b: Buffer, hasCallback: bool)
    ensures Fire(Fire(b, hasCallback).0, hasCallback).1 == None
  {
  }

  lemma {:induction false} SuffixOfSuffix(y: string, z: string, m: nat)
    requires IsSuffix(y, z) && |y| >= m
    ensures y[|y| - m..] == z[|z| - m..]
  {
    assert y[|y| - m..] == z[|z| - |y|..][|y| - m..];
  }

  lemma {:induction false} WindowCompose(a: string, t1: string, t2: string, m: int)
    requires m >= 0
    ensures Window(Window(a + t1, m) + t2, m) == Window(a + t1 + t2, m)
  {
    var whole := a + t1 + t2;
    var w1 := Window(a + t1, m);
    if |a + t1| > m {
      assert IsSuffix(w1 + t2, whole);
      if |w1 + t2| > m {
        SuffixOfSuffix(w1 + t2, whole, m);
      } else {
        assert t2 == [];
        assert whole == a + t1;
      }
    }
  }

  /** With a non-negative capacity, typing `t1` and then `t2` leaves the same text,
      timer and count as pasting `t1 + t2` at once: the window is a function of the
      whole typed stream. */
  lemma AppendInPieces(b: Buffer, t1: string, t2: string, now1: int, now2: int)
    requires b.settings.maxSize >= 0
    ensures Append(Append(b, t1, now1), t2, now2) == Append(b, t1 + t2, now2)
  {
    assert b.text + (t1 + t2) == b.text + t1 + t2;
    WindowCompose(b.text, t1, t2, b.settings.maxSize);
  }
}
