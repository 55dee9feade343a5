/** The portfolio page's calculator display: a string buffer that the keypad
    appends to, C clears and DEL shortens by one character. */
module Calculator {
  import opened JsMath

  /** The strings the keypad buttons append. */
  const Keys: set<string> := {"/", "7", "8", "9", "*", "4", "5", "6", "-", "1", "2", "3", "+", "0", "."}

  /** The characters those keys are made of. */
  predicate IsKeyChar(ch: char) {
    ('0' <= ch <= '9') || ch == '/' || ch == '*' || ch == '-' || ch == '+' || ch == '.'
  }

  datatype CalcEvent = Press(key: string) | Clear | Delete

  /** `String.prototype.slice(start, end)`: negative bounds count from the end,
      bounds are clamped to the string, and a reversed range is empty. */
  function Slice(s: string, start: int, end: int): (r: string)
    ensures |r| <= |s|
    ensures 0 <= start <= end <= |s| ==> r == s[start..end]
    ensures 0 <= start <= |s| + end && end < 0 ==> r == s[start..|s| + end]
    ensures |s| + end <= start ==> r == ""
    ensures 0 <= start <= |s| <= end ==> r == s[start..]
    ensures start < 0 && 0 <= |s| + start <= end <= |s| ==> r == s[|s| + start..end]
    ensures start < 0 && end < 0 && 0 <= |s| + start <= |s| + end ==> r == s[|s| + start..|s| + end]
    ensures |s| + start < 0 && 0 <= end <= |s| ==> r == s[..end]
    ensures |s| <= start ==> r == ""
    ensures 0 <= end <= start ==> r == ""
    ensures start < 0 && end <= start ==> r == ""
    ensures start < 0 && 0 <= end <= |s| + start ==> r == ""
    ensures |s| + start < 0 && end < 0 ==> r == s[..Max(|s| + end, 0)]
    ensures |s| + start < 0 && |s| < end ==> r == s
    ensures start < 0 && |s| < end ==> r == s[Max(|s| + start, 0)..]
  {
    var from := if start < 0 then Max(|s| + start, 0) else Min(start, |s|);
    var to := if end < 0 then Max(|s| + end, 0) else Min(end, |s|);
    if to <= from then "" else s[from..to]
  }

  /** `handleClick(key)`: the key's text is appended to the buffer. */
  function PressKey(buffer: string, key: string): (r: string)
    ensures |r| == |buffer| + |key|
    ensures r[..|buffer|] == buffer && r[|buffer|..] == key
  {
    buffer + key
  }

  /** `handleClear`: the display is emptied whatever it held. */
  function ClearBuffer(buffer: string): (r: string)
    ensures |r| == 0
  {
    ""
  }

  /** `handleDelete`: the slice from the start up to one before the end. */
  function DeleteLast(buffer: string): (r: string)
    ensures |buffer| == 0 ==> r == ""
    ensures |buffer| > 0 ==> r + [buffer[|buffer| - 1]] == buffer
  {
    Slice(buffer, 0, -1)
  }

  function Apply(buffer: string, ev: CalcEvent): string {
    match ev
    case Press(key) => PressKey(buffer, key)
    case Clear => ClearBuffer(buffer)
    case Delete => DeleteLast(buffer)
  }

  function Run(buffer: string, events: seq<CalcEvent>): string
    decreases |events|
  {
    if |events| == 0 then buffer else Run(Apply(buffer, events[0]), events[1..])
  }

  /** Pressing a one-character key and then DEL restores the buffer. */
  lemma PressThenDelete(buffer: string, key: string)
    requires |key| == 1
    ensures DeleteLast(PressKey(buffer, key)) == buffer
  {
    var b := PressKey(buffer, key);
    assert DeleteLast(b) + [b[|b| - 1]] == b;
    assert DeleteLast(b) == b[..|b| - 1];
  }

  predicate OnlyKeyChars(s: string) {
    forall i :: 0 <= i < |s| ==> IsKeyChar(s[i])
  }

  predicate KeypadEvent(ev: CalcEvent) {
    ev.Press? ==> ev.key in Keys
  }

  /** Using only the keypad, C and DEL, the display only ever holds keypad characters. */
  lemma {:induction false} RunKeepsKeyChars(buffer: string, events: seq<CalcEvent>)
    requires OnlyKeyChars(buffer)
    requires forall i :: 0 <= i < |events| ==> KeypadEvent(events[i])
    ensures OnlyKeyChars(Run(buffer, events))
    decreases |events|
  {
    if |events| > 0 {
      var next := Apply(buffer, events[0]);
      assert OnlyKeyChars(next) by {
        match events[0]
        case Press(key) =>
          assert key in Keys;
          assert OnlyKeyChars(key);
        case Clear =>
        case Delete =>
          if |buffer| > 0 {
            assert next == buffer[..|buffer| - 1];
          }
      }
      RunKeepsKeyChars(next, events[1..]);
    }
  }

  lemma {:induction false} RunConcat(buffer: string, a: seq<CalcEvent>, b: seq<CalcEvent>)
    ensures Run(buffer, a + b) == Run(Run(buffer, a), b)
    decreases |a|
  {
    if |a| == 0 {
      assert a + b == b;
    } else {
      assert (a + b)[1..] == a[1..] + b;
      RunConcat(Apply(buffer, a[0]), a[1..], b);
    }
  }

  /** C empties the display whatever was typed before it. */
  lemma ClearForgetsHistory(buffer: string, before: seq<CalcEvent>, after: seq<CalcEvent>)
    ensures Run(buffer, before + [Clear] + after) == Run("", after)
  {
    RunConcat(buffer, before + [Clear], after);
    RunConcat(buffer, before, [Clear]);
    assert [Clear][1..] == [];
  }
}
