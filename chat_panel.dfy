/** The chat panel's own state: display history, input and composition buffers,
    the activation flag and the blinking cursor. */
module ChatPanel {
  import opened Messages

  /** Characters Python's `str.isspace` accepts, which `str.strip()` removes. */
  predicate IsSpace(c: char)
  {
    || c == ' ' || c == '\t' || c == '\n' || c == '\U{b}' || c == '\U{c}' || c == '\r'
    || ('\U{1c}' <= c <= '\U{1f}') || c == '\U{85}' || c == '\U{a0}' || c == '\U{1680}'
    || ('\U{2000}' <= c <= '\U{200a}') || c == '\U{2028}' || c == '\U{2029}'
    || c == '\U{202f}' || c == '\U{205f}' || c == '\U{3000}'
  }

  /** Every character is whitespace. */
  predicate AllSpace(s: string)
  {
    forall i :: 0 <= i < |s| ==> IsSpace(s[i])
  }

  /** `s` without its leading whitespace. */
  function TrimLeft(s: string): string
  {
    if s != [] && IsSpace(s[0]) then TrimLeft(s[1..]) else s
  }

  /** `s` without its trailing whitespace. */
  function TrimRight(s: string): string
  {
    if s != [] && IsSpace(s[|s| - 1]) then TrimRight(s[..|s| - 1]) else s
  }

  /** Python's `s.strip()`. */
  function Strip(s: string): string
  {
    TrimRight(TrimLeft(s))
  }

  /** `TrimLeft` removes exactly the whitespace prefix: what is left is a suffix of
      `s` that does not start with whitespace, and everything removed was whitespace. */
  lemma {:induction false} TrimLeftRemovesLeadingSpace(s: string)
    ensures var r := TrimLeft(s);
      && |r| <= |s| && r == s[|s| - |r|..]
      && AllSpace(s[..|s| - |r|])
      && (r != [] ==> !IsSpace(r[0]))
  {
    if s != [] && IsSpace(s[0]) {
      TrimLeftRemovesLeadingSpace(s[1..]);
      var r := TrimLeft(s[1..]);
      assert s[..|s| - |r|] == [s[0]] + s[1..][..|s[1..]| - |r|];
    } else {
      assert s[..0] == [];
    }
  }

  /** `TrimRight` removes exactly the whitespace suffix. */
  lemma {:induction false} TrimRightRemovesTrailingSpace(s: string)
    ensures var r := TrimRight(s);
      && |r| <= |s| && r == s[..|r|]
      && AllSpace(s[|r|..])
      && (r != [] ==> !IsSpace(r[|r| - 1]))
  {
    if s != [] && IsSpace(s[|s| - 1]) {
      TrimRightRemovesTrailingSpace(s[..|s| - 1]);
      var r := TrimRight(s[..|s| - 1]);
      assert s[|r|..] == s[..|s| - 1][|r|..] + [s[|s| - 1]];
    } else {
      assert s[|s|..] == [];
    }
  }

  /** `strip()` leaves nothing exactly when every character is whitespace. */
  lemma {:induction false} StripEmptyIffBlank(s: string)
    ensures Strip(s) == [] <==> AllSpace(s)
  {
    var t := TrimLeft(s);
    TrimLeftRemovesLeadingSpace(s);
    TrimRightRemovesTrailingSpace(t);
    if t == [] {
      assert s[..|s|] == s;
    } else {
      assert s[|s| - |t|] == t[0];
    }
  }

  /** A `{'role': ..., 'text': ...}` entry of the display history. */
  datatype DisplayEntry = DisplayEntry(role: Role, text: string)

  /** Milliseconds (strictly exceeded) between two cursor blinks. */
  const BLINK_INTERVAL: nat := 500

  class ChatUI {
    var history: seq<DisplayEntry>
    var inputText: string
    var cursorVisible: bool
    var cursorTimer: nat
    var active: bool
    var composingText: string

    /** The blink timer never holds more than one interval. */
    ghost predicate Valid()
      reads this
    {
      cursorTimer <= BLINK_INTERVAL
    }

    /** Empty history and buffers, cursor shown, panel inactive. */
    constructor ()
      ensures Valid()
      ensures history == [] && inputText == [] && composingText == []
      ensures cursorVisible && cursorTimer == 0 && !active
    {
      history := [];
      inputText := [];
      cursorVisible := true;
      cursorTimer := 0;
      active := false;
      composingText := [];
    }

    /** Adds the elapsed `dt` milliseconds to the blink timer; once it exceeds the
        interval the cursor flips and the timer restarts from 0. */
    method Update(dt: nat)
      modifies this`cursorTimer, this`cursorVisible
      ensures Valid()
      ensures old(cursorTimer) + dt > BLINK_INTERVAL ==>
                cursorVisible == !old(cursorVisible) && cursorTimer == 0
      ensures old(cursorTimer) + dt <= BLINK_INTERVAL ==>
                cursorVisible == old(cursorVisible) && cursorTimer == old(cursorTimer) + dt
    {
      cursorTimer := cursorTimer + dt;
      if cursorTimer > BLINK_INTERVAL {
        cursorVisible := !cursorVisible;
        cursorTimer := 0;
      }
    }
  }
}
