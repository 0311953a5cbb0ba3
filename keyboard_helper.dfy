/** Text entry from the keyboard: a cursor-indexed string buffer edited by
    Space, Back and letter keys, each repeated while held after an initial
    delay, with a per-key table of hold timers. */
module KeyboardHelper {
  import opened Keys

  /** `CharacterInitialHoldDelay`: 0.5 seconds. */
  const CharacterInitialHoldDelay: real := 0.5
  /** `CharacterHoldRepeatInterval`: the float 0.1f widened to double. */
  const CharacterHoldRepeatInterval: real := 0.100000001490116119384765625

  /** `System.Text.StringBuilder`, reduced to the two edits used here. */
  class StringBuilder {
    var chars: seq<char>

    constructor (s: seq<char>)
      ensures chars == s
    {
      chars := s;
    }

    method Insert(index: int, c: char)
      requires 0 <= index <= |chars|
      modifies this
      ensures chars == old(chars)[..index] + [c] + old(chars)[index..]
    {
      chars := chars[..index] + [c] + chars[index..];
    }

    method Remove(start: int, length: int)
      requires 0 <= start && 0 <= length && start + length <= |chars|
      modifies this
      ensures chars == old(chars)[..start] + old(chars)[start + length..]
    {
      chars := chars[..start] + chars[start + length..];
    }
  }

  // Character classes of the ASCII key names.

  predicate IsUpper(c: char)
  {
    'A' <= c <= 'Z'
  }

  predicate IsLower(c: char)
  {
    'a' <= c <= 'z'
  }

  predicate IsLetterOrDigit(c: char)
  {
    IsUpper(c) || IsLower(c) || '0' <= c <= '9'
  }

  function ToUpper(c: char): char
  {
    if IsLower(c) then (c as int - 32) as char else c
  }

  function ToLower(c: char): char
  {
    if IsUpper(c) then (c as int + 32) as char else c
  }

  /** The outcome of one key handler: the buffer, the cursor, and whether
      anything changed. */
  datatype Edit = Edit(text: seq<char>, index: int, changed: bool)

  predicate CursorIn(text: seq<char>, index: int)
  {
    0 <= index <= |text|
  }

  function InsertAt(text: seq<char>, index: int, c: char): seq<char>
    requires CursorIn(text, index)
  {
    text[..index] + [c] + text[index..]
  }

  /** `HandleSpace`: a space at the cursor, which moves past it. */
  function SpaceEdit(text: seq<char>, index: int, key: Key): (e: Edit)
    requires key == Space ==> CursorIn(text, index)
    ensures e.changed <==> key == Space
    ensures e.changed ==> && e.index == index + 1 && |e.text| == |text| + 1 && e.text[index] == ' '
                          && e.text[..index] == text[..index] && e.text[index + 1..] == text[index..]
    ensures !e.changed ==> e.text == text && e.index == index
  {
    if key == Space then Edit(InsertAt(text, index, ' '), index + 1, true)
    else Edit(text, index, false)
  }

  /** `HandleBackSpace`: removes the character before the cursor, or the
      first character when the cursor is negative. */
  function BackSpaceEdit(text: seq<char>, index: int, key: Key): (e: Edit)
    requires key == Back && |text| > 0 && index != 0 ==> index <= |text|
    ensures e.changed <==> key == Back && |text| > 0 && index != 0
    ensures e.changed ==> && 0 <= e.index < |text| && |e.text| == |text| - 1
                          && e.text == text[..e.index] + text[e.index + 1..]
    ensures !e.changed ==> e.text == text && e.index == index
  {
    if key == Back && |text| > 0 && index != 0 then
      var position := if index - 1 < 0 then 0 else index - 1;
      Edit(text[..position] + text[position + 1..], position, true)
    else Edit(text, index, false)
  }

  /** Whether `HandleCharacter` types the key: its name is one letter or
      digit. */
  predicate TypesCharacter(key: Key)
  {
    |key| == 1 && IsLetterOrDigit(key[0])
  }

  /** The character typed for a key: upper case when exactly one of shift
      and caps lock is on, lower case otherwise. */
  function TypedChar(key: Key, shift: bool, capsLock: bool): (c: char)
    requires TypesCharacter(key)
    ensures IsLetterOrDigit(c) && ToUpper(c) == ToUpper(key[0]) && ToLower(c) == ToLower(key[0])
  {
    if (shift || capsLock) && !(shift && capsLock) then ToUpper(key[0]) else ToLower(key[0])
  }

  /** `HandleCharacter`. */
  function CharacterEdit(text: seq<char>, index: int, key: Key, shift: bool, capsLock: bool): (e: Edit)
    requires TypesCharacter(key) ==> CursorIn(text, index)
    ensures e.changed <==> TypesCharacter(key)
    ensures e.changed ==> && e.index == index + 1 && |e.text| == |text| + 1
                          && e.text[index] == TypedChar(key, shift, capsLock)
                          && e.text[..index] == text[..index] && e.text[index + 1..] == text[index..]
    ensures !e.changed ==> e.text == text && e.index == index
  {
    if TypesCharacter(key) then Edit(InsertAt(text, index, TypedChar(key, shift, capsLock)), index + 1, true)
    else Edit(text, index, false)
  }

  /** Every handler keeps the cursor within the buffer. */
  lemma EditsKeepCursorIn(text: seq<char>, index: int, key: Key, shift: bool, capsLock: bool)
    requires CursorIn(text, index)
    ensures var e := SpaceEdit(text, index, key); CursorIn(e.text, e.index)
    ensures var e := BackSpaceEdit(text, index, key); CursorIn(e.text, e.index)
    ensures var e := CharacterEdit(text, index, key, shift, capsLock); CursorIn(e.text, e.index)
  {
  }

  /** Back undoes Space: the buffer and the cursor are restored. */
  lemma SpaceThenBackSpace(text: seq<char>, index: int)
    requires CursorIn(text, index)
    ensures var typed := SpaceEdit(text, index, Space);
      BackSpaceEdit(typed.text, typed.index, Back) == Edit(text, index, true)
  {
    var typed := InsertAt(text, index, ' ');
    assert typed[..index] + typed[index + 1..] == text by {
      assert typed[..index] == text[..index];
      assert typed[index + 1..] == text[index..];
    }
  }

  /** Back undoes a typed character in the same way. */
  lemma CharacterThenBackSpace(text: seq<char>, index: int, key: Key, shift: bool, capsLock: bool)
    requires CursorIn(text, index) && TypesCharacter(key)
    ensures var typed := CharacterEdit(text, index, key, shift, capsLock);
      BackSpaceEdit(typed.text, typed.index, Back) == Edit(text, index, true)
  {
    var typed := InsertAt(text, index, TypedChar(key, shift, capsLock));
    assert typed[..index] + typed[index + 1..] == text by {
      assert typed[..index] == text[..index];
      assert typed[index + 1..] == text[index..];
    }
  }

  /** Back deletes exactly one character, the one before a positive cursor
      (the first one for a negative cursor), and does nothing at the start
      of the buffer or in an empty one. */
  lemma BackSpaceDeletesOne(text: seq<char>, index: int)
    requires index <= |text|
    ensures var e := BackSpaceEdit(text, index, Back);
      && (e.changed <==> |text| > 0 && index != 0)
      && (e.changed ==> |e.text| == |text| - 1 && e.index == (if index > 0 then index - 1 else 0)
                        && e.text == text[..e.index] + text[e.index + 1..])
      && (!e.changed ==> e.text == text && e.index == index)
  {
  }

  /** The casing rule: for a letter key the typed character is an upper
      case letter exactly when shift XOR caps lock, and it is the key's
      letter in either case. */
  lemma CasingRule(key: Key, shift: bool, capsLock: bool)
    requires TypesCharacter(key) && IsUpper(key[0])
    ensures var c := TypedChar(key, shift, capsLock);
      && (IsUpper(c) <==> shift != capsLock)
      && (IsLower(c) <==> shift == capsLock)
      && ToUpper(c) == key[0]
  {
  }

  /** Named keys such as Space, Back or the digit keys D0..D9 never type
      anything. */
  lemma LongKeyNamesTypeNothing(text: seq<char>, index: int, key: Key, shift: bool, capsLock: bool)
    requires |key| != 1
    ensures CharacterEdit(text, index, key, shift, capsLock) == Edit(text, index, false)
  {
  }

  /** One frame of a hold timer: the timer's new value and whether the
      key's action runs. */
  datatype Hold = Hold(timer: real, fires: bool)

  /** `ProcessKeyHold` for one key: nothing while the key is up; on the
      frame it goes down the timer restarts at 0 and the action runs;
      while it stays down the timer grows by the frame time, and from the
      delay on each frame that reaches it subtracts the repeat interval and
      runs the action. */
  function HoldStep(timer: real, isDown: bool, wasDown: bool, elapsed: real, holdDelay: real, holdInterval: real): (h: Hold)
    ensures !isDown ==> h == Hold(timer, false)
    ensures isDown && !wasDown ==> h == Hold(0.0, true)
    ensures isDown && wasDown ==> h.timer == timer + elapsed - (if h.fires then holdInterval else 0.0)
  {
    if !isDown then Hold(timer, false)
    else if !wasDown then Hold(0.0, true)
    else
      var grown := timer + elapsed;
      if grown >= holdDelay then Hold(grown - holdInterval, true) else Hold(grown, false)
  }

  /** While the frame time is at most the repeat interval and the interval
      at most the delay, a held key's timer stays in [0, delay): after the
      initial delay the action repeats without the timer running away. */
  lemma HoldTimerStaysBelowDelay(timer: real, isDown: bool, wasDown: bool, elapsed: real,
                                 holdDelay: real, holdInterval: real)
    requires 0.0 <= elapsed <= holdInterval <= holdDelay && 0.0 < holdDelay
    requires 0.0 <= timer < holdDelay
    ensures var h := HoldStep(timer, isDown, wasDown, elapsed, holdDelay, holdInterval);
      0.0 <= h.timer < holdDelay
  {
  }

  /** A key that was just pressed fires once; a held key fires exactly when
      its grown timer reaches the delay; a released key never fires. */
  lemma HoldFiring(timer: real, isDown: bool, wasDown: bool, elapsed: real, holdDelay: real, holdInterval: real)
    ensures HoldStep(timer, isDown, wasDown, elapsed, holdDelay, holdInterval).fires
      <==> isDown && (!wasDown || timer + elapsed >= holdDelay)
  {
  }

  /** The `ref` overload of `ProcessKeyHold`: as the dictionary one on the
      held key's timer, and it also zeroes the opposite key's timer
      whenever the held key is down. */
  method ProcessKeyHoldRef(holdDelay: real, holdInterval: real, heldKeyTimer: real, oppositeKeyTimer: real,
                           isDown: bool, wasDown: bool, elapsed: real)
    returns (heldKeyTimer': real, oppositeKeyTimer': real, fires: bool)
    ensures Hold(heldKeyTimer', fires) == HoldStep(heldKeyTimer, isDown, wasDown, elapsed, holdDelay, holdInterval)
    ensures oppositeKeyTimer' == if isDown then 0.0 else oppositeKeyTimer
  {
    heldKeyTimer', oppositeKeyTimer', fires := heldKeyTimer, oppositeKeyTimer, false;
    if isDown {
      oppositeKeyTimer' := 0.0;
      if !wasDown {
        heldKeyTimer' := 0.0;
        fires := true;
      } else {
        heldKeyTimer' := heldKeyTimer' + elapsed;
        if heldKeyTimer' >= holdDelay {
          heldKeyTimer' := heldKeyTimer' - holdInterval;
          fires := true;
        }
      }
    }
  }

  /** One key of `ProcessInput`'s sweep: what the text and the hold-time
      table look like after it. */
  datatype Typing = Typing(text: seq<char>, index: int, holdTimes: map<Key, real>, changed: bool)

  /** The handler `ProcessInput` binds to a key. */
  function HandlerEdit(text: seq<char>, index: int, key: Key, shift: bool, capsLock: bool): (e: Edit)
    requires CursorIn(text, index)
    ensures CursorIn(e.text, e.index)
  {
    if key == Back then BackSpaceEdit(text, index, key)
    else if key == Space then SpaceEdit(text, index, key)
    else CharacterEdit(text, index, key, shift, capsLock)
  }

  function KeyStep(s: Typing, key: Key, down: set<Key>, previouslyDown: set<Key>, elapsed: real,
                   capsLock: bool): (r: Typing)
    requires CursorIn(s.text, s.index)
    ensures CursorIn(r.text, r.index)
  {
    if key == Left || key == Right then s
    else if key !in down then s.(holdTimes := s.holdTimes - {key})
    else
      var timer := if key in s.holdTimes then s.holdTimes[key] else 0.0;
      var hold := HoldStep(timer, true, key in previouslyDown, elapsed,
                           CharacterInitialHoldDelay, CharacterHoldRepeatInterval);
      var timed := s.(holdTimes := s.holdTimes[key := hold.timer]);
      if !hold.fires then timed
      else
        var shift := LeftShift in down || RightShift in down;
        var e := HandlerEdit(s.text, s.index, key, shift, capsLock);
        timed.(text := e.text, index := e.index, changed := e.changed)
  }

  /** The sweep of `ProcessInput` over the keys, in order. */
  function Sweep(keys: seq<Key>, start: Typing, down: set<Key>, previouslyDown: set<Key>, elapsed: real,
                 capsLock: bool): (r: Typing)
    requires CursorIn(start.text, start.index)
    ensures CursorIn(r.text, r.index)
  {
    if keys == [] then start
    else KeyStep(Sweep(keys[..|keys| - 1], start, down, previouslyDown, elapsed, capsLock), keys[|keys| - 1],
                 down, previouslyDown, elapsed, capsLock)
  }

  /** The hold-time table after a sweep: arrows keep whatever entry they
      had, a swept key that is down has an entry, a swept key that is up
      has none, and keys not swept are untouched. */
  lemma {:induction false} SweepHoldTimes(keys: seq<Key>, start: Typing, down: set<Key>, previouslyDown: set<Key>,
                                          elapsed: real, capsLock: bool, key: Key)
    requires CursorIn(start.text, start.index)
    ensures var r := Sweep(keys, start, down, previouslyDown, elapsed, capsLock);
      && (key == Left || key == Right || key !in keys ==>
            (key in r.holdTimes <==> key in start.holdTimes)
            && (key in start.holdTimes ==> r.holdTimes[key] == start.holdTimes[key]))
      && (key != Left && key != Right && key in keys ==> (key in r.holdTimes <==> key in down))
  {
    if keys != [] {
      var prefix := keys[..|keys| - 1];
      SweepHoldTimes(prefix, start, down, previouslyDown, elapsed, capsLock, key);
      assert key in keys <==> key in prefix || key == keys[|keys| - 1];
    }
  }

  /** A sweep in which no action fires leaves the text and the cursor alone
      and reports no change. */
  lemma {:induction false} QuietSweep(keys: seq<Key>, start: Typing, down: set<Key>, previouslyDown: set<Key>,
                                      elapsed: real, capsLock: bool)
    requires CursorIn(start.text, start.index) && !start.changed
    requires forall k :: k in keys && k in down ==> k in previouslyDown
    requires forall k :: k in keys && k in down ==> k in start.holdTimes && start.holdTimes[k] + elapsed < CharacterInitialHoldDelay
    requires forall i, j :: 0 <= i < j < |keys| ==> keys[i] != keys[j]
    ensures var r := Sweep(keys, start, down, previouslyDown, elapsed, capsLock);
      r.text == start.text && r.index == start.index && !r.changed
  {
    if keys != [] {
      var prefix := keys[..|keys| - 1];
      QuietSweep(prefix, start, down, previouslyDown, elapsed, capsLock);
      var key := keys[|keys| - 1];
      if key != Left && key != Right && key in down {
        SweepHoldTimes(prefix, start, down, previouslyDown, elapsed, capsLock, key);
        assert key !in prefix;
      }
    }
  }

  /** Whether the action of the key at position i runs when the sweep
      reaches it: the key is not an arrow, it is down, and its hold timer
      (0 when it has none yet) fires. */
  predicate FiresAt(keys: seq<Key>, start: Typing, down: set<Key>, previouslyDown: set<Key>, elapsed: real,
                    capsLock: bool, i: int)
    requires CursorIn(start.text, start.index) && 0 <= i < |keys|
  {
    var s := Sweep(keys[..i], start, down, previouslyDown, elapsed, capsLock);
    var key := keys[i];
    && key != Left && key != Right && key in down
    && HoldStep(if key in s.holdTimes then s.holdTimes[key] else 0.0, true, key in previouslyDown, elapsed,
                CharacterInitialHoldDelay, CharacterHoldRepeatInterval).fires
  }

  /** A key whose action does not run leaves the text, the cursor and the
      flag as they were. */
  lemma QuietKeyKeepsFlag(s: Typing, key: Key, down: set<Key>, previouslyDown: set<Key>, elapsed: real,
                          capsLock: bool)
    requires CursorIn(s.text, s.index)
    requires key == Left || key == Right || key !in down ||
             !HoldStep(if key in s.holdTimes then s.holdTimes[key] else 0.0, true, key in previouslyDown, elapsed,
                       CharacterInitialHoldDelay, CharacterHoldRepeatInterval).fires
    ensures var r := KeyStep(s, key, down, previouslyDown, elapsed, capsLock);
      r.text == s.text && r.index == s.index && r.changed == s.changed
  {
  }

  /** The flag `ProcessInput` returns is the result of the last handler
      that ran: with k the last position whose action runs, the flag is
      that handler's own result on the text the sweep had reached; when no
      action runs (k = -1) the flag is the starting one. */
  lemma {:induction false} LastHandlerDecides(keys: seq<Key>, start: Typing, down: set<Key>, previouslyDown: set<Key>,
                                              elapsed: real, capsLock: bool, k: int)
    requires CursorIn(start.text, start.index) && -1 <= k < |keys|
    requires k >= 0 ==> FiresAt(keys, start, down, previouslyDown, elapsed, capsLock, k)
    requires forall j | k < j < |keys| :: !FiresAt(keys, start, down, previouslyDown, elapsed, capsLock, j)
    ensures var shift := LeftShift in down || RightShift in down;
      Sweep(keys, start, down, previouslyDown, elapsed, capsLock).changed ==
        if k < 0 then start.changed
        else
          var before := Sweep(keys[..k], start, down, previouslyDown, elapsed, capsLock);
          HandlerEdit(before.text, before.index, keys[k], shift, capsLock).changed
    decreases |keys|
  {
    if keys != [] {
      var n := |keys| - 1;
      var prefix := keys[..n];
      var before := Sweep(prefix, start, down, previouslyDown, elapsed, capsLock);
      if k < n {
        assert !FiresAt(keys, start, down, previouslyDown, elapsed, capsLock, n);
        QuietKeyKeepsFlag(before, keys[n], down, previouslyDown, elapsed, capsLock);
        forall j | 0 <= j < n
          ensures FiresAt(prefix, start, down, previouslyDown, elapsed, capsLock, j)
              == FiresAt(keys, start, down, previouslyDown, elapsed, capsLock, j)
        {
          assert prefix[..j] == keys[..j];
        }
        if k >= 0 {
          assert prefix[..k] == keys[..k];
        }
        LastHandlerDecides(prefix, start, down, previouslyDown, elapsed, capsLock, k);
      }
    }
  }

  /** The static state of `KeyboardHelper`: the hold time of every key
      currently held. */
  class KeyboardHelper {
    var keyHoldTimes: map<Key, real>

    constructor ()
      ensures keyHoldTimes == map[]
    {
      keyHoldTimes := map[];
    }

    /** The dictionary overload of `ProcessKeyHold`: the timer is read from
        the table and written back only while the key is down. */
    method ProcessKeyHold(keyHeld: Key, holdDelay: real, holdInterval: real, isDown: bool, wasDown: bool,
                          elapsed: real)
      returns (fires: bool)
      requires keyHeld in keyHoldTimes
      modifies this
      ensures var h := HoldStep(old(keyHoldTimes)[keyHeld], isDown, wasDown, elapsed, holdDelay, holdInterval);
        fires == h.fires
        && keyHoldTimes == if isDown then old(keyHoldTimes)[keyHeld := h.timer] else old(keyHoldTimes)
    {
      var heldKeyTimer := keyHoldTimes[keyHeld];
      fires := false;
      if isDown {
        if !wasDown {
          heldKeyTimer := 0.0;
          fires := true;
        } else {
          heldKeyTimer := heldKeyTimer + elapsed;
          if heldKeyTimer >= holdDelay {
            heldKeyTimer := heldKeyTimer - holdInterval;
            fires := true;
          }
        }
        keyHoldTimes := keyHoldTimes[keyHeld := heldKeyTimer];
      }
    }

    /** One iteration of `ProcessInput`'s sweep. */
    method ProcessKey(key: Key, tempIndex: int, stringBuilder: StringBuilder, hasChanged: bool, down: set<Key>,
                      previouslyDown: set<Key>, elapsed: real, isShiftDown: bool, capsLock: bool)
      returns (tempIndex': int, hasChanged': bool)
      requires CursorIn(stringBuilder.chars, tempIndex) && isShiftDown == (LeftShift in down || RightShift in down)
      modifies this, stringBuilder
      ensures Typing(stringBuilder.chars, tempIndex', keyHoldTimes, hasChanged')
        == KeyStep(Typing(old(stringBuilder.chars), tempIndex, old(keyHoldTimes), hasChanged), key, down,
                   previouslyDown, elapsed, capsLock)
    {
      tempIndex', hasChanged' := tempIndex, hasChanged;
      if key == Left || key == Right {
        return;
      }
      if key in down {
        if key !in keyHoldTimes {
          keyHoldTimes := keyHoldTimes[key := 0.0];
        }
        var fires := ProcessKeyHold(key, CharacterInitialHoldDelay, CharacterHoldRepeatInterval, true,
                                    key in previouslyDown, elapsed);
        if fires {
          ghost var before := stringBuilder.chars;
          if key == Back {
            tempIndex', hasChanged' := HandleBackSpace(tempIndex, key, stringBuilder);
          } else if key == Space {
            tempIndex', hasChanged' := HandleSpace(tempIndex, key, stringBuilder);
          } else {
            tempIndex', hasChanged' := HandleCharacter(tempIndex, key, stringBuilder, isShiftDown, capsLock);
          }
          assert Edit(stringBuilder.chars, tempIndex', hasChanged')
            == HandlerEdit(before, tempIndex, key, isShiftDown, capsLock);
        }
      } else {
        keyHoldTimes := keyHoldTimes - {key};
      }
    }

    /** `ProcessInput`: sweeps `allKeys` (the values of the key
        enumeration), editing `stringBuilder` at a private copy of the
        cursor, and returns the flag of the last handler that ran. */
    method ProcessInput(index: int, stringBuilder: StringBuilder, allKeys: seq<Key>, down: set<Key>,
                        previouslyDown: set<Key>, elapsed: real, capsLock: bool)
      returns (hasChanged: bool)
      requires CursorIn(stringBuilder.chars, index)
      modifies this, stringBuilder
      ensures var r := Sweep(allKeys, Typing(old(stringBuilder.chars), index, old(keyHoldTimes), false),
                             down, previouslyDown, elapsed, capsLock);
        hasChanged == r.changed && stringBuilder.chars == r.text && keyHoldTimes == r.holdTimes
    {
      hasChanged := false;
      var isShiftDown := LeftShift in down || RightShift in down;
      var tempIndex := index;
      ghost var start := Typing(stringBuilder.chars, index, keyHoldTimes, false);
      for i := 0 to |allKeys|
        invariant Typing(stringBuilder.chars, tempIndex, keyHoldTimes, hasChanged)
          == Sweep(allKeys[..i], start, down, previouslyDown, elapsed, capsLock)
      {
        assert allKeys[..i + 1][..i] == allKeys[..i];
        tempIndex, hasChanged := ProcessKey(allKeys[i], tempIndex, stringBuilder, hasChanged, down, previouslyDown,
                                            elapsed, isShiftDown, capsLock);
      }
      assert allKeys[..|allKeys|] == allKeys;
    }
  }

  method HandleSpace(index: int, key: Key, stringBuilder: StringBuilder) returns (index': int, changed: bool)
    requires key == Space ==> CursorIn(stringBuilder.chars, index)
    modifies stringBuilder
    ensures Edit(stringBuilder.chars, index', changed) == SpaceEdit(old(stringBuilder.chars), index, key)
  {
    if key == Space {
      stringBuilder.Insert(index, ' ');
      return index + 1, true;
    }
    return index, false;
  }

  method HandleBackSpace(index: int, key: Key, stringBuilder: StringBuilder) returns (index': int, changed: bool)
    requires key == Back && |stringBuilder.chars| > 0 && index != 0 ==> index <= |stringBuilder.chars|
    modifies stringBuilder
    ensures Edit(stringBuilder.chars, index', changed) == BackSpaceEdit(old(stringBuilder.chars), index, key)
  {
    if key == Back && |stringBuilder.chars| > 0 && index != 0 {
      var positiveIndex := if 0 > index - 1 then 0 else index - 1;
      stringBuilder.Remove(positiveIndex, 1);
      return positiveIndex, true;
    }
    return index, false;
  }

  /** `HandleCharacter`; caps lock is an input. */
  method HandleCharacter(index: int, key: Key, stringBuilder: StringBuilder, isShiftDown: bool, capsLock: bool)
    returns (index': int, changed: bool)
    requires TypesCharacter(key) ==> CursorIn(stringBuilder.chars, index)
    modifies stringBuilder
    ensures Edit(stringBuilder.chars, index', changed)
      == CharacterEdit(old(stringBuilder.chars), index, key, isShiftDown, capsLock)
  {
    var keyString := key;
    if |keyString| == 1 && IsLetterOrDigit(keyString[0]) {
      var character := keyString[0];
      if (isShiftDown || capsLock) && !(isShiftDown && capsLock) {
        stringBuilder.Insert(index, ToUpper(character));
        return index + 1, true;
      }
      stringBuilder.Insert(index, ToLower(character));
      return index + 1, true;
    }
    return index, false;
  }
}
