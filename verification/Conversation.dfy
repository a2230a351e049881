/** The prompt conversation: which attempt it belongs to, its status, and the bounded response text. */
module Conversations {
  import opened Prelude

  const MAX_TEXT_CHARS: nat := 512
  const MAX_INPUT_BYTES: nat := MAX_TEXT_CHARS * 4

  datatype Status = Waiting | Submitting | Succeeded | Refused

  datatype Response = Prompt(secret: bool) | Notice | Success | Failure

  datatype Effect = Prompted | Noticed | Authenticated | Denied

  /** The state of a conversation. Attempts are unbounded here; the program wraps them at 2^64. */
  datatype Talk = Talk(input: string, secret: bool, status: Status, attempt: nat)

  const FRESH: Talk := Talk("", true, Submitting, 1)

  function BeginAttempt(t: Talk): Talk { t.(attempt := t.attempt + 1, input := "", status := Submitting) }

  function InvalidateAttempt(t: Talk): Talk { t.(attempt := t.attempt + 1, input := "") }

  /** The status and text after a response; the caller has checked the attempt. */
  function Received(t: Talk, r: Response): Talk {
    match r
    case Prompt(secret) => t.(input := "", secret := secret, status := Waiting)
    case Notice => t
    case Success => t.(input := "", status := Succeeded)
    case Failure => t.(input := "", secret := true, status := Refused)
  }

  function EffectOf(r: Response): Effect {
    match r
    case Prompt(_) => Prompted
    case Notice => Noticed
    case Success => Authenticated
    case Failure => Denied
  }

  // ------------------------------------------------------------ bounded text

  /** Bytes of a character in UTF-8. */
  function Utf8Length(c: char): (n: nat)
    ensures 1 <= n <= 4
  {
    var code := c as int;
    if code < 0x80 then 1 else if code < 0x800 then 2 else if code < 0x1_0000 then 3 else 4
  }

  function Utf8Bytes(s: string): nat {
    if s == [] then 0 else Utf8Bytes(s[..|s| - 1]) + Utf8Length(s[|s| - 1])
  }

  lemma {:induction false} Utf8AtMostFour(s: string)
    ensures Utf8Bytes(s) <= 4 * |s|
  {
    if s != [] { Utf8AtMostFour(s[..|s| - 1]); }
  }

  /** As much of `value` as the character bound leaves room for. */
  function Appended(target: string, value: string): (r: string)
    requires |target| <= MAX_TEXT_CHARS
  {
    target + value[..Min(|value|, MAX_TEXT_CHARS - |target|)]
  }

  /**
   * Appends characters until a bound is met. The byte bound is never the one met: the
   * character bound is, so the result is the longest prefix that fits by characters.
   */
  method AppendBounded(target: string, value: string) returns (r: string)
    requires |target| <= MAX_TEXT_CHARS
    ensures r == Appended(target, value)
    ensures |r| <= MAX_TEXT_CHARS && Utf8Bytes(r) <= MAX_INPUT_BYTES
  {
    r := target;
    var i := 0;
    while i < |value|
      invariant i <= |value| && |target| + i <= MAX_TEXT_CHARS
      invariant r == target + value[..i]
    {
      Utf8AtMostFour(r);
      if |r| == MAX_TEXT_CHARS || Utf8Bytes(r) + Utf8Length(value[i]) > MAX_INPUT_BYTES { break; }
      r := r + [value[i]];
      i := i + 1;
    }
    Utf8AtMostFour(r);
  }

  /** Text cut to the character bound, its last character replaced when anything was dropped. */
  method BoundedText(value: string) returns (r: string)
    ensures |r| <= MAX_TEXT_CHARS
    ensures |value| <= MAX_TEXT_CHARS ==> r == value
    ensures |value| > MAX_TEXT_CHARS ==> r == value[..MAX_TEXT_CHARS - 1] + ['\U{2026}']
  {
    r := value[..Min(|value|, MAX_TEXT_CHARS)];
    if |value| > MAX_TEXT_CHARS {
      r := r[..|r| - 1];
      r := r + ['\U{2026}'];
    }
  }

  // --------------------------------------------------------------- the object

  class Conversation {
    var input: string
    var secret: bool
    var status: Status
    var attempt: nat

    ghost function Value(): Talk
      reads this
    {
      Talk(input, secret, status, attempt)
    }

    /** The response never outgrows its storage, and exists only while a prompt waits for it. */
    ghost predicate Valid()
      reads this
    {
      Sound(Value())
    }

    constructor ()
      ensures Value() == FRESH && Valid()
    {
      input, secret, status, attempt := "", true, Submitting, 1;
    }

    method Begin() returns (current: nat)
      requires Valid()
      modifies this
      ensures Value() == BeginAttempt(old(Value())) && Valid()
      ensures current == attempt > old(attempt)
    {
      attempt := attempt + 1;
      input := "";
      status := Submitting;
      return attempt;
    }

    method Invalidate()
      requires Valid()
      modifies this
      ensures Value() == InvalidateAttempt(old(Value())) && Valid()
    {
      attempt := attempt + 1;
      input := "";
    }

    method UpdateInput(value: string) returns (changed: bool)
      requires Valid()
      modifies this
      ensures Valid() && changed == (old(status) == Waiting)
      ensures Value() == Edited(old(Value()), value)
    {
      if status != Waiting { return false; }
      input := "";
      input := AppendBounded(input, value);
      return true;
    }

    /** Appends typed text and reports whether any of it fitted. */
    method PushInput(value: string) returns (changed: bool)
      requires Valid()
      modifies this
      ensures Valid() && Value() == Pushed(old(Value()), value)
      ensures changed <==> old(status) == Waiting && value != "" && |old(input)| < MAX_TEXT_CHARS
    {
      if status != Waiting { return false; }
      var previous := Utf8Bytes(input);
      ghost var before := input;
      input := AppendBounded(input, value);
      Utf8Grows(before, input);
      assert |input| == |before| ==> input == before;
      return Utf8Bytes(input) != previous;
    }

    method PopInput() returns (changed: bool)
      requires Valid()
      modifies this
      ensures Valid() && Value() == Popped(old(Value()))
      ensures changed <==> old(status) == Waiting && old(input) != ""
    {
      if status != Waiting { return false; }
      if input == "" { return false; }
      input := input[..|input| - 1];
      return true;
    }

    /** Moves the response out of the conversation. */
    method Submit() returns (r: Option<(nat, string)>)
      requires Valid()
      modifies this
      ensures Valid()
      ensures r == if old(status) == Waiting then Some((old(attempt), old(input))) else None
      ensures Value() == if old(status) == Waiting then Submitted(old(Value())) else old(Value())
    {
      if status != Waiting { return None; }
      status := Submitting;
      var response := input;
      input := "";
      return Some((attempt, response));
    }

    method Receive(to: nat, response: Response) returns (r: Option<Effect>)
      requires Valid()
      modifies this
      ensures Valid()
      ensures r == if to == old(attempt) then Some(EffectOf(response)) else None
      ensures Value() == if to == old(attempt) then Received(old(Value()), response) else old(Value())
    {
      if to != attempt { return None; }
      match response {
        case Prompt(isSecret) =>
          input := "";
          secret := isSecret;
          status := Waiting;
          return Some(Prompted);
        case Notice =>
          return Some(Noticed);
        case Success =>
          input := "";
          status := Succeeded;
          return Some(Authenticated);
        case Failure =>
          input := "";
          secret := true;
          status := Refused;
          return Some(Denied);
      }
    }

    method Fail()
      requires Valid()
      modifies this
      ensures Valid() && Value() == Received(old(Value()), Failure)
    {
      var effect := Receive(attempt, Failure);
    }
  }

  ghost predicate Sound(t: Talk) {
    |t.input| <= MAX_TEXT_CHARS && (t.input != "" ==> t.status == Waiting)
  }

  function Edited(t: Talk, value: string): Talk {
    if t.status == Waiting then t.(input := Appended("", value)) else t
  }

  function Pushed(t: Talk, value: string): Talk
    requires Sound(t)
  {
    if t.status == Waiting then t.(input := Appended(t.input, value)) else t
  }

  function Popped(t: Talk): Talk {
    if t.status == Waiting && t.input != "" then t.(input := t.input[..|t.input| - 1]) else t
  }

  /** How typed text is split into events does not matter, even where the bound cuts it. */
  lemma TypingInParts(t: Talk, first: string, second: string)
    requires Sound(t)
    ensures Sound(Pushed(t, first)) && Pushed(Pushed(t, first), second) == Pushed(t, first + second)
  {
    var room := MAX_TEXT_CHARS - |t.input|;
    if |first| <= room {
      assert first[..|first|] == first;
      var rest := Min(|second|, room - |first|);
      assert (first + second)[..|first| + rest] == first + second[..rest];
      assert (t.input + first) + second[..rest] == t.input + (first + second[..rest]);
    } else {
      assert (first + second)[..room] == first[..room];
      assert t.input + first[..room] + second[..0] == t.input + first[..room];
    }
  }

  /** A backspace takes back one typed character, exactly when the character fitted. */
  lemma BackspaceUndoesTyping(t: Talk, c: char)
    requires Sound(t) && t.status == Waiting
    ensures Popped(Pushed(t, [c])) == t <==> |t.input| < MAX_TEXT_CHARS
  {
    if |t.input| < MAX_TEXT_CHARS {
      assert [c][..1] == [c];
      assert (t.input + [c])[..|t.input|] == t.input;
    } else {
      assert t.input + [c][..0] == t.input;
    }
  }

  function Submitted(t: Talk): Talk { t.(status := Submitting, input := "") }

  lemma {:induction false} Utf8Grows(a: string, b: string)
    requires a <= b
    ensures Utf8Bytes(b) >= Utf8Bytes(a) + |b| - |a|
  {
    if |a| < |b| {
      Utf8Grows(a, b[..|b| - 1]);
    } else {
      assert a == b;
    }
  }
}
