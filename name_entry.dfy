/** The name-entry screen shown for a new high score (core/game.cpp:742-799): the key rules
    that edit the name buffer, the poll loop that feeds them, and the trimming applied
    when input ends. Drawing, the frame delay and the confirmation screen are not
    modelled. */
module NameEntry {
  import opened Basics
  import opened Events
  import opened HighScores
  import opened ScoreFile

  /** The buffer accepts no more characters once it holds this many. */
  const MAX_NAME_LENGTH: nat := 10

  /** isalnum in the C locale. */
  predicate IsAlnum(c: char)
  {
    '0' <= c <= '9' || 'a' <= c <= 'z' || 'A' <= c <= 'Z'
  }

  /** A buffer the entry screen can hold: at most 10 characters, all alphanumeric. */
  predicate ValidBuffer(name: string)
  {
    |name| <= MAX_NAME_LENGTH && forall i :: 0 <= i < |name| ==> IsAlnum(name[i])
  }

  /** The character a key types, as written: the key code is cut to its low byte
      (`static_cast<unsigned char>` for the test, `static_cast<char>` for the append), so
      a non-character key whose code ends in an alphanumeric byte types that byte. */
  function TypedAsWritten(key: nat): (c: Option<char>)
    ensures c.Some? ==> IsAlnum(c.value) && c.value as int == key % 256
    ensures c.None? ==> key % 256 >= 128 || !IsAlnum((key % 256) as char)
  {
    var low := key % 256;
    if low < 128 && IsAlnum(low as char) then Some(low as char) else None
  }

  /** The character a key types: only a key whose code is an alphanumeric character. */
  function Typed(key: nat): (c: Option<char>)
    ensures c.Some? <==> key < 128 && IsAlnum(key as char)
    ensures c.Some? ==> c.value as int == key
  {
    if key < 128 && IsAlnum(key as char) then Some(key as char) else None
  }

  /** The two readings agree on every key whose code fits in a byte. */
  lemma TypedAgreesOnByteKeys(key: nat)
    requires key < 256
    ensures Typed(key) == TypedAsWritten(key)
  {
  }

  /** The Home key (code 0x4000004A) types 'J' as written, and nothing once corrected. */
  lemma HomeKeyTypesJ()
    ensures TypedAsWritten(KEY_HOME) == Some('J')
    ensures Typed(KEY_HOME) == None
    ensures KeyRuleAsWritten("", KEY_HOME) == ("J", false)
    ensures KeyRule("", KEY_HOME) == ("", false)
  {
    assert KEY_HOME % 256 == 'J' as int;
    assert "" + ['J'] == "J";
  }

  /** One key press with `typed` the character it types, if any: the new buffer and
      whether input ends (core/game.cpp:764-780). The tests run in the source's order:
      arrows are ignored, Return ends, Backspace pops a non-empty buffer, a typed
      character is appended below 10 characters, Escape replaces the buffer by "ANON" and
      ends. */
  function ApplyKey(name: string, key: nat, typed: Option<char>): (r: (string, bool))
    ensures IsArrowKey(key) ==> r == (name, false)
  {
    if IsArrowKey(key) then (name, false)
    else if key == KEY_RETURN then (name, true)
    else if key == KEY_BACKSPACE && |name| > 0 then (name[..|name| - 1], false)
    else if |name| < MAX_NAME_LENGTH && typed.Some? then (name + [typed.value], false)
    else if key == KEY_ESCAPE then (ANON, true)
    else (name, false)
  }

  /** The key rule as written, with the truncated key code: the same as `KeyRule` except
      that any key other than an arrow whose low byte is alphanumeric types that byte.
      This is the rule the entry session follows. */
  function KeyRuleAsWritten(name: string, key: nat): (r: (string, bool))
    ensures r.1 <==> key == KEY_RETURN || key == KEY_ESCAPE
    ensures key == KEY_ESCAPE ==> r.0 == ANON
    ensures key == KEY_BACKSPACE && |name| > 0 ==> r.0 == name[..|name| - 1]
    ensures !IsArrowKey(key) && TypedAsWritten(key).Some? && |name| < MAX_NAME_LENGTH ==>
      r.0 == name + [TypedAsWritten(key).value]
    ensures key != KEY_ESCAPE && |r.0| > |name| ==>
      |name| < MAX_NAME_LENGTH && !IsArrowKey(key) && TypedAsWritten(key).Some? &&
      r.0 == name + [TypedAsWritten(key).value]
    ensures key != KEY_ESCAPE && |r.0| < |name| ==> key == KEY_BACKSPACE && r.0 == name[..|name| - 1]
    ensures key != KEY_ESCAPE && |r.0| == |name| ==> r.0 == name
    ensures ValidBuffer(name) ==> ValidBuffer(r.0)
  {
    ApplyKey(name, key, TypedAsWritten(key))
  }

  /** The key rule with only character keys typing. Input ends exactly on Return or
      Escape; Escape yields "ANON"; a non-empty buffer loses its last character on
      Backspace; an alphanumeric key is appended exactly when the buffer is shorter than
      10; nothing else changes the buffer. */
  function KeyRule(name: string, key: nat): (r: (string, bool))
    ensures r.1 <==> key == KEY_RETURN || key == KEY_ESCAPE
    ensures key == KEY_ESCAPE ==> r.0 == ANON
    ensures key == KEY_BACKSPACE && |name| > 0 ==> r.0 == name[..|name| - 1]
    ensures key < 128 && IsAlnum(key as char) && |name| < MAX_NAME_LENGTH ==> r.0 == name + [key as char]
    ensures key != KEY_ESCAPE && |r.0| > |name| ==>
      |name| < MAX_NAME_LENGTH && key < 128 && IsAlnum(key as char) && r.0 == name + [key as char]
    ensures key != KEY_ESCAPE && |r.0| < |name| ==> key == KEY_BACKSPACE && r.0 == name[..|name| - 1]
    ensures key != KEY_ESCAPE && |r.0| == |name| ==> r.0 == name
    ensures ValidBuffer(name) ==> ValidBuffer(r.0)
  {
    ApplyKey(name, key, Typed(key))
  }

  /** The state of the entry screen: the buffer, whether input continues, and the game's
      running flag. */
  datatype Entry = Entry(name: string, inputting: bool, running: bool)

  /** One polled event. Quit ends input and the game; a key goes through the key rule as
      written; other events are ignored. Events after the end of input in the same poll
      are still handled, as the poll loop does not test `inputting`. */
  function EventStep(s: Entry, e: Event): (t: Entry)
    ensures t.running ==> s.running
    ensures t.inputting ==> s.inputting
    ensures ValidBuffer(s.name) ==> ValidBuffer(t.name)
  {
    match e
    case Quit => Entry(s.name, false, false)
    case KeyDown(key) =>
      var (name, done) := KeyRuleAsWritten(s.name, key);
      Entry(name, s.inputting && !done, s.running)
    case _ => s
  }

  /** All events of one poll, in order. */
  function Poll(s: Entry, events: seq<Event>): (t: Entry)
  {
    if |events| == 0 then s else EventStep(Poll(s, events[..|events| - 1]), events[|events| - 1])
  }

  /** The entry loop: one poll per frame while input continues and the game runs. The
      event stream is finite here, so the loop also stops when it runs out of polls. */
  function Session(s: Entry, polls: seq<seq<Event>>): (t: Entry)
    decreases polls
  {
    if |polls| == 0 || !s.inputting || !s.running then s else Session(Poll(s, polls[0]), polls[1..])
  }

  /** A poll keeps the buffer valid and never restarts input or the game. */
  lemma {:induction false} PollKeeps(s: Entry, events: seq<Event>)
    ensures ValidBuffer(s.name) ==> ValidBuffer(Poll(s, events).name)
    ensures Poll(s, events).running ==> s.running
    ensures Poll(s, events).inputting ==> s.inputting
  {
    if |events| > 0 {
      PollKeeps(s, events[..|events| - 1]);
    }
  }

  /** Whatever is pressed, the buffer never holds more than 10 characters and holds only
      alphanumeric ones (or is "ANON" after Escape), and a session never restarts the
      game. */
  lemma {:induction false} SessionKeeps(s: Entry, polls: seq<seq<Event>>)
    ensures ValidBuffer(s.name) ==> ValidBuffer(Session(s, polls).name)
    ensures Session(s, polls).running ==> s.running
    decreases polls
  {
    if |polls| > 0 && s.inputting && s.running {
      PollKeeps(s, polls[0]);
      SessionKeeps(Poll(s, polls[0]), polls[1..]);
    }
  }

  /** The input loop of handleHighScoreEntryScreen (core/game.cpp:753-784), starting with
      an empty buffer. */
  method EnterName(polls: seq<seq<Event>>, running: bool) returns (name: string, stillRunning: bool)
    ensures Entry(name, false, stillRunning) == Session(Entry("", true, running), polls).(inputting := false)
    ensures ValidBuffer(name)
    ensures stillRunning ==> running
  {
    var s := Entry("", true, running);
    SessionKeeps(s, polls);
    var p := 0;
    while s.inputting && s.running && p < |polls|
      invariant 0 <= p <= |polls|
      invariant Session(s, polls[p..]) == Session(Entry("", true, running), polls)
      decreases |polls| - p
    {
      var events := polls[p];
      var i := 0;
      var t := s;
      while i < |events|
        invariant 0 <= i <= |events|
        invariant t == Poll(s, events[..i])
      {
        t := EventStep(t, events[i]);
        assert events[..i + 1][..i] == events[..i];
        i := i + 1;
      }
      assert events[..|events|] == events;
      assert polls[p..][1..] == polls[p + 1..];
      s := t;
      p := p + 1;
    }
    name := s.name;
    stillRunning := s.running;
  }

  predicate IsBlank(c: char)
  {
    c == ' ' || c == '\t'
  }

  /** Position of the first character that is not a space or tab (`find_first_not_of`),
      |s| when there is none. */
  function FirstNotBlank(s: string): (n: nat)
    ensures n <= |s|
    ensures forall i :: 0 <= i < n ==> IsBlank(s[i])
    ensures n < |s| ==> !IsBlank(s[n])
  {
    if |s| == 0 || !IsBlank(s[0]) then 0 else 1 + FirstNotBlank(s[1..])
  }

  /** One past the last character that is not a space or tab (`find_last_not_of` + 1),
      0 when there is none. */
  function EndNotBlank(s: string): (n: nat)
    ensures n <= |s|
    ensures forall i :: n <= i < |s| ==> IsBlank(s[i])
    ensures n > 0 ==> !IsBlank(s[n - 1])
  {
    if |s| == 0 || !IsBlank(s[|s| - 1]) then |s| else EndNotBlank(s[..|s| - 1])
  }

  /** The name with its leading and trailing spaces and tabs removed; empty when it
      holds nothing else (core/game.cpp:787-793). */
  function Trim(s: string): (t: string)
    ensures t == [] <==> forall i :: 0 <= i < |s| ==> IsBlank(s[i])
    ensures t != [] ==> !IsBlank(t[0]) && !IsBlank(t[|t| - 1])
    ensures t != [] ==> t == s[FirstNotBlank(s)..EndNotBlank(s)]
    ensures (forall i :: 0 <= i < |s| ==> !IsBlank(s[i])) ==> t == s
  {
    var start := FirstNotBlank(s);
    if start == |s| then []
    else
      var end := EndNotBlank(s);
      assert !IsBlank(s[start]);
      s[start..end]
  }

  /** The name handed to addHighScore: trimmed, "ANON" when nothing is left
      (core/game.cpp:786-798). */
  function FinalName(name: string): (n: string)
    ensures n != []
    ensures n == ANON || n == Trim(name)
    ensures Trim(name) == [] ==> n == ANON
    ensures forall i :: 0 <= i < |n| ==> n[i] in name || n == ANON
  {
    if name == [] then ANON
    else
      var t := Trim(name);
      if t == [] then ANON else t
  }

  /** A name typed on the entry screen is kept as typed (or becomes "ANON" when empty), and
      it is a single token, so it is read back whole from the high-score file. */
  lemma {:induction false} TypedNameIsKept(name: string)
    requires ValidBuffer(name)
    ensures FinalName(name) == if name == [] then ANON else name
    ensures IsToken(FinalName(name))
  {
    assert forall i :: 0 <= i < |name| ==> !IsBlank(name[i]);
    var n := FinalName(name);
    forall i | 0 <= i < |n| ensures !IsSpace(n[i]) {
      if n != ANON {
        assert IsAlnum(name[i]);
      }
    }
  }
}
