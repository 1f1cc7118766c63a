/** The text form of the high-score table (core/game.cpp:599-638): one `NAME SCORE` line
    per entry, read back with `iss >> name >> score`. Opening, reading and writing the
    file are not modelled; a file is the sequence of its lines. */
module ScoreFile {
  import opened Basics
  import opened HighScores

  /** The range of a C++ `int` (32 bits). */
  const INT_MIN: int := -2147483648
  const INT_MAX: int := 2147483647

  /** isspace in the C locale. */
  predicate IsSpace(c: char)
  {
    c == ' ' || c == '\t' || c == '\n' || c == 11 as char || c == 12 as char || c == '\r'
  }

  predicate IsDigit(c: char)
  {
    '0' <= c <= '9'
  }

  /** A name that `>>` reads back whole: non-empty, no white space. */
  predicate IsToken(s: string)
  {
    |s| > 0 && forall i :: 0 <= i < |s| ==> !IsSpace(s[i])
  }

  /** `s` with its leading white space removed. */
  function SkipSpace(s: string): (r: string)
    ensures |r| <= |s| && r == s[|s| - |r|..]
    ensures |r| > 0 ==> !IsSpace(r[0])
    ensures forall i :: 0 <= i < |s| - |r| ==> IsSpace(s[i])
  {
    if |s| > 0 && IsSpace(s[0]) then SkipSpace(s[1..]) else s
  }

  /** The length of the longest prefix of `s` without white space. */
  function TokenLength(s: string): (n: nat)
    ensures n <= |s|
    ensures forall i :: 0 <= i < n ==> !IsSpace(s[i])
    ensures n < |s| ==> IsSpace(s[n])
  {
    if |s| == 0 || IsSpace(s[0]) then 0 else 1 + TokenLength(s[1..])
  }

  /** The length of the longest prefix of `s` made of decimal digits. */
  function DigitRunLength(s: string): (n: nat)
    ensures n <= |s|
    ensures forall i :: 0 <= i < n ==> IsDigit(s[i])
    ensures n < |s| ==> !IsDigit(s[n])
  {
    if |s| == 0 || !IsDigit(s[0]) then 0 else 1 + DigitRunLength(s[1..])
  }

  /** `in >> str`: skip white space, then take the longest run of other characters; fails
      when nothing is left. Returns the token and the unread rest. */
  function ReadToken(s: string): (r: Option<(string, string)>)
    ensures r.Some? ==> IsToken(r.value.0)
    ensures r.None? <==> |SkipSpace(s)| == 0
  {
    var t := SkipSpace(s);
    var n := TokenLength(t);
    if n == 0 then None else Some((t[..n], t[n..]))
  }

  function DigitValue(c: char): (d: nat)
    requires IsDigit(c)
    ensures d < 10
  {
    (c as int - '0' as int) as nat
  }

  /** The number a string of decimal digits denotes. */
  function DigitsValue(ds: string): (v: nat)
    requires forall i :: 0 <= i < |ds| ==> IsDigit(ds[i])
  {
    if |ds| == 0 then 0 else DigitsValue(ds[..|ds| - 1]) * 10 + DigitValue(ds[|ds| - 1])
  }

  /** `in >> n` for an `int`: skip white space, an optional sign, at least one digit;
      the read fails on a missing digit or a value outside the `int` range. Characters
      after the digits are left unread. */
  function ReadInt(s: string): (r: Option<int>)
    ensures r.Some? ==> INT_MIN <= r.value <= INT_MAX
  {
    var t := SkipSpace(s);
    var negative := |t| > 0 && t[0] == '-';
    var unsigned := if |t| > 0 && (t[0] == '-' || t[0] == '+') then t[1..] else t;
    var n := DigitRunLength(unsigned);
    if n == 0 then None
    else
      var magnitude: int := DigitsValue(unsigned[..n]);
      var v := if negative then -magnitude else magnitude;
      if INT_MIN <= v <= INT_MAX then Some(v) else None
  }

  /** One line of the file read as `iss >> name >> score` (core/game.cpp:605-612). */
  function ParseLine(line: string): (r: Option<HighScore>)
    ensures r.Some? ==> IsToken(r.value.name) && INT_MIN <= r.value.score <= INT_MAX
  {
    match ReadToken(line)
    case None => None
    case Some((name, rest)) =>
      match ReadInt(rest)
      case None => None
      case Some(score) => Some(HighScore(name, score))
  }

  function DigitChar(d: nat): (c: char)
    requires d < 10
    ensures IsDigit(c) && DigitValue(c) == d
  {
    ('0' as int + d) as char
  }

  /** The decimal digits of `n`, most significant first, as `<<` writes them. */
  function NatToString(n: nat): (s: string)
    ensures |s| > 0
    ensures forall i :: 0 <= i < |s| ==> IsDigit(s[i])
    ensures DigitsValue(s) == n
  {
    if n < 10 then [DigitChar(n)]
    else
      var prefix := NatToString(n / 10);
      var s := prefix + [DigitChar(n % 10)];
      assert s[..|s| - 1] == prefix;
      s
  }

  /** `out << n` for an `int`. */
  function IntToString(n: int): (s: string)
    ensures |s| > 0
  {
    if n < 0 then "-" + NatToString(-n) else NatToString(n)
  }

  /** One saved line without its newline (core/game.cpp:631). */
  function FormatLine(e: HighScore): (line: string)
    ensures |line| > |e.name|
  {
    e.name + " " + IntToString(e.score)
  }

  /** The digits `<<` writes read back as the same number. */
  lemma {:induction false} IntRoundTrip(n: int, prefix: string)
    requires INT_MIN <= n <= INT_MAX
    requires forall i :: 0 <= i < |prefix| ==> IsSpace(prefix[i])
    ensures ReadInt(prefix + IntToString(n)) == Some(n)
  {
    var s := prefix + IntToString(n);
    SkipSpacePrefix(prefix, IntToString(n));
    var t := SkipSpace(s);
    assert t == IntToString(n);
    var digits := NatToString(if n < 0 then -n else n);
    var unsigned := if |t| > 0 && (t[0] == '-' || t[0] == '+') then t[1..] else t;
    assert unsigned == digits;
    DigitRunWhole(digits);
    assert digits[..|digits|] == digits;
  }

  /** Skipping white space passes a white-space prefix and stops at a non-space. */
  lemma {:induction false} SkipSpacePrefix(prefix: string, s: string)
    requires forall i :: 0 <= i < |prefix| ==> IsSpace(prefix[i])
    requires |s| > 0 && !IsSpace(s[0])
    ensures SkipSpace(prefix + s) == s
  {
    if |prefix| > 0 {
      assert (prefix + s)[1..] == prefix[1..] + s;
      SkipSpacePrefix(prefix[1..], s);
    } else {
      assert prefix + s == s;
    }
  }

  /** A string of digits is one whole digit run. */
  lemma {:induction false} DigitRunWhole(ds: string)
    requires forall i :: 0 <= i < |ds| ==> IsDigit(ds[i])
    ensures DigitRunLength(ds) == |ds|
  {
    if |ds| > 0 {
      DigitRunWhole(ds[1..]);
    }
  }

  /** A token is read back whole, leaving what follows its first white space. */
  lemma {:induction false} TokenRoundTrip(name: string, rest: string)
    requires IsToken(name)
    requires |rest| > 0 && IsSpace(rest[0])
    ensures ReadToken(name + rest) == Some((name, rest))
  {
    var s := name + rest;
    SkipSpacePrefix([], s);
    assert [] + s == s;
    TokenRunWhole(name, rest);
  }

  lemma {:induction false} TokenRunWhole(name: string, rest: string)
    requires forall i :: 0 <= i < |name| ==> !IsSpace(name[i])
    requires |rest| > 0 && IsSpace(rest[0])
    ensures TokenLength(name + rest) == |name|
  {
    if |name| > 0 {
      assert (name + rest)[1..] == name[1..] + rest;
      TokenRunWhole(name[1..], rest);
    } else {
      assert name + rest == rest;
    }
  }

  /** Every entry whose name is a token and whose score fits an `int` survives a save and
      a load unchanged. */
  lemma {:induction false} LineRoundTrip(e: HighScore)
    requires IsToken(e.name) && INT_MIN <= e.score <= INT_MAX
    ensures ParseLine(FormatLine(e)) == Some(e)
  {
    var rest := " " + IntToString(e.score);
    assert FormatLine(e) == e.name + rest;
    TokenRoundTrip(e.name, rest);
    assert rest == [' '] + IntToString(e.score);
    IntRoundTrip(e.score, [' ']);
  }

  /** The lines `saveHighScores` writes, in table order (core/game.cpp:627-638). */
  function SavedLines(list: seq<HighScore>): (lines: seq<string>)
    ensures |lines| == |list|
    ensures forall i :: 0 <= i < |list| ==> lines[i] == FormatLine(list[i])
  {
    seq(|list|, i requires 0 <= i < |list| => FormatLine(list[i]))
  }

  /** Each line of a file as `iss >> name >> score` reads it. */
  function ParsedLines(lines: seq<string>): (parsed: seq<Option<HighScore>>)
    ensures |parsed| == |lines|
    ensures forall i :: 0 <= i < |lines| ==> parsed[i] == ParseLine(lines[i])
  {
    seq(|lines|, i requires 0 <= i < |lines| => ParseLine(lines[i]))
  }

  /** The entries the read loop of `loadHighScores` keeps, before sorting: lines that do
      not parse are skipped, and reading stops once `room` entries are kept
      (core/game.cpp:602-613). */
  function Kept(parsed: seq<Option<HighScore>>, room: nat): (r: seq<HighScore>)
    ensures |r| <= room && |r| <= |parsed|
  {
    if |parsed| == 0 || room == 0 then []
    else
      var rest := Kept(parsed[1..], if parsed[0].Some? then room - 1 else room);
      if parsed[0].Some? then [parsed[0].value] + rest else rest
  }

  /** Every entry kept comes from a line that parses to it. */
  lemma {:induction false} KeptFrom(parsed: seq<Option<HighScore>>, room: nat)
    ensures forall k :: 0 <= k < |Kept(parsed, room)| ==> Some(Kept(parsed, room)[k]) in parsed
    decreases |parsed|
  {
    if |parsed| > 0 && room > 0 {
      var rest := if parsed[0].Some? then room - 1 else room;
      KeptFrom(parsed[1..], rest);
      assert forall x :: x in parsed[1..] ==> x in parsed;
    }
  }

  /** The read loop's step: a line that parses is kept and uses up one place. */
  lemma KeptStep(parsed: seq<Option<HighScore>>, room: nat)
    requires |parsed| > 0 && room > 0
    ensures Kept(parsed, room) ==
      if parsed[0].Some? then [parsed[0].value] + Kept(parsed[1..], room - 1) else Kept(parsed[1..], room)
  {
  }

  /** What the read loop keeps of a file's lines; every entry kept has a token for a
      name and a score that fits an `int`. */
  lemma LoadedWellFormed(lines: seq<string>, room: nat)
    ensures var r := Kept(ParsedLines(lines), room);
      forall k :: 0 <= k < |r| ==> IsToken(r[k].name) && INT_MIN <= r[k].score <= INT_MAX
  {
    var parsed := ParsedLines(lines);
    var r := Kept(parsed, room);
    KeptFrom(parsed, room);
    forall k | 0 <= k < |r| ensures IsToken(r[k].name) && INT_MIN <= r[k].score <= INT_MAX {
      var i :| 0 <= i < |parsed| && parsed[i] == Some(r[k]);
      assert ParseLine(lines[i]) == Some(r[k]);
    }
  }

  /** A table whose names are tokens and whose scores fit an `int` reads back from its own
      saved lines entry for entry, in the same order. */
  lemma SaveLoadRoundTrip(list: seq<HighScore>, room: nat)
    requires |list| <= room
    requires forall k :: 0 <= k < |list| ==> IsToken(list[k].name) && INT_MIN <= list[k].score <= INT_MAX
    ensures Kept(ParsedLines(SavedLines(list)), room) == list
  {
    var parsed := ParsedLines(SavedLines(list));
    forall k | 0 <= k < |list| ensures parsed[k] == Some(list[k]) {
      LineRoundTrip(list[k]);
    }
    KeptAllSome(parsed, list, room);
  }

  lemma {:induction false} KeptAllSome(parsed: seq<Option<HighScore>>, list: seq<HighScore>, room: nat)
    requires |list| <= room && |parsed| == |list|
    requires forall k :: 0 <= k < |list| ==> parsed[k] == Some(list[k])
    ensures Kept(parsed, room) == list
  {
    if |list| > 0 {
      KeptAllSome(parsed[1..], list[1..], room - 1);
      assert list == [list[0]] + list[1..];
    }
  }
}
