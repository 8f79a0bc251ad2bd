/** The part of JSON that the ownership variables use: arrays of objects whose values are strings, written
    as ASCII and read with any whitespace. */
module Json {
  import opened Wrappers

  const QUOTE: CodePoint := 34
  const BACKSLASH: CodePoint := 92
  const LOWER_U: CodePoint := 117
  const COMMA: CodePoint := 44
  const COLON: CodePoint := 58
  const OPEN_BRACKET: CodePoint := 91
  const CLOSE_BRACKET: CodePoint := 93
  const OPEN_BRACE: CodePoint := 123
  const CLOSE_BRACE: CodePoint := 125

  /** A parsed object: its members in the order they were written. */
  type Object = seq<(Text, Text)>

  predicate High(c: CodePoint) {
    0xd800 <= c <= 0xdbff
  }

  predicate Low(c: CodePoint) {
    0xdc00 <= c <= 0xdfff
  }

  function Combine(high: CodePoint, low: CodePoint): CodePoint
    requires High(high) && Low(low)
  {
    0x10000 + (high - 0xd800) * 0x400 + (low - 0xdc00)
  }

  // ----- four hexadecimal digits -----

  function Digit(n: int): CodePoint
    requires 0 <= n < 16
  {
    if n < 10 then 48 + n else 87 + n
  }

  function DigitValue(c: CodePoint): (r: Option<int>)
    ensures r.Some? ==> 0 <= r.value < 16
  {
    if 48 <= c <= 57 then Some(c - 48)
    else if 97 <= c <= 102 then Some(c - 87)
    else if 65 <= c <= 70 then Some(c - 55)
    else None
  }

  function Unit(n: int): (t: Text)
    requires 0 <= n < 0x10000
    ensures |t| == 6
  {
    [BACKSLASH, LOWER_U, Digit(n / 4096), Digit(n / 256 % 16), Digit(n / 16 % 16), Digit(n % 16)]
  }

  /** The value of a `\uXXXX` escape at the start of `s`. */
  function UnitValue(s: Text): (r: Option<int>)
    ensures r.Some? ==> |s| >= 6 && 0 <= r.value < 0x10000
  {
    if |s| < 6 || s[0] != BACKSLASH || s[1] != LOWER_U then None else
    var a, b, c, d := DigitValue(s[2]), DigitValue(s[3]), DigitValue(s[4]), DigitValue(s[5]);
    if a.None? || b.None? || c.None? || d.None? then None
    else Some(Number(a.value, b.value, c.value, d.value))
  }

  function Number(a: int, b: int, c: int, d: int): (n: int)
    requires 0 <= a < 16 && 0 <= b < 16 && 0 <= c < 16 && 0 <= d < 16
    ensures 0 <= n < 0x10000
  {
    a * 4096 + b * 256 + c * 16 + d
  }

  lemma NumberOfDigits(n: int)
    requires 0 <= n < 0x10000
    ensures Number(n / 4096, n / 256 % 16, n / 16 % 16, n % 16) == n
  {
    assert n / 16 == n / 256 * 16 + n / 16 % 16;
    assert n / 256 == n / 4096 * 16 + n / 256 % 16;
  }

  lemma UnitRoundTrip(n: int, rest: Text)
    requires 0 <= n < 0x10000
    ensures UnitValue(Unit(n) + rest) == Some(n) && (Unit(n) + rest)[6..] == rest
    ensures |Unit(n) + rest| == 6 + |rest| && (Unit(n) + rest)[0] == BACKSLASH && (Unit(n) + rest)[1] == LOWER_U
  {
    hide Number;
    NumberOfDigits(n);
    var s := Unit(n) + rest;
    assert s[2] == Digit(n / 4096) && s[3] == Digit(n / 256 % 16);
    assert s[4] == Digit(n / 16 % 16) && s[5] == Digit(n % 16);
  }

  // ----- strings -----

  /** The letter of a short escape. */
  function Short(c: CodePoint): Option<CodePoint> {
    match c
    case 34 => Some(34)
    case 92 => Some(92)
    case 8 => Some(98)
    case 12 => Some(102)
    case 10 => Some(110)
    case 13 => Some(114)
    case 9 => Some(116)
    case _ => None
  }

  /** What a letter after a backslash stands for. */
  function Unshort(c: CodePoint): Option<CodePoint> {
    match c
    case 34 => Some(34)
    case 92 => Some(92)
    case 47 => Some(47)
    case 98 => Some(8)
    case 102 => Some(12)
    case 110 => Some(10)
    case 114 => Some(13)
    case 116 => Some(9)
    case _ => None
  }

  /** One code point, written in ASCII. */
  function EscapeOne(c: CodePoint): (t: Text)
    ensures t != []
  {
    if Short(c).Some? then [BACKSLASH, Short(c).value]
    else if 32 <= c <= 126 then [c]
    else if c < 0x10000 then Unit(c)
    else Unit(0xd800 + (c - 0x10000) / 0x400) + Unit(0xdc00 + (c - 0x10000) % 0x400)
  }

  function Escape(s: Text): Text {
    if s == [] then [] else EscapeOne(s[0]) + Escape(s[1..])
  }

  /** Read the contents of a string up to its closing quote; what follows the quote is returned as well. */
  function ReadChars(s: Text): (r: Option<(Text, Text)>)
    ensures r.Some? ==> |r.value.1| < |s|
    decreases |s|
  {
    if s == [] then None
    else if s[0] == QUOTE then Some(([], s[1..]))
    else if s[0] == BACKSLASH then
      if |s| < 2 then None
      else if s[1] == LOWER_U then
        var unit := UnitValue(s);
        if unit.None? then None
        else if High(unit.value) && |s| >= 8 && s[6] == BACKSLASH && s[7] == LOWER_U then
          var next := UnitValue(s[6..]);
          if next.None? then None
          else if Low(next.value) then Before(Combine(unit.value, next.value), ReadChars(s[12..]))
          else Before(unit.value, ReadChars(s[6..]))
        else Before(unit.value, ReadChars(s[6..]))
      else if Unshort(s[1]).None? then None
      else Before(Unshort(s[1]).value, ReadChars(s[2..]))
    else if s[0] < 32 then None
    else Before(s[0], ReadChars(s[1..]))
  }

  function Before(c: CodePoint, r: Option<(Text, Text)>): Option<(Text, Text)> {
    if r.None? then None else Some(([c] + r.value.0, r.value.1))
  }

  /** `s` with every high surrogate that a low one follows joined with it into one character. */
  function Merge(s: Text): (t: Text)
    ensures |t| <= |s|
  {
    if s == [] then []
    else if |s| >= 2 && High(s[0]) && Low(s[1]) then [Combine(s[0], s[1])] + Merge(s[2..])
    else [s[0]] + Merge(s[1..])
  }

  /** No high surrogate is directly followed by a low one. */
  ghost predicate Clean(s: Text) {
    |s| < 2 || (!(High(s[0]) && Low(s[1])) && Clean(s[1..]))
  }

  lemma {:induction false} MergeKeepsExactlyClean(s: Text)
    ensures Merge(s) == s <==> Clean(s)
  {
    if |s| >= 2 {
      if High(s[0]) && Low(s[1]) {
        assert |Merge(s)| < |s|;
      } else {
        MergeKeepsExactlyClean(s[1..]);
        assert s == [s[0]] + s[1..];
        assert Merge(s)[1..] == Merge(s[1..]);
      }
    }
  }

  /** Two units in a row that are a surrogate pair. */
  lemma UnitsRead(high: CodePoint, low: CodePoint, rest: Text)
    requires High(high) && Low(low)
    ensures ReadChars(Unit(high) + (Unit(low) + rest)) == Before(Combine(high, low), ReadChars(rest))
  {
    UnitRoundTrip(high, Unit(low) + rest);
    UnitRoundTrip(low, rest);
    hide UnitValue, Unit, Combine;
    var s := Unit(high) + (Unit(low) + rest);
    assert s[6] == s[6..][0] && s[7] == s[6..][1] && s[12..] == s[6..][6..];
  }

  /** Reading one escaped code point that does not open a surrogate pair. */
  lemma ReadOne(c: CodePoint, rest: Text)
    requires !High(c)
    ensures ReadChars(EscapeOne(c) + rest) == Before(c, ReadChars(rest))
  {
    var s := EscapeOne(c) + rest;
    if Short(c).Some? {
      assert s[0] == BACKSLASH && s[1] == Short(c).value && s[2..] == rest;
    } else if 32 <= c <= 126 {
      assert s[0] == c && s[1..] == rest;
    } else if c < 0x10000 {
      UnitRoundTrip(c, rest);
    } else {
      var high, low := 0xd800 + (c - 0x10000) / 0x400, 0xdc00 + (c - 0x10000) % 0x400;
      assert s == Unit(high) + (Unit(low) + rest) && Combine(high, low) == c;
      UnitsRead(high, low, rest);
    }
  }

  /** A high surrogate stays alone before anything that is not the escape of a low one. */
  lemma ReadHigh(c: CodePoint, rest: Text)
    requires High(c)
    requires |rest| >= 2 && rest[0] == BACKSLASH && rest[1] == LOWER_U ==>
               UnitValue(rest).Some? && !Low(UnitValue(rest).value)
    ensures ReadChars(EscapeOne(c) + rest) == Before(c, ReadChars(rest))
  {
    hide ReadChars, UnitValue;
    UnitRoundTrip(c, rest);
    assert EscapeOne(c) == Unit(c);
    ReadHighAt(EscapeOne(c) + rest, c, rest);
  }

  lemma ReadHighAt(s: Text, c: CodePoint, rest: Text)
    requires |s| == 6 + |rest| && s[0] == BACKSLASH && s[1] == LOWER_U && UnitValue(s) == Some(c) && s[6..] == rest
    requires |rest| >= 2 && rest[0] == BACKSLASH && rest[1] == LOWER_U ==>
               UnitValue(rest).Some? && !Low(UnitValue(rest).value)
    ensures ReadChars(s) == Before(c, ReadChars(rest))
  {
    hide UnitValue, Combine;
    assert |rest| >= 2 ==> s[6] == rest[0] && s[7] == rest[1];
  }

  /** The escape of anything but a low surrogate is not the escape of a low one. */
  lemma NotLow(d: CodePoint, rest: Text)
    requires !Low(d)
    ensures var s := EscapeOne(d) + rest;
            |s| >= 2 && s[0] == BACKSLASH && s[1] == LOWER_U ==>
              UnitValue(s).Some? && !Low(UnitValue(s).value)
  {
    if Short(d).Some? || 32 <= d <= 126 {
      assert Short(d).Some? ==> Short(d).value != LOWER_U;
    } else if d < 0x10000 {
      UnitRoundTrip(d, rest);
    } else {
      var high, low := 0xd800 + (d - 0x10000) / 0x400, 0xdc00 + (d - 0x10000) % 0x400;
      UnitRoundTrip(high, Unit(low) + rest);
      assert EscapeOne(d) + rest == Unit(high) + (Unit(low) + rest);
    }
  }

  lemma ReadPair(c: CodePoint, d: CodePoint, rest: Text)
    requires High(c) && Low(d)
    ensures ReadChars(EscapeOne(c) + (EscapeOne(d) + rest)) == Before(Combine(c, d), ReadChars(rest))
  {
    assert EscapeOne(c) == Unit(c) && EscapeOne(d) == Unit(d);
    UnitsRead(c, d, rest);
  }

  lemma ReadQuote(rest: Text)
    ensures ReadChars([QUOTE] + rest) == Some(([], rest))
  {
    assert ([QUOTE] + rest)[1..] == rest;
  }

  /** What is read back from an escaped string is the string with its surrogate pairs joined. */
  lemma {:induction false} ReadEscaped(s: Text, rest: Text)
    ensures ReadChars(Escape(s) + [QUOTE] + rest) == Some((Merge(s), rest))
    decreases |s|
  {
    hide ReadChars, EscapeOne, UnitValue;
    if s == [] {
      assert Escape(s) + [QUOTE] + rest == [QUOTE] + rest;
      ReadQuote(rest);
    } else {
      var c, tail := s[0], Escape(s[1..]) + [QUOTE] + rest;
      assert Escape(s) + [QUOTE] + rest == EscapeOne(c) + tail;
      if !High(c) {
        ReadEscaped(s[1..], rest);
        ReadOne(c, tail);
      } else if |s| == 1 {
        ReadEscaped(s[1..], rest);
        assert tail == [QUOTE] + rest;
        ReadHigh(c, tail);
      } else {
        var next := Escape(s[2..]) + [QUOTE] + rest;
        assert s[1..][1..] == s[2..];
        assert tail == EscapeOne(s[1]) + next;
        if Low(s[1]) {
          ReadEscaped(s[2..], rest);
          ReadPair(c, s[1], next);
        } else {
          ReadEscaped(s[1..], rest);
          NotLow(s[1], next);
          ReadHigh(c, tail);
        }
      }
    }
  }

  // ----- objects and arrays: writing -----

  function Quoted(s: Text): Text {
    [QUOTE] + Escape(s) + [QUOTE]
  }

  function Member(m: (Text, Text)): Text {
    Quoted(m.0) + [COLON] + Quoted(m.1)
  }

  function Members(o: Object): Text {
    if o == [] then [] else if |o| == 1 then Member(o[0]) else Member(o[0]) + [COMMA] + Members(o[1..])
  }

  function Written(o: Object): Text {
    [OPEN_BRACE] + Members(o) + [CLOSE_BRACE]
  }

  function Elements(list: seq<Object>): Text {
    if list == [] then [] else if |list| == 1 then Written(list[0])
    else Written(list[0]) + [COMMA] + Elements(list[1..])
  }

  /** The compact ASCII encoding of a list of objects. */
  function Dump(list: seq<Object>): Text {
    [OPEN_BRACKET] + Elements(list) + [CLOSE_BRACKET]
  }

  // ----- objects and arrays: reading -----

  predicate IsSpace(c: CodePoint) {
    c == 32 || c == 9 || c == 10 || c == 13
  }

  function SkipSpace(s: Text): (r: Text)
    ensures |r| <= |s| && (r != [] ==> !IsSpace(r[0]))
  {
    if s != [] && IsSpace(s[0]) then SkipSpace(s[1..]) else s
  }

  function ReadString(s: Text): (r: Option<(Text, Text)>)
    ensures r.Some? ==> |r.value.1| < |s|
  {
    if s == [] || s[0] != QUOTE then None else ReadChars(s[1..])
  }

  /** One `"key": "value"` member. */
  function ReadMember(s: Text): (r: Option<((Text, Text), Text)>)
    ensures r.Some? ==> |r.value.1| < |s|
  {
    var key := ReadString(s);
    if key.None? then None else
    var t := SkipSpace(key.value.1);
    if t == [] || t[0] != COLON then None else
    var value := ReadString(SkipSpace(t[1..]));
    if value.None? then None else Some(((key.value.0, value.value.0), value.value.1))
  }

  /** The members from the first key on, with the closing brace. */
  function ReadMembers(s: Text): (r: Option<(Object, Text)>)
    ensures r.Some? ==> |r.value.1| < |s|
    decreases |s|
  {
    var first := ReadMember(s);
    if first.None? then None else
    var t := SkipSpace(first.value.1);
    if t == [] then None
    else if t[0] == CLOSE_BRACE then Some(([first.value.0], t[1..]))
    else if t[0] != COMMA then None
    else
      var more := ReadMembers(SkipSpace(t[1..]));
      if more.None? then None else Some(([first.value.0] + more.value.0, more.value.1))
  }

  predicate DistinctKeys(o: Object) {
    forall i, j :: 0 <= i < j < |o| ==> o[i].0 != o[j].0
  }

  /** A repeated key is refused. */
  function ReadObject(s: Text): (r: Option<(Object, Text)>)
    ensures r.Some? ==> |r.value.1| < |s| && DistinctKeys(r.value.0)
  {
    if s == [] || s[0] != OPEN_BRACE then None else
    var t := SkipSpace(s[1..]);
    if t != [] && t[0] == CLOSE_BRACE then Some(([], t[1..]))
    else
      var members := ReadMembers(t);
      if members.None? || !DistinctKeys(members.value.0) then None else members
  }

  function ReadElements(s: Text): (r: Option<(seq<Object>, Text)>)
    ensures r.Some? ==> |r.value.1| < |s|
    decreases |s|
  {
    var first := ReadObject(s);
    if first.None? then None else
    var t := SkipSpace(first.value.1);
    if t == [] then None
    else if t[0] == CLOSE_BRACKET then Some(([first.value.0], t[1..]))
    else if t[0] != COMMA then None
    else
      var more := ReadElements(SkipSpace(t[1..]));
      if more.None? then None else Some(([first.value.0] + more.value.0, more.value.1))
  }

  function ReadArray(s: Text): (r: Option<(seq<Object>, Text)>)
  {
    if s == [] || s[0] != OPEN_BRACKET then None else
    var t := SkipSpace(s[1..]);
    if t != [] && t[0] == CLOSE_BRACKET then Some(([], t[1..])) else ReadElements(t)
  }

  /** The list of objects that a text encodes, if it encodes one and nothing else. */
  function Load(s: Text): Option<seq<Object>> {
    var list := ReadArray(SkipSpace(s));
    if list.None? || SkipSpace(list.value.1) != [] then None else Some(list.value.0)
  }

  // ----- what is read back from what was written -----

  function Merged(o: Object): (r: Object)
    ensures |r| == |o|
    ensures forall i | 0 <= i < |o| :: r[i] == (Merge(o[i].0), Merge(o[i].1))
  {
    if o == [] then [] else [(Merge(o[0].0), Merge(o[0].1))] + Merged(o[1..])
  }

  function MergedAll(list: seq<Object>): (r: seq<Object>)
    ensures |r| == |list|
    ensures forall i | 0 <= i < |list| :: r[i] == Merged(list[i])
  {
    if list == [] then [] else [Merged(list[0])] + MergedAll(list[1..])
  }

  lemma ReadQuoted(s: Text, rest: Text)
    ensures ReadString(Quoted(s) + rest) == Some((Merge(s), rest))
  {
    hide ReadChars, Escape, Merge;
    ReadEscaped(s, rest);
    assert (Quoted(s) + rest)[1..] == Escape(s) + [QUOTE] + rest;
  }

  lemma ReadWrittenMember(m: (Text, Text), rest: Text)
    ensures ReadMember(Member(m) + rest) == Some(((Merge(m.0), Merge(m.1)), rest))
  {
    var tail := [COLON] + Quoted(m.1) + rest;
    assert Member(m) + rest == Quoted(m.0) + tail;
    assert tail[1..] == Quoted(m.1) + rest;
    assert SkipSpace(tail) == tail;
    assert SkipSpace(Quoted(m.1) + rest) == Quoted(m.1) + rest;
    hide Quoted, ReadString, SkipSpace, Merge;
    ReadQuoted(m.0, tail);
    ReadQuoted(m.1, rest);
  }

  lemma Closed(c: CodePoint, rest: Text)
    requires !IsSpace(c)
    ensures SkipSpace([c] + rest) == [c] + rest && ([c] + rest)[1..] == rest
  {
  }

  /** Every member begins with a quote, so there is no space to skip before it. */
  lemma MembersUnspaced(o: Object, rest: Text)
    requires o != []
    ensures SkipSpace(Members(o) + rest) == Members(o) + rest && (Members(o) + rest)[0] == QUOTE
  {
    assert Members(o)[0] == Member(o[0])[0] == Quoted(o[0].0)[0] == QUOTE;
  }

  lemma {:induction false} ReadWrittenMembers(o: Object, rest: Text)
    requires o != []
    ensures ReadMembers(Members(o) + [CLOSE_BRACE] + rest) == Some((Merged(o), rest))
    decreases |o|
  {
    hide Member, ReadMember, SkipSpace, Merge;
    if |o| == 1 {
      assert Members(o) + [CLOSE_BRACE] + rest == Member(o[0]) + ([CLOSE_BRACE] + rest);
      ReadWrittenMember(o[0], [CLOSE_BRACE] + rest);
      Closed(CLOSE_BRACE, rest);
      assert Merged(o) == [(Merge(o[0].0), Merge(o[0].1))];
    } else {
      var more := Members(o[1..]) + ([CLOSE_BRACE] + rest);
      assert more == Members(o[1..]) + [CLOSE_BRACE] + rest;
      assert Members(o) + [CLOSE_BRACE] + rest == Member(o[0]) + ([COMMA] + more);
      ReadWrittenMember(o[0], [COMMA] + more);
      Closed(COMMA, more);
      MembersUnspaced(o[1..], [CLOSE_BRACE] + rest);
      ReadWrittenMembers(o[1..], rest);
    }
  }

  lemma Empty(o: Object)
    requires o == []
    ensures Members(o) == [] && Merged(o) == o && DistinctKeys(o)
  {
  }

  lemma ReadWritten(o: Object, rest: Text)
    ensures ReadObject(Written(o) + rest) == if DistinctKeys(Merged(o)) then Some((Merged(o), rest)) else None
  {
    hide SkipSpace, ReadMembers, Members, Merged, DistinctKeys;
    var s := Written(o) + rest;
    assert s[0] == OPEN_BRACE && s[1..] == Members(o) + ([CLOSE_BRACE] + rest);
    assert Members(o) + ([CLOSE_BRACE] + rest) == Members(o) + [CLOSE_BRACE] + rest;
    if o == [] {
      Empty(o);
      Closed(CLOSE_BRACE, rest);
      assert s[1..] == [CLOSE_BRACE] + rest;
    } else {
      MembersUnspaced(o, [CLOSE_BRACE] + rest);
      ReadWrittenMembers(o, rest);
    }
  }

  /** No object that is read back repeats a key. */
  ghost predicate Readable(list: seq<Object>) {
    forall o <- list :: DistinctKeys(Merged(o))
  }

  lemma ElementsUnspaced(list: seq<Object>, rest: Text)
    requires list != []
    ensures SkipSpace(Elements(list) + rest) == Elements(list) + rest && (Elements(list) + rest)[0] == OPEN_BRACE
  {
    assert Elements(list)[0] == Written(list[0])[0] == OPEN_BRACE;
  }

  lemma {:induction false} ReadElementsWritten(list: seq<Object>, rest: Text)
    requires list != [] && Readable(list)
    ensures ReadElements(Elements(list) + [CLOSE_BRACKET] + rest) == Some((MergedAll(list), rest))
    decreases |list|
  {
    hide Written, ReadObject, SkipSpace, DistinctKeys, Merged;
    if |list| == 1 {
      assert Elements(list) + [CLOSE_BRACKET] + rest == Written(list[0]) + ([CLOSE_BRACKET] + rest);
      ReadWritten(list[0], [CLOSE_BRACKET] + rest);
      Closed(CLOSE_BRACKET, rest);
      assert MergedAll(list) == [Merged(list[0])];
    } else {
      var more := Elements(list[1..]) + ([CLOSE_BRACKET] + rest);
      assert more == Elements(list[1..]) + [CLOSE_BRACKET] + rest;
      assert Elements(list) + [CLOSE_BRACKET] + rest == Written(list[0]) + ([COMMA] + more);
      ReadWritten(list[0], [COMMA] + more);
      Closed(COMMA, more);
      ElementsUnspaced(list[1..], [CLOSE_BRACKET] + rest);
      ReadElementsWritten(list[1..], rest);
    }
  }

  lemma SpaceEnds()
    ensures SkipSpace([]) == [] && Elements([]) == [] && MergedAll([]) == []
  {
  }

  /** Reading back a written list gives the list with the surrogate pairs of every string joined. */
  lemma LoadDump(list: seq<Object>)
    requires Readable(list)
    ensures Load(Dump(list)) == Some(MergedAll(list))
  {
    hide SkipSpace, ReadElements, Elements, MergedAll, Readable;
    var s := Dump(list);
    Closed(OPEN_BRACKET, Elements(list) + [CLOSE_BRACKET]);
    assert s == [OPEN_BRACKET] + (Elements(list) + [CLOSE_BRACKET]);
    assert SkipSpace([]) == [] by { SpaceEnds(); }
    assert SkipSpace(s) == s && s[1..] == Elements(list) + [CLOSE_BRACKET];
    if list == [] {
      assert Elements([]) == [] && MergedAll([]) == [] by { SpaceEnds(); }
      assert s[1..] == [CLOSE_BRACKET] + [];
      Closed(CLOSE_BRACKET, []);
    } else {
      assert Elements(list) + [CLOSE_BRACKET] + [] == Elements(list) + [CLOSE_BRACKET];
      ElementsUnspaced(list, [CLOSE_BRACKET]);
      ReadElementsWritten(list, []);
    }
  }
}
