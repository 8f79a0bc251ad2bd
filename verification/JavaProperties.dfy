/** The Java-properties encoding of JDK paths, and the decoder that reads such values. */
module JavaProperties {
  import opened Wrappers
  import opened Json
  import opened Texts

  const SLASH: CodePoint := 47
  const MAX_HOME := 4096

  /** Backslashes turned to slashes. */
  function Slashed(s: Text): (t: Text)
    ensures |t| == |s|
    ensures forall i | 0 <= i < |s| :: t[i] == if s[i] == BACKSLASH then SLASH else s[i]
  {
    if s == [] then [] else [if s[0] == BACKSLASH then SLASH else s[0]] + Slashed(s[1..])
  }

  predicate Surrogate(c: CodePoint) {
    0xd800 <= c <= 0xdfff
  }

  /** The UTF-16 units of one character. */
  function Units(c: CodePoint): (u: Text)
    requires !Surrogate(c)
    ensures u != [] && COMMA in u ==> c == COMMA
  {
    if c < 0x10000 then [c] else [0xd800 + (c - 0x10000) / 0x400, 0xdc00 + (c - 0x10000) % 0x400]
  }

  function Utf16(s: Text): Text
    requires Encodable(s)
  {
    if s == [] then [] else Units(s[0]) + Utf16(s[1..])
  }

  // ----- writing -----

  /** " :=#!" */
  predicate IsSpecial(c: CodePoint) {
    c == 32 || c == 58 || c == 61 || c == 35 || c == 33
  }

  function Piece(c: CodePoint): (p: Text)
    requires !Surrogate(c)
  {
    if IsSpecial(c) then [BACKSLASH, c]
    else if 0x20 <= c <= 0x7e then [c]
    else if c < 0x10000 then Unit(c)
    else Unit(0xd800 + (c - 0x10000) / 0x400) + Unit(0xdc00 + (c - 0x10000) % 0x400)
  }

  function Pieces(s: Text): Text
    requires Encodable(s)
  {
    if s == [] then [] else Pieces(s[..|s| - 1]) + Piece(s[|s| - 1])
  }

  predicate Encodable(s: Text) {
    forall c <- s :: !Surrogate(c)
  }

  /** NUL, carriage return, line feed and comma cannot be in a path; a lone surrogate cannot be encoded. */
  predicate Writable(home: Text) {
    0 !in home && 13 !in home && 10 !in home && COMMA !in home && Encodable(home)
  }

  predicate Accepted(homes: seq<Text>) {
    && 1 <= |homes| <= 2 && (|homes| == 2 ==> homes[0] != homes[1])
    && forall h <- homes :: 0 < |h| <= MAX_HOME && Writable(h)
  }

  lemma SlashedEncodable(s: Text)
    ensures Encodable(Slashed(s)) <==> Encodable(s)
  {
    if Encodable(s) {
      forall c <- Slashed(s) ensures !Surrogate(c) {
        var i :| 0 <= i < |s| && Slashed(s)[i] == c;
        assert s[i] in s;
      }
    } else {
      var i :| 0 <= i < |s| && Surrogate(s[i]);
      assert Slashed(s)[i] in Slashed(s);
    }
  }

  lemma PiecesExtended(s: Text, n: nat)
    requires n < |s| && Encodable(s[..n]) && !Surrogate(s[n])
    ensures Encodable(s[..n + 1]) && Pieces(s[..n + 1]) == Pieces(s[..n]) + Piece(s[n])
  {
    assert s[..n + 1] == s[..n] + [s[n]];
    assert s[..n + 1][..n] == s[..n];
  }

  /** A path with its backslashes turned, escaped. */
  function Escaped(home: Text): Text {
    if Encodable(Slashed(home)) then Pieces(Slashed(home)) else []
  }

  /** Escape one path, character by character. */
  method EscapeHome(home: Text) returns (r: Option<Text>)
    ensures r.Some? <==> Writable(home)
    ensures r.Some? ==> r.value == Escaped(home)
  {
    SlashedEncodable(home);
    if 0 in home || 13 in home || 10 in home || COMMA in home { return None; }
    var path, pieces: Text, n := Slashed(home), [], 0;
    while n < |path|
      invariant n <= |path| && Encodable(path[..n]) && pieces == Pieces(path[..n])
    {
      hide Pieces, Slashed, Piece;
      var c := path[n];
      if Surrogate(c) { return None; }
      PiecesExtended(path, n);
      pieces := pieces + Piece(c);
      n := n + 1;
    }
    assert path[..n] == path;
    r := Some(pieces);
  }

  function EscapedAll(homes: seq<Text>): (parts: seq<Text>)
    ensures |parts| == |homes| && forall i | 0 <= i < |homes| :: parts[i] == Escaped(homes[i])
  {
    seq(|homes|, i requires 0 <= i < |homes| => Escaped(homes[i]))
  }

  /** The value of org.gradle.java.installations.paths. */
  method Installations(homes: seq<Text>) returns (r: Option<Text>)
    ensures r.Some? <==> Accepted(homes)
    ensures r.Some? ==> r.value == Join(EscapedAll(homes), COMMA)
  {
    hide Escaped, Writable, Join;
    if !(1 <= |homes| <= 2) || (|homes| == 2 && homes[0] == homes[1]) || exists h <- homes :: !(0 < |h| <= MAX_HOME) {
      return None;
    }
    var escaped: seq<Text>, n := [], 0;
    while n < |homes|
      invariant n <= |homes| && |escaped| == n
      invariant forall i | 0 <= i < n :: Writable(homes[i]) && escaped[i] == Escaped(homes[i])
    {
      var piece := EscapeHome(homes[n]);
      if piece.None? { return None; }
      escaped := escaped + [piece.value];
      n := n + 1;
    }
    assert escaped == EscapedAll(homes);
    r := Some(Join(escaped, COMMA));
  }

  // ----- reading -----

  function Letter(c: CodePoint): CodePoint {
    match c
    case 116 => 9
    case 114 => 13
    case 110 => 10
    case 102 => 12
    case _ => c
  }

  /** What a property value stands for; a cut or malformed escape has no meaning. */
  function Meaning(s: Text): Option<Text>
    decreases |s|
  {
    if s == [] then Some([])
    else if s[0] != BACKSLASH then After([s[0]], Meaning(s[1..]))
    else if |s| == 1 then None
    else if s[1] != LOWER_U then After([Letter(s[1])], Meaning(s[2..]))
    else
      var unit := UnitValue(s);
      if unit.None? then None else After([unit.value], Meaning(s[6..]))
  }

  function After(before: Text, rest: Option<Text>): Option<Text> {
    if rest.None? then None else Some(before + rest.value)
  }

  lemma AfterTwice(a: Text, b: Text, rest: Option<Text>)
    ensures After(a, After(b, rest)) == After(a + b, rest)
  {
    if rest.Some? { assert a + (b + rest.value) == (a + b) + rest.value; }
  }

  /** The decoding loop. */
  method Unescape(value: Text) returns (r: Option<Text>)
    ensures r == Meaning(value)
  {
    var result: Text, position := [], 0;
    assert value[0..] == value;
    assert Meaning(value).Some? ==> [] + Meaning(value).value == Meaning(value).value;
    while position < |value|
      invariant position <= |value| && Meaning(value) == After(result, Meaning(value[position..]))
    {
      var rest := value[position..];
      var c := value[position];
      position := position + 1;
      ghost var before := result;
      if c == BACKSLASH {
        if position == |value| { return None; }
        c := value[position];
        position := position + 1;
        if c == LOWER_U {
          var unit := UnitValue(rest);
          if unit.None? { return None; }
          c := unit.value;
          position := position + 4;
          assert value[position..] == rest[6..];
        } else {
          c := Letter(c);
          assert value[position..] == rest[2..];
        }
      } else {
        assert value[position..] == rest[1..];
      }
      result := result + [c];
      AfterTwice(before, [c], Meaning(value[position..]));
    }
    assert value[position..] == [] && result + [] == result;
    r := Some(result);
  }

  // ----- round trip -----

  lemma ReadUnit(n: CodePoint, rest: Text)
    requires n < 0x10000
    ensures Meaning(Unit(n) + rest) == After([n], Meaning(rest))
  {
    UnitRoundTrip(n, rest);
    hide Unit, UnitValue;
  }

  lemma ReadPiece(c: CodePoint, rest: Text)
    requires !Surrogate(c) && c != BACKSLASH
    ensures Meaning(Piece(c) + rest) == After(Units(c), Meaning(rest))
  {
    var s := Piece(c) + rest;
    if IsSpecial(c) {
      assert s[1] == c && s[2..] == rest;
    } else if 0x20 <= c <= 0x7e {
      assert s[0] == c && s[1..] == rest;
    } else if c < 0x10000 {
      ReadUnit(c, rest);
    } else {
      var high, low := 0xd800 + (c - 0x10000) / 0x400, 0xdc00 + (c - 0x10000) % 0x400;
      assert s == Unit(high) + (Unit(low) + rest);
      ReadUnit(high, Unit(low) + rest);
      ReadUnit(low, rest);
      AfterTwice([high], [low], Meaning(rest));
      assert [high] + [low] == Units(c);
    }
  }

  lemma {:induction false} Utf16Extended(s: Text, c: CodePoint)
    requires Encodable(s) && !Surrogate(c)
    ensures Encodable(s + [c]) && Utf16(s + [c]) == Utf16(s) + Units(c)
  {
    hide Units;
    if s == [] {
      assert s + [c] == [c] && [c][1..] == [] && Utf16([]) == [];
      assert Units(c) + [] == Units(c) == [] + Units(c);
    } else {
      Utf16Extended(s[1..], c);
      assert (s + [c])[1..] == s[1..] + [c] && (s + [c])[0] == s[0];
      assert Units(s[0]) + (Utf16(s[1..]) + Units(c)) == (Units(s[0]) + Utf16(s[1..])) + Units(c);
    }
  }

  /** Decoding an escaped path gives its UTF-16 units. */
  lemma {:induction false} ReadPieces(s: Text, rest: Text)
    requires Encodable(s) && BACKSLASH !in s
    ensures Meaning(Pieces(s) + rest) == After(Utf16(s), Meaning(rest))
    decreases |s|
  {
    hide Meaning, Piece;
    if s == [] {
      assert Pieces(s) + rest == rest;
      assert Meaning(rest).Some? ==> [] + Meaning(rest).value == Meaning(rest).value;
    } else {
      var init, c := s[..|s| - 1], s[|s| - 1];
      assert s == init + [c];
      assert Pieces(s) + rest == Pieces(init) + (Piece(c) + rest);
      ReadPieces(init, Piece(c) + rest);
      ReadPiece(c, rest);
      Utf16Extended(init, c);
      AfterTwice(Utf16(init), Units(c), Meaning(rest));
    }
  }

  lemma {:induction false} CommaFree(s: Text)
    requires Encodable(s) && COMMA !in s
    ensures COMMA !in Utf16(s)
  {
    if s != [] { CommaFree(s[1..]); }
  }

  lemma ReadComma(rest: Text)
    ensures Meaning([COMMA] + rest) == After([COMMA], Meaning(rest))
  {
    assert ([COMMA] + rest)[1..] == rest;
  }

  /** The paths in UTF-16, with slashes for backslashes. */
  ghost function Paths(homes: seq<Text>): seq<Text>
    requires forall h <- homes :: Encodable(Slashed(h))
  {
    if homes == [] then [] else [Utf16(Slashed(homes[0]))] + Paths(homes[1..])
  }

  /** The decoded value, split at commas, is the list of paths. */
  lemma {:induction false} InstallationsRoundTrip(homes: seq<Text>)
    requires homes != [] && forall h <- homes :: COMMA !in h && Encodable(Slashed(h))
    ensures var value := Meaning(Join(EscapedAll(homes), COMMA)); value.Some? && Split(value.value, COMMA) == Paths(homes)
    decreases |homes|
  {
    hide Meaning, Pieces, Utf16, Slashed, Split;
    var path := Slashed(homes[0]);
    SlashedPlain(homes[0]);
    CommaFree(path);
    if |homes| == 1 {
      ReadPieces(path, []);
      assert Pieces(path) + [] == Pieces(path);
      assert Meaning([]) == Some([]) by { ReadNothing(); }
      SplitAt(Utf16(path), [], COMMA);
      assert Utf16(path) + [] == Utf16(path);
      assert Paths(homes) == [Utf16(path)];
    } else {
      var rest := Join(EscapedAll(homes[1..]), COMMA);
      assert EscapedAll(homes)[1..] == EscapedAll(homes[1..]);
      assert Join(EscapedAll(homes), COMMA) == Pieces(path) + ([COMMA] + rest);
      ReadPieces(path, [COMMA] + rest);
      ReadComma(rest);
      InstallationsRoundTrip(homes[1..]);
      var tail := Meaning(rest).value;
      assert Utf16(path) + ([COMMA] + tail) == Utf16(path) + [COMMA] + tail;
      SplitAt(Utf16(path), tail, COMMA);
    }
  }

  lemma ReadNothing()
    ensures Meaning([]) == Some([])
  {
  }

  lemma SlashedPlain(s: Text)
    requires COMMA !in s
    ensures COMMA !in Slashed(s) && BACKSLASH !in Slashed(s)
  {
  }
}
