/** Splitting text at a separator, and joining it again. */
module Texts {
  import opened Wrappers

  function Split(s: Text, separator: CodePoint): (parts: seq<Text>)
    ensures parts != []
  {
    if s == [] then [[]]
    else if s[0] == separator then [[]] + Split(s[1..], separator)
    else var rest := Split(s[1..], separator); [[s[0]] + rest[0]] + rest[1..]
  }

  function Join(parts: seq<Text>, separator: CodePoint): Text {
    if parts == [] then [] else if |parts| == 1 then parts[0]
    else parts[0] + [separator] + Join(parts[1..], separator)
  }

  lemma {:induction false} SplitAt(s: Text, rest: Text, separator: CodePoint)
    requires separator !in s
    ensures Split(s, separator) == [s]
    ensures Split(s + [separator] + rest, separator) == [s] + Split(rest, separator)
  {
    var t := s + [separator] + rest;
    if s == [] {
      assert t[1..] == rest;
    } else {
      SplitAt(s[1..], rest, separator);
      assert t[1..] == s[1..] + [separator] + rest && t[0] == s[0];
      assert [s[0]] + s[1..] == s;
    }
  }

  lemma {:induction false} SplitJoin(parts: seq<Text>, separator: CodePoint)
    requires parts != [] && forall p <- parts :: separator !in p
    ensures Split(Join(parts, separator), separator) == parts
  {
    SplitAt(parts[0], Join(parts[1..], separator), separator);
    if |parts| > 1 {
      SplitJoin(parts[1..], separator);
    }
  }
}
