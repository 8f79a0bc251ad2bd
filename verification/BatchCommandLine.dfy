/** The restricted Windows batch command line, and the C runtime's way of splitting its tail. */
module BatchCommandLine {
  import opened Wrappers
  import Texts

  const QUOTE: CodePoint := 34
  const BACKSLASH: CodePoint := 92
  const SPACE: CodePoint := 32
  const TAB: CodePoint := 9

  /** Control characters and "%!&|<>^ . */
  predicate Forbidden(c: CodePoint) {
    c < 32 || c == 34 || c == 37 || c == 33 || c == 38 || c == 124 || c == 60 || c == 62 || c == 94
  }

  predicate Plain(arg: Text) {
    forall c <- arg :: !Forbidden(c)
  }

  predicate PlainProgram(cmd: Text) {
    Plain(cmd) && 40 !in cmd && 41 !in cmd
  }

  function Backslashes(n: nat): (t: Text)
    ensures |t| == n && forall c <- t :: c == BACKSLASH
  {
    if n == 0 then [] else [BACKSLASH] + Backslashes(n - 1)
  }

  /** `arg` without its trailing backslashes. */
  function Stripped(arg: Text): (t: Text)
    ensures |t| <= |arg|
  {
    if arg != [] && arg[|arg| - 1] == BACKSLASH then Stripped(arg[..|arg| - 1]) else arg
  }

  function Trailing(arg: Text): nat {
    |arg| - |Stripped(arg)|
  }

  function Quoted(arg: Text): Text {
    [QUOTE] + arg + Backslashes(Trailing(arg)) + [QUOTE]
  }

  /** The quoted arguments with one space between them. */
  function Tail(argv: seq<Text>): Text {
    if argv == [] then [] else if |argv| == 1 then Quoted(argv[0]) else Quoted(argv[0]) + [SPACE] + Tail(argv[1..])
  }

  /** `program` is the program name as the standard library quotes it; switches are " /d /s /v:off /c ". */
  function Framed(program: Text, tail: Text): Text {
    program + [32, 47, 100, 32, 47, 115, 32, 47, 118, 58, 111, 102, 102, 32, 47, 99, 32, QUOTE] + tail + [QUOTE]
  }

  /** The process owner's command line. */
  function CommandLine(cmd: Text, argv: seq<Text>, quoteProgram: Text -> Text): Option<Text> {
    if argv == [] || !PlainProgram(cmd) || (exists a <- argv :: !Plain(a)) then None
    else Some(Framed(quoteProgram(cmd), Tail(argv)))
  }

  /** The evidence producer's own reconstruction: it quotes every argument, then joins the pieces, and asks
      nothing of the number of arguments. */
  function BatchLine(cmd: Text, argv: seq<Text>, quoteProgram: Text -> Text): Option<Text> {
    if PlainProgram(cmd) && (forall a <- argv :: Plain(a))
    then Some(Framed(quoteProgram(cmd), Texts.Join(seq(|argv|, i requires 0 <= i < |argv| => Quoted(argv[i])), SPACE)))
    else None
  }

  lemma {:induction false} SpacedPieces(argv: seq<Text>)
    ensures Texts.Join(seq(|argv|, i requires 0 <= i < |argv| => Quoted(argv[i])), SPACE) == Tail(argv)
    decreases |argv|
  {
    if argv != [] {
      SpacedPieces(argv[1..]);
      assert seq(|argv|, i requires 0 <= i < |argv| => Quoted(argv[i]))[1..] ==
             seq(|argv[1..]|, i requires 0 <= i < |argv[1..]| => Quoted(argv[1..][i]));
    }
  }

  /** The two command lines agree exactly when there is an argument or the program name is refused. */
  lemma CommandLinesAgree(cmd: Text, argv: seq<Text>, quoteProgram: Text -> Text)
    ensures BatchLine(cmd, argv, quoteProgram) == CommandLine(cmd, argv, quoteProgram)
       <==> (argv != [] || !PlainProgram(cmd))
  {
    SpacedPieces(argv);
  }

  // ----- the C runtime -----

  function Slashes(s: Text): (n: nat)
    ensures n <= |s| && (n < |s| ==> s[n] != BACKSLASH)
  {
    if s != [] && s[0] == BACKSLASH then 1 + Slashes(s[1..]) else 0
  }

  predicate IsBlank(c: CodePoint) {
    c == SPACE || c == TAB
  }

  function Before(prefix: Text, r: (Text, Text)): (Text, Text) {
    (prefix + r.0, r.1)
  }

  /** One argument from the start of `s`: 2n backslashes before a quote are n backslashes and the quote
      opens or closes (or is doubled, when quoted); 2n+1 are n backslashes and a plain quote. */
  function ReadArgument(s: Text, quoted: bool): (r: (Text, Text))
    ensures |r.1| <= |s| && (s != [] && (quoted || !IsBlank(s[0])) ==> |r.1| < |s|)
    decreases |s|
  {
    var n := Slashes(s);
    var t := s[n..];
    if t == [] then (Backslashes(n), [])
    else if t[0] == QUOTE then
      if n % 2 == 1 then Before(Backslashes(n / 2) + [QUOTE], ReadArgument(t[1..], quoted))
      else if quoted && |t| > 1 && t[1] == QUOTE then
        Before(Backslashes(n / 2) + [QUOTE], ReadArgument(t[2..], true))
      else Before(Backslashes(n / 2), ReadArgument(t[1..], !quoted))
    else if !quoted && IsBlank(t[0]) then (Backslashes(n), t)
    else Before(Backslashes(n) + [t[0]], ReadArgument(t[1..], quoted))
  }

  function SkipBlanks(s: Text): (t: Text)
    ensures |t| <= |s| && (t != [] ==> !IsBlank(t[0]))
  {
    if s != [] && IsBlank(s[0]) then SkipBlanks(s[1..]) else s
  }

  function SplitArguments(s: Text): seq<Text>
    decreases |s|
  {
    var t := SkipBlanks(s);
    if t == [] then [] else
    var r := ReadArgument(t, false);
    [r.0] + SplitArguments(r.1)
  }

  // ----- round trip -----

  lemma {:induction false} SlashesThen(n: nat, rest: Text)
    requires rest == [] || rest[0] != BACKSLASH
    ensures Slashes(Backslashes(n) + rest) == n && (Backslashes(n) + rest)[n..] == rest
  {
    if n > 0 {
      SlashesThen(n - 1, rest);
      assert (Backslashes(n) + rest)[1..] == Backslashes(n - 1) + rest;
    } else {
      assert Backslashes(n) + rest == rest;
    }
  }

  lemma {:induction false} BackslashesAdd(m: nat, n: nat)
    ensures Backslashes(m) + Backslashes(n) == Backslashes(m + n)
  {
    if m > 0 {
      BackslashesAdd(m - 1, n);
      assert Backslashes(m) + Backslashes(n) == [BACKSLASH] + (Backslashes(m - 1) + Backslashes(n));
    }
  }

  /** The leading backslashes of an argument, split off. */
  lemma {:induction false} LeadingSlashes(arg: Text)
    ensures arg == Backslashes(Slashes(arg)) + arg[Slashes(arg)..]
  {
    if arg != [] && arg[0] == BACKSLASH {
      LeadingSlashes(arg[1..]);
      assert arg == [BACKSLASH] + arg[1..];
    }
  }

  lemma {:induction false} StrippedBackslashes(n: nat)
    ensures Stripped(Backslashes(n)) == []
  {
    if n > 0 {
      BackslashesAdd(n - 1, 1);
      StrippedBackslashes(n - 1);
      assert Backslashes(n)[..n - 1] == Backslashes(n - 1);
    }
  }

  /** Trailing backslashes are not affected by what stands before the last other character. */
  lemma {:induction false} TrailingSuffix(before: Text, arg: Text)
    requires before != [] && before[|before| - 1] != BACKSLASH
    ensures Trailing(before + arg) == Trailing(arg)
    decreases |arg|
  {
    if arg == [] {
      assert before + arg == before;
    } else if arg[|arg| - 1] == BACKSLASH {
      TrailingSuffix(before, arg[..|arg| - 1]);
      assert (before + arg)[..|before + arg| - 1] == before + arg[..|arg| - 1];
    }
  }

  /** Inside quotes, an argument followed by its doubled trailing backslashes and a quote is read whole. */
  lemma {:induction false} ReadQuoted(arg: Text, rest: Text)
    requires QUOTE !in arg && (rest == [] || rest[0] == SPACE)
    ensures ReadArgument(arg + Backslashes(Trailing(arg)) + [QUOTE] + rest, true) == (arg, rest)
    decreases |arg|
  {
    hide ReadArgument, Slashes, Stripped, Backslashes;
    var n := Slashes(arg);
    LeadingSlashes(arg);
    if n == |arg| {
      assert arg == Backslashes(n) + [] == Backslashes(n);
      StrippedBackslashes(n);
      BackslashesAdd(n, n);
      assert arg + Backslashes(n) + [QUOTE] + rest == Backslashes(n + n) + ([QUOTE] + rest);
      ReadEnd(n, rest);
    } else {
      var c, more := arg[n], arg[n + 1..];
      var tail := more + Backslashes(Trailing(more)) + [QUOTE] + rest;
      assert arg == arg[..n + 1] + more;
      TrailingSuffix(arg[..n + 1], more);
      assert arg + Backslashes(Trailing(arg)) + [QUOTE] + rest == Backslashes(n) + ([c] + tail);
      ReadCharacter(n, c, tail);
      ReadQuoted(more, rest);
      assert Backslashes(n) + [c] + more == arg;
    }
  }

  lemma ReadEnd(n: nat, rest: Text)
    requires rest == [] || rest[0] == SPACE
    ensures ReadArgument(Backslashes(n + n) + ([QUOTE] + rest), true) == (Backslashes(n), rest)
  {
    SlashesThen(n + n, [QUOTE] + rest);
    assert ([QUOTE] + rest)[1..] == rest;
    ReadBlank(rest);
    assert (n + n) % 2 == 0 && (n + n) / 2 == n;
    assert Backslashes(n) + [] == Backslashes(n);
  }

  lemma ReadCharacter(n: nat, c: CodePoint, tail: Text)
    requires c != QUOTE && c != BACKSLASH
    ensures ReadArgument(Backslashes(n) + ([c] + tail), true) == Before(Backslashes(n) + [c], ReadArgument(tail, true))
  {
    SlashesThen(n, [c] + tail);
    assert ([c] + tail)[1..] == tail;
  }

  lemma ReadBlank(rest: Text)
    requires rest == [] || rest[0] == SPACE
    ensures ReadArgument(rest, false) == ([], rest)
  {
    assert Slashes(rest) == 0 && rest[0..] == rest;
  }

  lemma ReadOne(arg: Text, rest: Text)
    requires QUOTE !in arg && (rest == [] || rest[0] == SPACE)
    ensures ReadArgument(Quoted(arg) + rest, false) == (arg, rest)
  {
    var inner := arg + Backslashes(Trailing(arg)) + [QUOTE] + rest;
    var s := Quoted(arg) + rest;
    assert s == [QUOTE] + inner && s[1..] == inner && s[0..] == s;
    assert Slashes(s) == 0;
    ReadQuoted(arg, rest);
    assert [] + arg == arg;
  }

  /** The runtime splits the tail into exactly the arguments. */
  lemma {:induction false} SplitTail(argv: seq<Text>)
    requires forall a <- argv :: QUOTE !in a
    ensures SplitArguments(Tail(argv)) == argv
    decreases |argv|
  {
    if argv == [] {
    } else if |argv| == 1 {
      ReadOne(argv[0], []);
      assert Quoted(argv[0]) + [] == Quoted(argv[0]);
      assert SkipBlanks(Tail(argv)) == Tail(argv);
    } else {
      var rest := [SPACE] + Tail(argv[1..]);
      assert Tail(argv) == Quoted(argv[0]) + rest;
      ReadOne(argv[0], rest);
      assert SkipBlanks(Tail(argv)) == Tail(argv);
      assert rest[1..] == Tail(argv[1..]);
      assert SkipBlanks(rest) == SkipBlanks(Tail(argv[1..]));
      SplitTail(argv[1..]);
    }
  }

  /** A command line that was accepted splits back into its arguments. */
  lemma CommandLineRoundTrip(cmd: Text, argv: seq<Text>, quoteProgram: Text -> Text)
    requires CommandLine(cmd, argv, quoteProgram).Some?
    ensures CommandLine(cmd, argv, quoteProgram).value == Framed(quoteProgram(cmd), Tail(argv))
    ensures SplitArguments(Tail(argv)) == argv
  {
    forall a <- argv ensures QUOTE !in a { assert Plain(a); }
    SplitTail(argv);
  }
}
