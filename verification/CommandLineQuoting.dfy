/**
  QuoteForCommandLineToArgvW of src/base/command_line.cc, against the rules Windows documents for CommandLineToArgvW
  (arguments after the program name). Strings are sequences of UTF-16 code units.
*/
module CommandLineQuoting {
  import opened StringUtil

  const NUL: char := '\0'

  // ---------------------------------------------------------------- the parser's rules

  function Slashes(n: nat): (s: string)
    ensures |s| == n && forall i :: 0 <= i < n ==> s[i] == '\\'
  {
    seq(n, _ => '\\')
  }

  predicate Blank(c: char) {
    c == ' ' || c == '\t'
  }

  /**
    One argument, and what is left of s behind it; acc has been read, and n backslashes whose meaning is still open.
    An even number of backslashes before a quotation mark stands for half as many, and the mark switches quoting; an
    odd number stands for half as many and a literal mark; elsewhere backslashes are themselves. An argument ends at a
    blank outside quotes.
  */
  function Argument(s: string, acc: string, n: nat, quoted: bool): (r: (string, string))
    ensures |r.1| <= |s| && (s != "" && (quoted || !Blank(s[0])) ==> |r.1| < |s|)
    decreases |s|
  {
    if s == "" then (acc + Slashes(n), "")
    else if s[0] == '\\' then Argument(s[1..], acc, n + 1, quoted)
    else if s[0] == '"' && n % 2 == 0 then Argument(s[1..], acc + Slashes(n / 2), 0, !quoted)
    else if s[0] == '"' then Argument(s[1..], acc + Slashes(n / 2) + "\"", 0, quoted)
    else if !quoted && Blank(s[0]) then (acc + Slashes(n), s)
    else Argument(s[1..], acc + Slashes(n) + [s[0]], 0, quoted)
  }

  function Arguments(s: string): seq<string>
    decreases |s|
  {
    if s == "" then []
    else if Blank(s[0]) then Arguments(s[1..])
    else
      var r := Argument(s, "", 0, false);
      [r.0] + Arguments(r.1)
  }

  /** What a function that takes a pointer to NUL-terminated text sees of s. */
  function UpToNul(s: string): (t: string)
    ensures NUL !in t
  {
    if s == "" || s[0] == NUL then "" else [s[0]] + UpToNul(s[1..])
  }

  function CommandLineToArgvW(s: string): seq<string> {
    Arguments(UpToNul(s))
  }

  // ---------------------------------------------------------------- the printer

  predicate Quotable(c: char, placeholders: bool) {
    c == ' ' || c == '\\' || c == '"' || (placeholders && c == '%')
  }

  predicate NeedsQuotes(arg: string, placeholders: bool) {
    exists i :: 0 <= i < |arg| && Quotable(arg[i], placeholders)
  }

  /** Where the run of backslashes at i ends. */
  function RunEnd(s: string, i: nat): (end: nat)
    requires i <= |s|
    ensures i <= end <= |s| && (forall k :: i <= k < end ==> s[k] == '\\') && (end < |s| ==> s[end] != '\\')
    decreases |s| - i
  {
    if i == |s| || s[i] != '\\' then i else RunEnd(s, i + 1)
  }

  lemma {:induction false} RunEndIs(s: string, i: nat, end: nat)
    requires i <= end <= |s| && (forall k :: i <= k < end ==> s[k] == '\\') && (end < |s| ==> s[end] != '\\')
    ensures RunEnd(s, i) == end
    decreases end - i
  {
    if i < end { RunEndIs(s, i + 1, end); }
  }

  /** What goes between the quotes for the text from i on. */
  function Escaped(s: string, i: nat): string
    requires i <= |s|
    decreases |s| - i
  {
    if i == |s| then ""
    else
      var end := RunEnd(s, i);
      if end > i then
        Slashes(if end == |s| || s[end] == '"' then 2 * (end - i) else end - i) + Escaped(s, end)
      else
        (if s[i] == '"' then "\\\"" else [s[i]]) + Escaped(s, i + 1)
  }

  function Quoted(arg: string, placeholders: bool): string {
    if NeedsQuotes(arg, placeholders) then "\"" + Escaped(arg, 0) + "\"" else arg
  }

  method PushBackslashes(text: string, count: nat) returns (out: string)
    ensures out == text + Slashes(count)
  {
    out := text;
    for j := 0 to count
      invariant out == text + Slashes(j)
    {
      out := out + "\\";
    }
  }

  /** The printer has taken over the text before i. */
  ghost predicate Printed(arg: string, i: nat, out: string, all: string) {
    i <= |arg| && out + Escaped(arg, i) == all
  }

  /** The loop's treatment of a run of backslashes. */
  method PushRun(arg: string, i: nat, text: string, ghost all: string) returns (out: string, end: nat)
    requires i < |arg| && arg[i] == '\\' && Printed(arg, i, text, all)
    ensures i < end <= |arg| && Printed(arg, end, out, all)
  {
    end := i + 1;
    while end < |arg| && arg[end] == '\\'
      invariant i < end <= |arg|
      invariant forall k :: i <= k < end ==> arg[k] == '\\'
    {
      end := end + 1;
    }
    RunEndIs(arg, i, end);
    var backslashCount := end - i;
    if end == |arg| || arg[end] == '"' {
      backslashCount := 2 * backslashCount;
    }
    out := PushBackslashes(text, backslashCount);
  }

  /** The loop's treatment of any other character. */
  method PushOther(arg: string, i: nat, text: string, ghost all: string) returns (out: string)
    requires i < |arg| && arg[i] != '\\' && Printed(arg, i, text, all)
    ensures Printed(arg, i + 1, out, all)
  {
    RunEndIs(arg, i, i);
    out := if arg[i] == '"' then text + "\\\"" else text + [arg[i]];
  }

  method QuoteForCommandLineToArgvW(arg: string, quotePlaceholders: bool) returns (out: string)
    ensures out == Quoted(arg, quotePlaceholders)
  {
    if !NeedsQuotes(arg, quotePlaceholders) {
      return arg;
    }
    out := "\"";
    var i := 0;
    ghost var all := "\"" + Escaped(arg, 0);
    while i < |arg|
      invariant 0 <= i <= |arg| && Printed(arg, i, out, all)
    {
      if arg[i] == '\\' {
        var end;
        out, end := PushRun(arg, i, out, all);
        i := end - 1;
      } else {
        out := PushOther(arg, i, out, all);
      }
      i := i + 1;
    }
    out := out + "\"";
  }

  // ---------------------------------------------------------------- when an argument is quoted

  lemma {:induction false} EscapedIsNoShorter(s: string, i: nat)
    requires i <= |s|
    ensures |Escaped(s, i)| >= |s| - i
    decreases |s| - i
  {
    if i < |s| {
      var end := RunEnd(s, i);
      EscapedIsNoShorter(s, if end > i then end else i + 1);
    }
  }

  /**
    An argument is printed as it is exactly if there is no blank, backslash or quotation mark in it and, when
    placeholders are to be quoted, no percent sign; any other is put between quotation marks.
  */
  lemma {:induction false} QuotedWhen(arg: string, placeholders: bool)
    ensures Quoted(arg, placeholders) == arg <==>
      ' ' !in arg && '\\' !in arg && '"' !in arg && (placeholders ==> '%' !in arg)
    ensures Quoted(arg, placeholders) != arg ==> var q := Quoted(arg, placeholders);
      |q| >= |arg| + 2 && q[0] == '"' && q[|q| - 1] == '"'
  {
    EscapedIsNoShorter(arg, 0);
    if NeedsQuotes(arg, placeholders) {
      var i :| 0 <= i < |arg| && Quotable(arg[i], placeholders);
      assert arg[i] in arg;
    }
  }

  // ---------------------------------------------------------------- how the parser takes one step

  lemma {:induction false} ArgumentAtRun(m: nat, t: string, acc: string, n: nat, quoted: bool)
    ensures Argument(Slashes(m) + t, acc, n, quoted) == Argument(t, acc, n + m, quoted)
    decreases m
  {
    if m == 0 {
      assert Slashes(0) + t == t;
    } else {
      assert (Slashes(m) + t)[1..] == Slashes(m - 1) + t;
      ArgumentAtRun(m - 1, t, acc, n + 1, quoted);
    }
  }

  lemma {:induction false} ArgumentAtMark(u: string, acc: string, n: nat, quoted: bool)
    ensures Argument("\"" + u, acc, 2 * n, quoted) == Argument(u, acc + Slashes(n), 0, !quoted)
    ensures Argument("\"" + u, acc, 2 * n + 1, quoted) == Argument(u, acc + Slashes(n) + "\"", 0, quoted)
  {
    assert ("\"" + u)[1..] == u;
  }

  lemma {:induction false} ArgumentAtChar(c: char, u: string, acc: string, n: nat, quoted: bool)
    requires c != '\\' && c != '"' && (quoted || !Blank(c))
    ensures Argument([c] + u, acc, n, quoted) == Argument(u, acc + Slashes(n) + [c], 0, quoted)
  {
    assert ([c] + u)[1..] == u;
  }

  lemma {:induction false} ArgumentEnds(rest: string, acc: string)
    requires rest != "" ==> Blank(rest[0])
    ensures Argument(rest, acc, 0, false) == (acc, rest)
  {
    assert acc + Slashes(0) == acc;
  }

  // ---------------------------------------------------------------- a quoted argument is read back

  lemma {:induction false} SlashesAdd(m: nat, n: nat)
    ensures Slashes(m) + Slashes(n) == Slashes(m + n)
  {
  }

  lemma {:induction false} MarkAfterRun(m: nat, t: string)
    ensures Slashes(m) + ("\\\"" + t) == Slashes(m + 1) + ("\"" + t)
  {
    SlashesAdd(m, 1);
    assert "\\\"" + t == Slashes(1) + ("\"" + t);
  }

  lemma {:induction false} EscapedRun(s: string, i: nat)
    requires i <= |s|
    ensures var end := RunEnd(s, i); var n := end - i;
      Escaped(s, i) == Slashes(if end == |s| || s[end] == '"' then 2 * n else n) + Escaped(s, end)
  {
    if RunEnd(s, i) == i {
      assert Slashes(0) + Escaped(s, i) == Escaped(s, i);
    }
  }

  lemma {:induction false} EscapedEnd(s: string, end: nat)
    requires end < |s| && s[end] != '\\'
    ensures Escaped(s, end) == (if s[end] == '"' then "\\\"" else [s[end]]) + Escaped(s, end + 1)
  {
    RunEndIs(s, end, end);
  }

  /** The printer's output from i on, by what ends the run of backslashes there. */
  lemma {:induction false} EscapedBy(s: string, i: nat)
    requires i <= |s|
    ensures var end := RunEnd(s, i); var n := end - i;
      Escaped(s, i) ==
        if end == |s| then Slashes(2 * n)
        else if s[end] == '"' then Slashes(2 * n + 1) + ("\"" + Escaped(s, end + 1))
        else Slashes(n) + ([s[end]] + Escaped(s, end + 1))
  {
    var end := RunEnd(s, i);
    EscapedRun(s, i);
    if end == |s| {
      assert Slashes(2 * (end - i)) + "" == Slashes(2 * (end - i));
    } else {
      EscapedEnd(s, end);
      if s[end] == '"' { MarkAfterRun(2 * (end - i), Escaped(s, end + 1)); }
    }
  }

  /** What has been read once the parser is behind the run at i, and behind the character that ends it. */
  lemma {:induction false} ReadBy(s: string, i: nat, acc: string)
    requires i <= |s|
    ensures var end := RunEnd(s, i);
      acc + s[i..] == if end == |s| then acc + Slashes(end - i)
        else (acc + Slashes(end - i) + [s[end]]) + s[end + 1..]
  {
    var end := RunEnd(s, i);
    assert s[i..end] == Slashes(end - i);
    if end == |s| {
      assert s[i..] == s[i..end];
    } else {
      assert s[i..] == s[i..end] + ([s[end]] + s[end + 1..]);
    }
  }

  lemma {:induction false} Regroup(a: string, b: string, c: string, d: string)
    ensures (a + (b + c)) + d == a + (b + (c + d))
  {
  }

  lemma {:induction false} ClosingMark(n: nat, acc: string, rest: string)
    ensures Argument(Slashes(2 * n) + ("\"" + rest), acc, 0, true) == Argument(rest, acc + Slashes(n), 0, false)
  {
    ArgumentAtRun(2 * n, "\"" + rest, acc, 0, true);
    ArgumentAtMark(rest, acc, n, true);
  }

  lemma {:induction false} LiteralMark(n: nat, acc: string, more: string, close: string)
    ensures Argument((Slashes(2 * n + 1) + ("\"" + more)) + close, acc, 0, true)
      == Argument(more + close, acc + Slashes(n) + "\"", 0, true)
  {
    Regroup(Slashes(2 * n + 1), "\"", more, close);
    ArgumentAtRun(2 * n + 1, "\"" + (more + close), acc, 0, true);
    ArgumentAtMark(more + close, acc, n, true);
  }

  lemma {:induction false} OtherChar(n: nat, c: char, acc: string, more: string, close: string)
    requires c != '\\' && c != '"'
    ensures Argument((Slashes(n) + ([c] + more)) + close, acc, 0, true)
      == Argument(more + close, acc + Slashes(n) + [c], 0, true)
  {
    Regroup(Slashes(n), [c], more, close);
    ArgumentAtRun(n, [c] + (more + close), acc, 0, true);
    ArgumentAtChar(c, more + close, acc, n, true);
  }

  /** What the printer puts for n backslashes and the character c that ends them, with more behind it. */
  function Escape(n: nat, c: char, more: string): string {
    if c == '"' then Slashes(2 * n + 1) + ("\"" + more) else Slashes(n) + ([c] + more)
  }

  lemma {:induction false} EscapeIsRead(text: string, n: nat, c: char, acc: string, more: string, close: string)
    requires text == Escape(n, c, more) && c != '\\'
    ensures Argument(text + close, acc, 0, true)
      == Argument(more + close, acc + Slashes(n) + [c], 0, true)
  {
    if c == '"' {
      LiteralMark(n, acc, more, close);
    } else {
      OtherChar(n, c, acc, more, close);
    }
  }

  lemma {:induction false} EscapedAt(s: string, i: nat)
    requires i <= |s| && RunEnd(s, i) < |s|
    ensures var end := RunEnd(s, i); Escaped(s, i) == Escape(end - i, s[end], Escaped(s, end + 1)) && s[end] != '\\'
  {
    EscapedBy(s, i);
  }

  lemma {:induction false} EscapedStep(s: string, i: nat, acc: string, close: string)
    requires i <= |s| && RunEnd(s, i) < |s|
    ensures var end := RunEnd(s, i);
      Argument(Escaped(s, i) + close, acc, 0, true)
        == Argument(Escaped(s, end + 1) + close, acc + Slashes(end - i) + [s[end]], 0, true)
  {
    var end := RunEnd(s, i);
    EscapedAt(s, i);
    EscapeIsRead(Escaped(s, i), end - i, s[end], acc, Escaped(s, end + 1), close);
  }

  lemma {:induction false} EscapedLast(s: string, i: nat, acc: string, rest: string)
    requires i <= |s| && RunEnd(s, i) == |s|
    ensures Argument(Escaped(s, i) + ("\"" + rest), acc, 0, true) == Argument(rest, acc + Slashes(|s| - i), 0, false)
  {
    assert Escaped(s, i) == Slashes(2 * (|s| - i)) by { EscapedBy(s, i); }
    ClosingMark(|s| - i, acc, rest);
  }

  /** Inside quotes, the parser undoes the printer up to the closing mark. */
  lemma {:induction false} EscapedIsReadBack(s: string, i: nat, acc: string, rest: string)
    requires i <= |s|
    ensures Argument(Escaped(s, i) + ("\"" + rest), acc, 0, true) == Argument(rest, acc + s[i..], 0, false)
    decreases |s| - i
  {
    var end := RunEnd(s, i);
    if end == |s| {
      ReadBy(s, i, acc);
      EscapedLast(s, i, acc, rest);
    } else {
      var acc' := acc + Slashes(end - i) + [s[end]];
      calc {
        Argument(Escaped(s, i) + ("\"" + rest), acc, 0, true);
      == { EscapedStep(s, i, acc, "\"" + rest); }
        Argument(Escaped(s, end + 1) + ("\"" + rest), acc', 0, true);
      == { EscapedIsReadBack(s, end + 1, acc', rest); }
        Argument(rest, acc' + s[end + 1..], 0, false);
      == { ReadBy(s, i, acc); }
        Argument(rest, acc + s[i..], 0, false);
      }
    }
  }

  lemma {:induction false} QuotedArgument(arg: string, rest: string)
    requires rest != "" ==> Blank(rest[0])
    ensures Argument("\"" + (Escaped(arg, 0) + ("\"" + rest)), "", 0, false) == (arg, rest)
  {
    ArgumentAtMark(Escaped(arg, 0) + ("\"" + rest), "", 0, false);
    assert "" + Slashes(0) == "";
    EscapedIsReadBack(arg, 0, "", rest);
    assert "" + arg[0..] == arg;
    ArgumentEnds(rest, arg);
  }

  // ---------------------------------------------------------------- an argument printed as it is

  predicate Plain(w: string) {
    forall i :: 0 <= i < |w| ==> !Quotable(w[i], false)
  }

  lemma {:induction false} PlainWord(w: string, i: nat, u: string)
    requires i <= |w| && Plain(w) && Without('\t', w) && (u != "" ==> Blank(u[0]))
    ensures Argument(w[i..] + u, w[..i], 0, false) == (w, u)
    decreases |w| - i
  {
    if i == |w| {
      assert w[i..] + u == u && w[..i] == w;
      ArgumentEnds(u, w);
    } else {
      assert !Quotable(w[i], false);
      assert w[i..] + u == [w[i]] + (w[i + 1..] + u);
      ArgumentAtChar(w[i], w[i + 1..] + u, w[..i], 0, false);
      assert w[..i] + Slashes(0) + [w[i]] == w[..i + 1];
      PlainWord(w, i + 1, u);
    }
  }

  /** Where the word at i ends. */
  function WordEnd(s: string, i: nat): (end: nat)
    requires i <= |s|
    ensures i <= end <= |s| && Without('\t', s[i..end]) && (end < |s| ==> s[end] == '\t')
    decreases |s| - i
  {
    if i == |s| || s[i] == '\t' then i
    else
      var end := WordEnd(s, i + 1);
      assert s[i..end] == [s[i]] + s[i + 1..end];
      end
  }

  /** A text cut at its tabs. */
  function Words(s: string, i: nat): seq<string>
    requires i <= |s|
    decreases |s| - i
  {
    if i == |s| then []
    else if s[i] == '\t' then Words(s, i + 1)
    else [s[i..WordEnd(s, i)]] + Words(s, WordEnd(s, i))
  }

  lemma {:induction false} PlainArguments(s: string, i: nat, rest: string)
    requires i <= |s| && Plain(s) && (rest != "" ==> rest[0] == ' ')
    ensures Arguments(s[i..] + rest) == Words(s, i) + Arguments(rest)
    decreases |s| - i
  {
    if i == |s| {
      assert s[i..] + rest == rest;
    } else if s[i] == '\t' {
      PlainArguments(s, i + 1, rest);
      assert (s[i..] + rest)[1..] == s[i + 1..] + rest;
    } else {
      var end := WordEnd(s, i);
      var w, u := s[i..end], s[end..] + rest;
      assert s[i..] + rest == w + u;
      assert !Quotable(s[i], false);
      PlainWord(w, 0, u);
      assert w[..0] == "" && w[0..] == w;
      PlainArguments(s, end, rest);
      assert [w] + (Words(s, end) + Arguments(rest)) == [w] + Words(s, end) + Arguments(rest);
    }
  }

  // ---------------------------------------------------------------- whole command lines

  /** The printed forms, joined by spaces. */
  function Joined(items: seq<string>): string
    decreases |items|, 0
  {
    if items == [] then "" else items[0] + JoinedBehind(items[1..])
  }

  function JoinedBehind(items: seq<string>): (s: string)
    ensures s != "" ==> s[0] == ' '
    decreases |items|, 1
  {
    if items == [] then "" else " " + Joined(items)
  }

  function AllQuoted(args: seq<string>, placeholders: bool): (items: seq<string>)
    ensures |items| == |args|
  {
    seq(|args|, i requires 0 <= i < |args| => Quoted(args[i], placeholders))
  }

  /** What the parser makes of one printed argument. */
  function Pieces(arg: string, placeholders: bool): seq<string> {
    if NeedsQuotes(arg, placeholders) then [arg] else Words(arg, 0)
  }

  function AllPieces(args: seq<string>, placeholders: bool): seq<string> {
    if args == [] then [] else Pieces(args[0], placeholders) + AllPieces(args[1..], placeholders)
  }

  lemma {:induction false} PiecesAreParsed(arg: string, placeholders: bool, rest: string)
    requires rest != "" ==> rest[0] == ' '
    ensures Arguments(Quoted(arg, placeholders) + rest) == Pieces(arg, placeholders) + Arguments(rest)
  {
    if NeedsQuotes(arg, placeholders) {
      QuotedArgument(arg, rest);
      assert ("\"" + Escaped(arg, 0) + "\"") + rest == "\"" + (Escaped(arg, 0) + ("\"" + rest));
    } else {
      assert Plain(arg);
      PlainArguments(arg, 0, rest);
      assert arg[0..] == arg;
    }
  }

  /** What the parser makes of any printed command line at all. */
  lemma {:induction false} AllPiecesAreParsed(args: seq<string>, placeholders: bool)
    ensures Arguments(Joined(AllQuoted(args, placeholders))) == AllPieces(args, placeholders)
    decreases |args|
  {
    if args != [] {
      var items, rest := AllQuoted(args, placeholders), AllQuoted(args[1..], placeholders);
      assert items[1..] == rest;
      AllPiecesAreParsed(args[1..], placeholders);
      PiecesAreParsed(args[0], placeholders, JoinedBehind(rest));
      SpaceIsSkipped(rest);
    }
  }

  lemma {:induction false} SpaceIsSkipped(items: seq<string>)
    ensures Arguments(JoinedBehind(items)) == Arguments(Joined(items))
  {
    if items != [] {
      assert (" " + Joined(items))[1..] == Joined(items);
    }
  }

  // ---------------------------------------------------------------- which command lines survive

  /** Not empty, no NUL, and no tab unless something else in the argument makes the printer quote it. */
  predicate Survives(arg: string, placeholders: bool) {
    arg != "" && Without(NUL, arg) && (NeedsQuotes(arg, placeholders) || Without('\t', arg))
  }

  predicate AllSurvive(args: seq<string>, placeholders: bool) {
    forall i :: 0 <= i < |args| ==> Survives(args[i], placeholders)
  }

  lemma {:induction false} WordsSurvive(s: string, i: nat, placeholders: bool)
    requires i <= |s| && !NeedsQuotes(s, placeholders) && Without(NUL, s)
    ensures AllSurvive(Words(s, i), placeholders)
    decreases |s| - i
  {
    if i < |s| {
      if s[i] == '\t' {
        WordsSurvive(s, i + 1, placeholders);
      } else {
        WordsSurvive(s, WordEnd(s, i), placeholders);
      }
    }
  }

  lemma {:induction false} AllPiecesSurvive(args: seq<string>, placeholders: bool)
    requires forall i :: 0 <= i < |args| ==> Without(NUL, args[i])
    ensures AllSurvive(AllPieces(args, placeholders), placeholders)
    decreases |args|
  {
    if args != [] {
      AllPiecesSurvive(args[1..], placeholders);
      if !NeedsQuotes(args[0], placeholders) {
        WordsSurvive(args[0], 0, placeholders);
      } else {
        var i :| 0 <= i < |args[0]| && Quotable(args[0][i], placeholders);
        assert args[0] != "";
      }
    }
  }

  lemma {:induction false} SurvivorsStayWhole(args: seq<string>, placeholders: bool)
    requires AllSurvive(args, placeholders)
    ensures AllPieces(args, placeholders) == args
    decreases |args|
  {
    if args != [] {
      var arg := args[0];
      assert Survives(arg, placeholders);
      SurvivorsStayWhole(args[1..], placeholders);
      if !NeedsQuotes(arg, placeholders) {
        assert WordEnd(arg, 0) == |arg|;
        assert arg[0..|arg|] == arg && arg[0] != '\t';
        assert Words(arg, |arg|) == [];
      }
      assert args == [arg] + args[1..];
    }
  }

  lemma {:induction false} NulFreeText(s: string)
    requires Without(NUL, s)
    ensures UpToNul(s) == s
  {
    if s != "" {
      NulFreeText(s[1..]);
    }
  }

  lemma {:induction false} EscapedIsNulFree(s: string, i: nat)
    requires i <= |s| && Without(NUL, s)
    ensures Without(NUL, Escaped(s, i))
    decreases |s| - i
  {
    if i < |s| {
      var end := RunEnd(s, i);
      EscapedIsNulFree(s, if end > i then end else i + 1);
    }
  }

  lemma {:induction false} JoinedIsNulFree(items: seq<string>)
    requires forall i :: 0 <= i < |items| ==> Without(NUL, items[i])
    ensures Without(NUL, Joined(items))
    decreases |items|
  {
    if items != [] {
      JoinedIsNulFree(items[1..]);
    }
  }

  lemma {:induction false} ArgumentIsNulFree(s: string, acc: string, n: nat, quoted: bool)
    requires Without(NUL, s) && Without(NUL, acc)
    ensures Without(NUL, Argument(s, acc, n, quoted).0) && Without(NUL, Argument(s, acc, n, quoted).1)
    decreases |s|
  {
    if s != "" {
      if s[0] == '\\' {
        ArgumentIsNulFree(s[1..], acc, n + 1, quoted);
      } else if s[0] == '"' && n % 2 == 0 {
        ArgumentIsNulFree(s[1..], acc + Slashes(n / 2), 0, !quoted);
      } else if s[0] == '"' {
        ArgumentIsNulFree(s[1..], acc + Slashes(n / 2) + "\"", 0, quoted);
      } else if quoted || !Blank(s[0]) {
        ArgumentIsNulFree(s[1..], acc + Slashes(n) + [s[0]], 0, quoted);
      }
    }
  }

  lemma {:induction false} ArgumentsAreNulFree(s: string, i: nat)
    requires Without(NUL, s) && i < |Arguments(s)|
    ensures Without(NUL, Arguments(s)[i])
    decreases |s|
  {
    if Blank(s[0]) {
      ArgumentsAreNulFree(s[1..], i);
    } else {
      ArgumentIsNulFree(s, "", 0, false);
      if i > 0 { ArgumentsAreNulFree(Argument(s, "", 0, false).1, i - 1); }
    }
  }

  lemma {:induction false} PrintedIsNulFree(args: seq<string>, placeholders: bool)
    requires forall i :: 0 <= i < |args| ==> Without(NUL, args[i])
    ensures Without(NUL, Joined(AllQuoted(args, placeholders)))
  {
    var items := AllQuoted(args, placeholders);
    forall i | 0 <= i < |items| ensures Without(NUL, items[i]) {
      EscapedIsNulFree(args[i], 0);
    }
    JoinedIsNulFree(items);
  }

  /** Printing and splitting give the arguments back exactly when every one of them is of the kind that survives. */
  lemma {:induction false} QuotingRoundTrip(args: seq<string>, placeholders: bool)
    ensures CommandLineToArgvW(Joined(AllQuoted(args, placeholders))) == args <==> AllSurvive(args, placeholders)
  {
    var line := Joined(AllQuoted(args, placeholders));
    if CommandLineToArgvW(line) == args || AllSurvive(args, placeholders) {
      forall i | 0 <= i < |args| ensures Without(NUL, args[i]) {
        if CommandLineToArgvW(line) == args { ArgumentsAreNulFree(UpToNul(line), i); }
      }
      PrintedIsNulFree(args, placeholders);
      NulFreeText(line);
      AllPiecesAreParsed(args, placeholders);
      AllPiecesSurvive(args, placeholders);
      if AllSurvive(args, placeholders) { SurvivorsStayWhole(args, placeholders); }
    }
  }

  /** An empty argument is printed as nothing at all, and is lost. */
  lemma {:induction false} EmptyArgumentIsLost(placeholders: bool)
    ensures CommandLineToArgvW(Joined(AllQuoted([""], placeholders))) == []
  {
    var items := AllQuoted([""], placeholders);
    assert items == [""] && items[1..] == [];
    assert Joined(items) == "";
  }

  /** A tab alone does not make the printer quote an argument, but the parser splits at it. */
  lemma {:induction false} TabSplitsArgument(placeholders: bool)
    ensures CommandLineToArgvW(Joined(AllQuoted(["a\tb"], placeholders))) == ["a", "b"]
  {
    var arg := "a\tb";
    PrintedIsNulFree([arg], placeholders);
    NulFreeText(Joined(AllQuoted([arg], placeholders)));
    AllPiecesAreParsed([arg], placeholders);
    assert AllPieces([arg], placeholders) == Words(arg, 0) by {
      assert !NeedsQuotes(arg, placeholders);
      assert [arg][1..] == [];
      assert AllPieces([], placeholders) == [];
    }
    WordsAtTab();
  }

  lemma {:induction false} WordsAtTab()
    ensures Words("a\tb", 0) == ["a", "b"]
  {
    var s := "a\tb";
    assert WordEnd(s, 1) == 1 && WordEnd(s, 0) == 1 && s[0..1] == "a";
    assert WordEnd(s, 3) == 3 && WordEnd(s, 2) == 3 && s[2..3] == "b";
    assert Words(s, 3) == [] && Words(s, 2) == ["b"] && Words(s, 1) == ["b"];
  }
}
