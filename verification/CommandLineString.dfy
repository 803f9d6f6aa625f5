/**
  GetArgumentsStringInternal of src/base/command_line.cc, as compiled for Windows: the text of everything after the
  program. The name of a switch is printed as it is and its value is quoted by itself, so a switch is not printed
  like any other argument; what CommandLineToArgvW makes of it depends on both.
*/
module CommandLineStrings {
  import opened CommandLineQuoting
  import opened Options
  import opened StringUtil

  const SWITCH_TERMINATOR := "--"

  // ---------------------------------------------------------------- the printer

  /** On Windows a slash is a prefix too, unless set_slash_is_not_a_switch was called. */
  function PrefixLength(s: string, slash: bool): (n: nat)
    ensures n <= |s| && (n > 0 ==> s[0] == '-' || s[0] == '/')
  {
    if "--" <= s then 2 else if "-" <= s then 1 else if slash && "/" <= s then 1 else 0
  }

  predicate IsSwitch(s: string, slash: bool) {
    PrefixLength(s, slash) != 0 && PrefixLength(s, slash) != |s|
  }

  /** Where the name of a switch ends. */
  function NameEnd(s: string): (m: nat)
    ensures m <= |s| && Without('=', s[..m]) && (m < |s| ==> s[m] == '=')
  {
    var at := Find(s, '=');
    if at.None? then |s| else at.value
  }

  /** The name of a switch, and its value in its printed form; an empty value loses its equals sign. */
  function NameAndValue(s: string, printed: string): string {
    if NameEnd(s) + 1 < |s| then s[..NameEnd(s)] + ("=" + printed) else s[..NameEnd(s)]
  }

  function ValueOf(s: string): string {
    if NameEnd(s) < |s| then s[NameEnd(s) + 1..] else ""
  }

  function SwitchItem(s: string, placeholders: bool): string {
    NameAndValue(s, Quoted(ValueOf(s), placeholders))
  }

  function Item(arg: string, parse: bool, slash: bool, placeholders: bool): string {
    if parse && IsSwitch(arg, slash) then SwitchItem(arg, placeholders) else Quoted(arg, placeholders)
  }

  /** The items with spaces between them. */
  function Params(args: seq<string>, parse: bool, slash: bool, placeholders: bool): string
    decreases |args|, 0
  {
    if args == [] then ""
    else
      var p := parse && args[0] != SWITCH_TERMINATOR;
      Item(args[0], p, slash, placeholders) + ParamsBehind(args[1..], p, slash, placeholders)
  }

  function ParamsBehind(args: seq<string>, parse: bool, slash: bool, placeholders: bool): (s: string)
    ensures s != "" ==> s[0] == ' '
    decreases |args|, 1
  {
    if args == [] then "" else " " + Params(args, parse, slash, placeholders)
  }

  method PrintSwitch(arg: string, placeholders: bool, params: string) returns (out: string)
    ensures out == params + SwitchItem(arg, placeholders)
  {
    var switchString, switchValue := arg[..NameEnd(arg)], ValueOf(arg);
    out := params + switchString;
    if switchValue != "" {
      switchValue := QuoteForCommandLineToArgvW(switchValue, placeholders);
      out := out + ("=" + switchValue);
    }
  }

  method PrintItem(arg: string, parse: bool, slash: bool, placeholders: bool, params: string) returns (out: string)
    ensures out == params + Item(arg, parse, slash, placeholders)
  {
    if parse && IsSwitch(arg, slash) {
      out := PrintSwitch(arg, placeholders, params);
    } else {
      var quoted := QuoteForCommandLineToArgvW(arg, placeholders);
      out := params + quoted;
    }
  }

  /** What is printed for the rest of the arguments. */
  function ParamsFrom(args: seq<string>, first: bool, parse: bool, slash: bool, placeholders: bool): string {
    if first then Params(args, parse, slash, placeholders) else ParamsBehind(args, parse, slash, placeholders)
  }

  function Separator(first: bool): string {
    if first then "" else " "
  }

  lemma {:induction false} ParamsNext(args: seq<string>, first: bool, parse: bool, slash: bool, placeholders: bool)
    requires args != []
    ensures var p := parse && args[0] != SWITCH_TERMINATOR;
      ParamsFrom(args, first, parse, slash, placeholders) == Separator(first)
        + (Item(args[0], p, slash, placeholders) + ParamsFrom(args[1..], false, p, slash, placeholders))
  {
    var p := parse && args[0] != SWITCH_TERMINATOR;
    var line := Item(args[0], p, slash, placeholders) + ParamsBehind(args[1..], p, slash, placeholders);
    assert Params(args, parse, slash, placeholders) == line;
    assert "" + line == line;
  }

  lemma {:induction false} Together(a: string, b: string, c: string, d: string)
    ensures ((a + b) + c) + d == a + (b + (c + d))
  {
  }

  /** One turn of the loop. */
  method PrintNext(args: seq<string>, first: bool, parse: bool, slash: bool, placeholders: bool, params: string)
    returns (out: string, p: bool)
    requires args != []
    ensures p == (parse && args[0] != SWITCH_TERMINATOR)
    ensures out + ParamsFrom(args[1..], false, p, slash, placeholders)
      == params + ParamsFrom(args, first, parse, slash, placeholders)
  {
    p := parse && args[0] != SWITCH_TERMINATOR;
    out := PrintItem(args[0], p, slash, placeholders, params + Separator(first));
    ParamsNext(args, first, parse, slash, placeholders);
    Together(params, Separator(first), Item(args[0], p, slash, placeholders),
             ParamsFrom(args[1..], false, p, slash, placeholders));
  }

  method GetArgumentsStringInternal(argv: seq<string>, slash: bool, quotePlaceholders: bool) returns (params: string)
    requires argv != []
    ensures params == Params(argv[1..], true, slash, quotePlaceholders)
  {
    params := "";
    var parseSwitches := true;
    ghost var all := Params(argv[1..], true, slash, quotePlaceholders);
    var i := 1;
    while i < |argv|
      invariant 1 <= i <= |argv|
      invariant params + ParamsFrom(argv[i..], i == 1, parseSwitches, slash, quotePlaceholders) == all
    {
      assert argv[i..][1..] == argv[i + 1..];
      params, parseSwitches := PrintNext(argv[i..], i == 1, parseSwitches, slash, quotePlaceholders, params);
      i := i + 1;
    }
    assert argv[i..] == [];
  }

  // ---------------------------------------------------------------- reading text that is not quoted

  /** Nothing of acc is taken back. */
  lemma {:induction false} Extends(s: string, acc: string, n: nat, quoted: bool)
    ensures acc <= Argument(s, acc, n, quoted).0
    decreases |s|
  {
    if s != "" {
      if s[0] == '\\' {
        Extends(s[1..], acc, n + 1, quoted);
      } else if s[0] == '"' && n % 2 == 0 {
        Extends(s[1..], acc + Slashes(n / 2), 0, !quoted);
      } else if s[0] == '"' {
        Extends(s[1..], acc + Slashes(n / 2) + "\"", 0, quoted);
      } else if quoted || !Blank(s[0]) {
        Extends(s[1..], acc + Slashes(n) + [s[0]], 0, quoted);
      }
    }
  }

  /** Text that settles the meaning of the backslashes in front of it: they are themselves. */
  predicate Settles(t: string) {
    t == "" || (t[0] != '\\' && t[0] != '"')
  }

  lemma {:induction false} PendingIsLiteral(t: string, acc: string, n: nat, quoted: bool)
    requires Settles(t)
    ensures Argument(t, acc, n, quoted) == Argument(t, acc + Slashes(n), 0, quoted)
  {
    assert (acc + Slashes(n)) + Slashes(0) == acc + Slashes(n);
  }

  /** No blanks and no quotation marks. */
  predicate Bare(w: string) {
    forall i :: 0 <= i < |w| ==> !Blank(w[i]) && w[i] != '"'
  }

  lemma {:induction false} BareIsRead(w: string, t: string, acc: string, n: nat)
    requires Bare(w) && (Settles(t) || (if w == "" then n == 0 else w[|w| - 1] != '\\'))
    ensures Argument(w + t, acc, n, false) == Argument(t, acc + Slashes(n) + w, 0, false)
    decreases |w|
  {
    var text := w + t;
    if w == "" {
      assert text == t && acc + Slashes(n) + w == acc + Slashes(n);
      if Settles(t) { PendingIsLiteral(t, acc, n, false); } else { assert acc + Slashes(0) == acc; }
    } else {
      assert text[0] == w[0] && text[1..] == w[1..] + t;
      if w[0] == '\\' {
        BareIsRead(w[1..], t, acc, n + 1);
        assert acc + Slashes(n + 1) + w[1..] == acc + Slashes(n) + w;
      } else {
        BareIsRead(w[1..], t, acc + Slashes(n) + [w[0]], 0);
        assert acc + Slashes(n) + [w[0]] + Slashes(0) + w[1..] == acc + Slashes(n) + w;
      }
    }
  }

  /** A blank outside quotes ends the argument. */
  lemma {:induction false} BlankEnds(a: string, at: nat, t: string, acc: string)
    requires at < |a| && Bare(a[..at]) && Blank(a[at])
    ensures Argument(a + t, acc, 0, false) == (acc + a[..at], a[at..] + t)
  {
    var rest := a[at..] + t;
    assert a + t == a[..at] + rest;
    BareIsRead(a[..at], rest, acc, 0);
    assert acc + Slashes(0) + a[..at] == acc + a[..at];
    ArgumentEnds(rest, acc + a[..at]);
  }

  // ---------------------------------------------------------------- a quotation mark in a name

  predicate Escapes(c: char) {
    c == '\\' || c == '"'
  }

  /** An argument that has got its backslashes and another character where a has a quotation mark is not a. */
  lemma {:induction false} RunIsNoMark(a: string, o: nat, e: nat, b: nat, r: string)
    requires o <= e < |a| && (forall k :: o <= k < e ==> a[k] == '\\') && a[e] == '"'
    requires a[..o] + Slashes(b) <= r
    requires |r| > o + b ==> r[o + b] != '\\' && r[o + b] != '"'
    ensures r != a
  {
    var acc := a[..o] + Slashes(b);
    assert e < o + b ==> acc[e] == '\\';
  }

  /** What follows b backslashes that are not in front of a mark keeps out of the way of a mark that is due. */
  lemma {:induction false} CloggedByText(a: string, o: nat, e: nat, b: nat, u: string, q: bool)
    requires o <= e < |a| && (forall k :: o <= k < e ==> a[k] == '\\') && a[e] == '"'
    requires Settles(u)
    ensures Argument(Slashes(b) + u, a[..o], 0, q).0 != a
  {
    ArgumentAtRun(b, u, a[..o], 0, q);
    PendingIsLiteral(u, a[..o], b, q);
    var acc := a[..o] + Slashes(b);
    var r := Argument(u, acc, 0, q).0;
    if u != "" && (q || !Blank(u[0])) {
      ArgumentAtChar(u[0], u[1..], acc, 0, q);
      assert u == [u[0]] + u[1..];
      Extends(u[1..], acc + Slashes(0) + [u[0]], 0, q);
      assert (acc + Slashes(0) + [u[0]])[o + b] == u[0];
    } else {
      assert r == acc + Slashes(0);
    }
    RunIsNoMark(a, o, e, b, r);
  }

  /** A literal mark that comes out at the wrong place, or another character where a mark is due. */
  lemma {:induction false} MarkFits(a: string, o: nat, e: nat, h: nat, s: string, q: bool)
    requires o <= e < |a| && (forall k :: o <= k < e ==> a[k] == '\\') && a[e] == '"'
    ensures Argument(s, a[..o] + Slashes(h) + "\"", 0, q).0 == a ==> h == e - o
    ensures Argument(s, a[..o] + Slashes(h), 0, q).0 == a ==> h <= e - o
  {
    var acc := a[..o] + Slashes(h);
    Extends(s, acc + "\"", 0, q);
    Extends(s, acc, 0, q);
    assert (acc + "\"")[o + h] == '"';
    assert o + h > e ==> acc[e] == '\\' && (acc + "\"")[e] == '\\';
  }

  lemma {:induction false} RunThenMark(b: nat, u: string, acc: string, q: bool)
    ensures Argument(Slashes(b) + ("\"" + u), acc, 0, q)
      == if b % 2 == 0 then Argument(u, acc + Slashes(b / 2), 0, !q)
         else Argument(u, acc + Slashes(b / 2) + "\"", 0, q)
  {
    ArgumentAtRun(b, "\"" + u, acc, 0, q);
    ArgumentAtMark(u, acc, b / 2, q);
  }

  lemma {:induction false} CloggedByMark(a: string, o: nat, e: nat, b: nat, u: string, q: bool)
    requires o <= e < |a| && (forall k :: o <= k < e ==> a[k] == '\\') && a[e] == '"'
    ensures b % 2 == 1 && Argument(Slashes(b) + ("\"" + u), a[..o], 0, q).0 == a
      ==> b / 2 == e - o && Argument(u, a[..e + 1], 0, q).0 == a
    ensures b % 2 == 0 && Argument(Slashes(b) + ("\"" + u), a[..o], 0, q).0 == a
      ==> b / 2 <= e - o && Argument(u, a[..o + b / 2], 0, !q).0 == a
  {
    RunThenMark(b, u, a[..o], q);
    MarkFits(a, o, e, b / 2, u, if b % 2 == 0 then !q else q);
    assert b / 2 == e - o ==> a[..o] + Slashes(b / 2) + "\"" == a[..e + 1];
    assert b / 2 <= e - o ==> a[..o] + Slashes(b / 2) == a[..o + b / 2];
  }

  /** The text from i on, by what ends the run of backslashes there. */
  lemma {:induction false} TextAtRun(a: string, i: nat, m: nat, tail: string)
    requires i <= m <= |a|
    ensures var end := RunEnd(a[..m], i);
      && a[i..m] + tail == Slashes(end - i) + (a[end..m] + tail)
      && (forall k :: i <= k < end ==> a[k] == '\\')
      && (end < m && a[end] == '"' ==>
        a[i..m] + tail == Slashes(end - i) + ("\"" + (a[end + 1..m] + tail)))
  {
    var end := RunEnd(a[..m], i);
    forall k | i <= k < end ensures a[k] == '\\' {
      assert a[..m][k] == '\\';
    }
    assert a[i..end] == Slashes(end - i);
    assert end < m ==> a[end..m] + tail == [a[end]] + (a[end + 1..m] + tail);
  }

  /** a[o..i] is marks and backslashes, and the first mark is at e. */
  predicate Due(a: string, o: nat, e: nat, i: nat) {
    && o <= e < i <= |a| && (forall k :: o <= k < e ==> a[k] == '\\') && a[e] == '"'
    && forall k :: o <= k < i ==> Escapes(a[k])
  }

  /** One more mark has been consumed, behind nothing but backslashes. */
  lemma {:induction false} MoreIsDue(a: string, o: nat, e: nat, i: nat, h: nat, end: nat) returns (next: nat)
    requires Due(a, o, e, i) && i <= end < |a| && (forall k :: i <= k < end ==> a[k] == '\\') && a[end] == '"'
    ensures Due(a, e + 1, next, end + 1)
    ensures h <= e - o ==> Due(a, o + h, e, end + 1)
  {
    next := RunEnd(a, e + 1);
  }

  lemma {:induction false} SettlesBehind(a: string, end: nat, m: nat, tail: string)
    requires end <= m <= |a| && Settles(tail) && (end < m ==> a[end] != '\\' && a[end] != '"')
    ensures Settles(a[end..m] + tail)
  {
    if end == m { assert a[end..m] + tail == tail; }
  }

  lemma {:induction false} CloggedAtEnd(
      a: string, m: nat, tail: string, o: nat, e: nat, end: nat, b: nat, q: bool)
    requires o <= e < |a| && (forall k :: o <= k < e ==> a[k] == '\\') && a[e] == '"'
    requires end <= m <= |a| && Settles(tail) && (end < m ==> a[end] != '\\' && a[end] != '"')
    ensures Argument(Slashes(b) + (a[end..m] + tail), a[..o], 0, q).0 != a
  {
    SettlesBehind(a, end, m, tail);
    CloggedByText(a, o, e, b, a[end..m] + tail, q);
  }

  /** One more mark is consumed, or the argument is not a. */
  lemma {:induction false} CloggedStep(a: string, m: nat, tail: string, o: nat, e: nat, i: nat, q: bool)
    returns (o': nat, e': nat, i': nat, q': bool)
    requires Due(a, o, e, i) && i <= m <= |a| && Settles(tail)
    ensures Argument(a[i..m] + tail, a[..o], 0, q).0 == a ==>
      Due(a, o', e', i') && i < i' <= m && Argument(a[i'..m] + tail, a[..o'], 0, q').0 == a
  {
    var end := RunEnd(a[..m], i);
    var b := end - i;
    TextAtRun(a, i, m, tail);
    o', e', i', q' := o, e, i, q;
    if end == m || a[end] != '"' {
      CloggedAtEnd(a, m, tail, o, e, end, b, q);
    } else {
      CloggedByMark(a, o, e, b, a[end + 1..m] + tail, q);
      var next := MoreIsDue(a, o, e, i, b / 2, end);
      i' := end + 1;
      if b % 2 == 1 {
        o', e' := e + 1, next;
      } else {
        o', q' := o + b / 2, !q;
      }
    }
  }

  /**
    The parser has consumed a[..i] and put out only a[..o]. What it has to put out next are the marks and backslashes
    a[o..i], so it has to consume further marks with more backslashes each, and never makes up for it before the name
    ends.
  */
  lemma {:induction false} Clogged(a: string, m: nat, tail: string, o: nat, e: nat, i: nat, q: bool)
    requires Due(a, o, e, i) && i <= m <= |a| && Settles(tail)
    ensures Argument(a[i..m] + tail, a[..o], 0, q).0 != a
    decreases m - i
  {
    var o', e', i', q' := CloggedStep(a, m, tail, o, e, i, q);
    if Due(a, o', e', i') && i < i' <= m {
      Clogged(a, m, tail, o', e', i', q');
    }
  }

  /** The first character that does not belong into a name that is printed as it is. */
  lemma {:induction false} FirstBad(w: string) returns (at: nat)
    requires !Bare(w)
    ensures at < |w| && Bare(w[..at]) && (Blank(w[at]) || w[at] == '"')
  {
    if w[0] == '"' || Blank(w[0]) {
      at := 0;
    } else {
      at := FirstBad(w[1..]);
      assert w[..at + 1] == [w[0]] + w[1..][..at];
      at := at + 1;
    }
  }

  lemma {:induction false} RunStart(w: string, end: nat) returns (start: nat)
    requires end <= |w|
    ensures start <= end && (forall k :: start <= k < end ==> w[k] == '\\') && (start > 0 ==> w[start - 1] != '\\')
  {
    start := end;
    if end > 0 && w[end - 1] == '\\' { start := RunStart(w, end - 1); }
  }

  lemma {:induction false} ReadToRun(a: string, m: nat, tail: string, start: nat, at: nat)
    requires start <= at < m <= |a| && Bare(a[..start]) && a[at] == '"'
    requires (forall k :: start <= k < at ==> a[k] == '\\') && (start > 0 ==> a[start - 1] != '\\')
    ensures Argument(a[..m] + tail, "", 0, false)
      == Argument(Slashes(at - start) + ("\"" + (a[at + 1..m] + tail)), a[..start], 0, false)
  {
    var text := Slashes(at - start) + ("\"" + (a[at + 1..m] + tail));
    assert a[..m] + tail == a[..start] + text by {
      RunEndIs(a[..m], start, at);
      TextAtRun(a, start, m, tail);
      assert a[..m] + tail == a[..start] + (a[start..m] + tail);
    }
    BareIsRead(a[..start], text, "", 0);
    assert "" + Slashes(0) + a[..start] == a[..start];
  }

  lemma {:induction false} MarkInName(a: string, m: nat, tail: string, at: nat)
    requires at < m <= |a| && Bare(a[..at]) && a[at] == '"' && Settles(tail)
    ensures Argument(a[..m] + tail, "", 0, false).0 != a
  {
    var start := RunStart(a, at);
    var k := at - start;
    assert Bare(a[..start]) by { assert forall i :: 0 <= i < start ==> a[..start][i] == a[..at][i]; }
    ReadToRun(a, m, tail, start, at);
    CloggedByMark(a, start, at, k, a[at + 1..m] + tail, false);
    if k % 2 == 0 {
      Clogged(a, m, tail, start + k / 2, at, at + 1, true);
    }
  }

  /** A name with a blank or a quotation mark in it never comes back, whatever is printed behind it. */
  lemma {:induction false} BadNameIsLost(a: string, m: nat, tail: string)
    requires m <= |a| && !Bare(a[..m]) && Settles(tail)
    ensures Argument(a[..m] + tail, "", 0, false).0 != a
  {
    var at := FirstBad(a[..m]);
    assert a[..m][..at] == a[..at];
    if Blank(a[at]) {
      BlankEnds(a[..m], at, tail, "");
      assert "" + a[..at] == a[..at];
    } else {
      MarkInName(a, m, tail, at);
    }
  }

  // ---------------------------------------------------------------- which arguments come back

  /**
    A switch comes back if its name has no blanks and marks in it, and its value, if there is an equals sign, survives
    quoting; in particular it must not be empty. Anything else has to survive quoting itself.
  */
  predicate ComesBack(arg: string, parse: bool, slash: bool, placeholders: bool) {
    if parse && IsSwitch(arg, slash) then
      var m := NameEnd(arg);
      Bare(arg[..m]) && Without(NUL, arg) && (m < |arg| ==> Survives(arg[m + 1..], placeholders))
    else Survives(arg, placeholders)
  }

  predicate AllComeBack(args: seq<string>, parse: bool, slash: bool, placeholders: bool)
    decreases |args|
  {
    args == [] || (
      var p := parse && args[0] != SWITCH_TERMINATOR;
      ComesBack(args[0], p, slash, placeholders) && AllComeBack(args[1..], p, slash, placeholders))
  }

  lemma {:induction false} PlainIsBare(w: string, placeholders: bool)
    requires !NeedsQuotes(w, placeholders)
    ensures Without('\t', w) ==> Bare(w)
    ensures w == "" || w[|w| - 1] != '\\'
  {
    assert forall i :: 0 <= i < |w| ==> !Quotable(w[i], placeholders);
  }

  /** A value behind what has been read. */
  lemma {:induction false} ValueIsRead(value: string, acc: string, rest: string, placeholders: bool)
    requires Survives(value, placeholders) && (rest != "" ==> rest[0] == ' ')
    ensures Argument(Quoted(value, placeholders) + rest, acc, 0, false) == (acc + value, rest)
  {
    if NeedsQuotes(value, placeholders) {
      var text := Escaped(value, 0) + ("\"" + rest);
      assert Quoted(value, placeholders) + rest == "\"" + text;
      ArgumentAtMark(text, acc, 0, false);
      assert acc + Slashes(0) == acc;
      EscapedIsReadBack(value, 0, acc, rest);
      assert value[0..] == value;
    } else {
      PlainIsBare(value, placeholders);
      BareIsRead(value, rest, acc, 0);
      assert acc + Slashes(0) + value == acc + value;
    }
    ArgumentEnds(rest, acc + value);
  }

  /** A value that is not quoted and has a tab in it is cut there. */
  lemma {:induction false} ValueIsCut(value: string, acc: string, rest: string, placeholders: bool)
    requires !NeedsQuotes(value, placeholders) && !Without('\t', value)
    ensures |Argument(value + rest, acc, 0, false).0| < |acc| + |value|
  {
    var tab := Find(value, '\t').value;
    assert !NeedsQuotes(value[..tab], placeholders) by {
      assert forall i :: 0 <= i < tab ==> value[..tab][i] == value[i];
    }
    PlainIsBare(value[..tab], placeholders);
    BlankEnds(value, tab, rest, acc);
  }

  lemma {:induction false} NameIsRead(name: string, rest: string)
    requires Bare(name) && (rest != "" ==> rest[0] == ' ')
    ensures Argument(name + rest, "", 0, false) == (name, rest)
  {
    calc {
      Argument(name + rest, "", 0, false);
    == { BareIsRead(name, rest, "", 0); assert "" + Slashes(0) + name == name; }
      Argument(rest, name, 0, false);
    == { ArgumentEnds(rest, name); }
      (name, rest);
    }
  }

  lemma {:induction false} TextAfterName(name: string, text: string)
    requires Bare(name) && name != "" && name[|name| - 1] != '\\'
    ensures Argument(name + text, "", 0, false) == Argument(text, name, 0, false)
  {
    BareIsRead(name, text, "", 0);
    assert "" + Slashes(0) + name == name;
  }

  /** The printed switch, with what is printed behind it. */
  lemma {:induction false} SwitchText(arg: string, printed: string, rest: string)
    requires NameEnd(arg) + 1 < |arg|
    ensures NameAndValue(arg, printed) + rest == arg[..NameEnd(arg) + 1] + (printed + rest)
  {
    var name := arg[..NameEnd(arg)];
    Joint(name, "=", printed, rest);
    assert arg[..NameEnd(arg) + 1] == name + "=";
  }

  lemma {:induction false} Joint(a: string, b: string, c: string, d: string)
    ensures (a + (b + c)) + d == (a + b) + (c + d)
  {
  }

  /** A name with its equals sign, and the printed value behind it. */
  lemma {:induction false} NameBeforeValue(arg: string, rest: string, placeholders: bool)
    requires NameEnd(arg) + 1 < |arg| && Bare(arg[..NameEnd(arg)])
    ensures var m := NameEnd(arg);
      Argument(SwitchItem(arg, placeholders) + rest, "", 0, false)
        == Argument(Quoted(arg[m + 1..], placeholders) + rest, arg[..m + 1], 0, false)
  {
    var m := NameEnd(arg);
    assert Bare(arg[..m + 1]) by { assert arg[..m + 1] == arg[..m] + "="; }
    TextAfterName(arg[..m + 1], Quoted(arg[m + 1..], placeholders) + rest);
    SwitchText(arg, Quoted(arg[m + 1..], placeholders), rest);
  }

  lemma {:induction false} SwitchComesBack(arg: string, slash: bool, rest: string, placeholders: bool)
    requires IsSwitch(arg, slash) && ComesBack(arg, true, slash, placeholders) && (rest != "" ==> rest[0] == ' ')
    ensures Argument(SwitchItem(arg, placeholders) + rest, "", 0, false) == (arg, rest)
  {
    var m := NameEnd(arg);
    if m == |arg| {
      assert arg[..m] == arg;
      NameIsRead(arg, rest);
    } else {
      NameBeforeValue(arg, rest, placeholders);
      ValueIsRead(arg[m + 1..], arg[..m + 1], rest, placeholders);
      assert arg[..m + 1] + arg[m + 1..] == arg;
    }
  }

  lemma {:induction false} SwitchIsShortened(arg: string, rest: string, placeholders: bool)
    requires var m := NameEnd(arg);
      Bare(arg[..m]) && m < |arg| && Without(NUL, arg) && !Survives(arg[m + 1..], placeholders)
    requires rest != "" ==> rest[0] == ' '
    ensures |Argument(SwitchItem(arg, placeholders) + rest, "", 0, false).0| < |arg|
  {
    var m := NameEnd(arg);
    if m + 1 == |arg| {
      NameIsRead(arg[..m], rest);
    } else {
      assert Without(NUL, arg[m + 1..]);
      NameBeforeValue(arg, rest, placeholders);
      ValueIsCut(arg[m + 1..], arg[..m + 1], rest, placeholders);
    }
  }

  /** What is printed behind the name. */
  lemma {:induction false} TailOf(arg: string, printed: string, rest: string) returns (tail: string)
    requires rest != "" ==> rest[0] == ' '
    ensures NameAndValue(arg, printed) + rest == arg[..NameEnd(arg)] + tail && Settles(tail)
  {
    tail := if NameEnd(arg) + 1 < |arg| then ("=" + printed) + rest else rest;
  }

  lemma {:induction false} SwitchIsLost(arg: string, slash: bool, rest: string, placeholders: bool)
    requires IsSwitch(arg, slash) && Without(NUL, arg) && !ComesBack(arg, true, slash, placeholders)
    requires rest != "" ==> rest[0] == ' '
    ensures Argument(SwitchItem(arg, placeholders) + rest, "", 0, false).0 != arg
  {
    var m := NameEnd(arg);
    if !Bare(arg[..m]) {
      var tail := TailOf(arg, Quoted(ValueOf(arg), placeholders), rest);
      BadNameIsLost(arg, m, tail);
    } else {
      SwitchIsShortened(arg, rest, placeholders);
    }
  }

  /** A switch is seen by its prefix. */
  lemma {:induction false} SwitchIsSeen(arg: string, slash: bool, rest: string, placeholders: bool)
    requires IsSwitch(arg, slash)
    ensures var text := SwitchItem(arg, placeholders) + rest; var r := Argument(text, "", 0, false);
      Arguments(text) == [r.0] + Arguments(r.1) && r.0 != "" && r.0[0] == arg[0]
  {
    assert NameEnd(arg) > 0;
    var text := SwitchItem(arg, placeholders) + rest;
    assert text[0] == arg[0] && text == [arg[0]] + text[1..];
    ArgumentAtChar(arg[0], text[1..], "", 0, false);
    assert "" + Slashes(0) + [arg[0]] == [arg[0]];
    Extends(text[1..], [arg[0]], 0, false);
  }

  // ---------------------------------------------------------------- whole command lines

  predicate AllTabs(s: string) {
    forall i :: 0 <= i < |s| ==> s[i] == '\t'
  }

  lemma {:induction false} WordsFirst(s: string, i: nat)
    requires i <= |s|
    ensures Words(s, i) == [] ==> AllTabs(s[i..])
    ensures Words(s, i) != [] ==> Words(s, i)[0] != "" && Without('\t', Words(s, i)[0])
    decreases |s| - i
  {
    if i < |s| && s[i] == '\t' {
      WordsFirst(s, i + 1);
      assert s[i..] == ['\t'] + s[i + 1..];
    }
  }

  lemma {:induction false} OtherFirst(arg: string, rest: string, placeholders: bool)
    requires rest != "" ==> rest[0] == ' '
    ensures Survives(arg, placeholders) ==>
      Arguments(Quoted(arg, placeholders) + rest) == [arg] + Arguments(rest)
    ensures Without(NUL, arg) && !Survives(arg, placeholders) ==>
      var r := Arguments(Quoted(arg, placeholders) + rest);
      (AllTabs(arg) && r == Arguments(rest)) || (r != [] && r[0] != arg)
  {
    PiecesAreParsed(arg, placeholders, rest);
    if Survives(arg, placeholders) {
      SurvivorsStayWhole([arg], placeholders);
      assert [arg][1..] == [] && AllPieces([], placeholders) == [];
      assert Pieces(arg, placeholders) + [] == Pieces(arg, placeholders);
    } else if Without(NUL, arg) {
      WordsFirst(arg, 0);
      assert arg[0..] == arg && Pieces(arg, placeholders) == Words(arg, 0);
      assert Words(arg, 0) == [] ==> [] + Arguments(rest) == Arguments(rest);
    }
  }

  /** What the parser makes of the beginning of a line: the argument, or nothing, or something else. */
  lemma {:induction false} ItemFirst(arg: string, parse: bool, slash: bool, rest: string, placeholders: bool)
    requires Without(NUL, arg) && (rest != "" ==> rest[0] == ' ')
    ensures var r := Arguments(Item(arg, parse, slash, placeholders) + rest);
      if ComesBack(arg, parse, slash, placeholders) then r == [arg] + Arguments(rest)
      else (AllTabs(arg) && r == Arguments(rest)) || (r != [] && r[0] != arg)
  {
    if parse && IsSwitch(arg, slash) {
      SwitchIsSeen(arg, slash, rest, placeholders);
      if ComesBack(arg, parse, slash, placeholders) {
        SwitchComesBack(arg, slash, rest, placeholders);
      } else {
        SwitchIsLost(arg, slash, rest, placeholders);
      }
    } else {
      OtherFirst(arg, rest, placeholders);
    }
  }

  lemma {:induction false} SpaceBeforeParams(args: seq<string>, parse: bool, slash: bool, placeholders: bool)
    ensures Arguments(ParamsBehind(args, parse, slash, placeholders))
      == Arguments(Params(args, parse, slash, placeholders))
  {
    if args != [] {
      var line := Params(args, parse, slash, placeholders);
      assert (" " + line)[1..] == line;
    }
  }

  /** No line is parsed to arguments of which the first is empty or nothing but tabs. */
  lemma {:induction false} FirstIsVisible(args: seq<string>, parse: bool, slash: bool, placeholders: bool)
    ensures var r := Arguments(Params(args, parse, slash, placeholders)); r != [] ==> !AllTabs(r[0])
    decreases |args|
  {
    if args != [] {
      var arg, p := args[0], parse && args[0] != SWITCH_TERMINATOR;
      var rest := ParamsBehind(args[1..], p, slash, placeholders);
      if p && IsSwitch(arg, slash) {
        SwitchIsSeen(arg, slash, rest, placeholders);
      } else {
        FirstIsVisible(args[1..], p, slash, placeholders);
        SpaceBeforeParams(args[1..], p, slash, placeholders);
        PiecesAreParsed(arg, placeholders, rest);
        PieceIsVisible(arg, placeholders);
        assert Pieces(arg, placeholders) == [] ==> [] + Arguments(rest) == Arguments(rest);
      }
    }
  }

  lemma {:induction false} PieceIsVisible(arg: string, placeholders: bool)
    ensures Pieces(arg, placeholders) != [] ==> !AllTabs(Pieces(arg, placeholders)[0])
  {
    if NeedsQuotes(arg, placeholders) {
      var i :| 0 <= i < |arg| && Quotable(arg[i], placeholders);
      assert arg[i] != '\t';
    } else {
      WordsFirst(arg, 0);
      var words := Words(arg, 0);
      if words != [] { assert words[0][0] != '\t'; }
    }
  }

  lemma {:induction false} LineComesBack(args: seq<string>, parse: bool, slash: bool, placeholders: bool)
    requires forall i :: 0 <= i < |args| ==> Without(NUL, args[i])
    ensures Arguments(Params(args, parse, slash, placeholders)) == args
      <==> AllComeBack(args, parse, slash, placeholders)
    decreases |args|
  {
    if args != [] {
      var arg, p := args[0], parse && args[0] != SWITCH_TERMINATOR;
      var rest := ParamsBehind(args[1..], p, slash, placeholders);
      assert args == [arg] + args[1..];
      ItemFirst(arg, p, slash, rest, placeholders);
      SpaceBeforeParams(args[1..], p, slash, placeholders);
      if ComesBack(arg, p, slash, placeholders) {
        LineComesBack(args[1..], p, slash, placeholders);
      } else {
        FirstIsVisible(args[1..], p, slash, placeholders);
      }
    }
  }

  lemma {:induction false} ParamsAreNulFree(args: seq<string>, parse: bool, slash: bool, placeholders: bool)
    requires forall i :: 0 <= i < |args| ==> Without(NUL, args[i])
    ensures Without(NUL, Params(args, parse, slash, placeholders))
    decreases |args|
  {
    if args != [] {
      var arg, p := args[0], parse && args[0] != SWITCH_TERMINATOR;
      ParamsAreNulFree(args[1..], p, slash, placeholders);
      ItemIsNulFree(arg, p, slash, placeholders);
    }
  }

  lemma {:induction false} ItemIsNulFree(arg: string, parse: bool, slash: bool, placeholders: bool)
    requires Without(NUL, arg)
    ensures Without(NUL, Item(arg, parse, slash, placeholders))
  {
    if parse && IsSwitch(arg, slash) {
      QuotedIsNulFree(ValueOf(arg), placeholders);
      SwitchIsNulFree(arg, Quoted(ValueOf(arg), placeholders));
    } else {
      QuotedIsNulFree(arg, placeholders);
    }
  }

  lemma {:induction false} SwitchIsNulFree(arg: string, printed: string)
    requires Without(NUL, arg) && Without(NUL, printed)
    ensures Without(NUL, NameAndValue(arg, printed))
  {
  }

  lemma {:induction false} QuotedIsNulFree(arg: string, placeholders: bool)
    requires Without(NUL, arg)
    ensures Without(NUL, Quoted(arg, placeholders))
  {
    EscapedIsNulFree(arg, 0);
  }

  lemma {:induction false} BackIsNulFree(args: seq<string>, parse: bool, slash: bool, placeholders: bool)
    requires AllComeBack(args, parse, slash, placeholders)
    ensures forall i :: 0 <= i < |args| ==> Without(NUL, args[i])
    decreases |args|
  {
    if args != [] {
      BackIsNulFree(args[1..], parse && args[0] != SWITCH_TERMINATOR, slash, placeholders);
      assert forall i :: 1 <= i < |args| ==> args[i] == args[1..][i - 1];
    }
  }

  /**
    Printing everything after the program and splitting it gives the arguments back if and only if each of them is of
    the kind that comes back: values are quoted by themselves and need not be in one piece, names are on their own.
  */
  lemma {:induction false} ArgumentsRoundTrip(args: seq<string>, slash: bool, placeholders: bool)
    ensures CommandLineToArgvW(Params(args, true, slash, placeholders)) == args
      <==> AllComeBack(args, true, slash, placeholders)
  {
    var line := Params(args, true, slash, placeholders);
    if CommandLineToArgvW(line) == args || AllComeBack(args, true, slash, placeholders) {
      forall i | 0 <= i < |args| ensures Without(NUL, args[i]) {
        if CommandLineToArgvW(line) == args {
          ArgumentsAreNulFree(UpToNul(line), i);
        } else {
          BackIsNulFree(args, true, slash, placeholders);
        }
      }
      ParamsAreNulFree(args, true, slash, placeholders);
      NulFreeText(line);
      LineComesBack(args, true, slash, placeholders);
    }
  }

  /** An empty value: the switch comes back without its equals sign. */
  lemma {:induction false} EmptyValueIsLost(slash: bool, placeholders: bool)
    ensures CommandLineToArgvW(Params(["--a="], true, slash, placeholders)) == ["--a"]
  {
    FoundAt("--a=", '=', 3);
    var line := Params(["--a="], true, slash, placeholders);
    assert ["--a="][1..] == [] && "--a="[..3] == "--a" && "--a" + "" == "--a";
    assert line == "--a";
    NulFreeText(line);
    OneBareArgument("--a", "", "");
  }

  /** A blank in a name: it is not quoted, so the switch comes back in two pieces. */
  lemma {:induction false} SpacedNameIsSplit(v: string, w: string, slash: bool, placeholders: bool)
    requires v != "" && w != "" && Bare(v) && Bare(w) && Without(NUL, v + " " + w) && Without('=', v + " " + w)
    requires IsSwitch(v + " " + w, slash) && v + " " + w != SWITCH_TERMINATOR
    ensures CommandLineToArgvW(Params([v + " " + w], true, slash, placeholders)) == [v, w]
  {
    var arg := v + " " + w;
    assert Params([arg], true, slash, placeholders) == arg by {
      assert [arg][1..] == [] && NameEnd(arg) == |arg| && arg[..|arg|] == arg && arg + "" == arg;
    }
    TwoBareArguments(v, w);
  }

  lemma {:induction false} OneBareArgument(w: string, blank: string, rest: string)
    requires w != "" && Bare(w) && (if blank == "" then rest == "" else blank == " ")
    ensures Arguments(w + blank + rest) == [w] + Arguments(rest)
  {
    var tail := blank + rest;
    assert w + blank + rest == w + tail;
    NameIsRead(w, tail);
    if blank == " " { assert tail[1..] == rest; } else { assert tail == rest; }
  }

  lemma {:induction false} TwoBareArguments(v: string, w: string)
    requires v != "" && Bare(v) && w != "" && Bare(w) && Without(NUL, v + " " + w)
    ensures CommandLineToArgvW(v + " " + w) == [v, w]
  {
    NulFreeText(v + " " + w);
    OneBareArgument(v, " ", w);
    OneBareArgument(w, "", "");
    assert w + "" + "" == w;
  }

  /** On Windows, what is a switch: a prefix of dashes, or of a slash if that is one, with something behind it. */
  lemma {:induction false} SwitchesByPrefix(s: string, slash: bool)
    ensures IsSwitch(s, slash) <==> |s| >= 2 && s != "--" && (s[0] == '-' || (slash && s[0] == '/'))
  {
    assert "--" <= s <==> |s| >= 2 && s[0] == '-' && s[1] == '-';
    assert |s| == 2 && s[0] == '-' && s[1] == '-' <==> s == "--";
  }
}
