/** InitFromArgv and the switch table of src/base/command_line.cc, as compiled for POSIX. */
module CommandLines {
  import opened Options
  import opened StringUtil

  const SWITCH_TERMINATOR := "--"

  // ---------------------------------------------------------------- one argument

  /** The longer prefix is tried first. */
  function PrefixLength(s: string): (n: nat)
    ensures n <= |s|
  {
    if "--" <= s then 2 else if "-" <= s then 1 else 0
  }

  /** A switch with its prefix, and its value. */
  datatype Switch = Switch(name: string, value: string)

  function AsSwitch(s: string): Option<Switch> {
    if PrefixLength(s) == 0 || PrefixLength(s) == |s| then None
    else
      var at := Find(s, '=');
      Some(if at.None? then Switch(s, "") else Switch(s[..at.value], s[at.value + 1..]))
  }

  /** The text AppendSwitchNative puts into argv. */
  function Text(s: Switch): string {
    (if PrefixLength(s.name) == 0 then "--" + s.name else s.name) + (if s.value == "" then "" else "=" + s.value)
  }

  function Key(s: Switch): string {
    s.name[PrefixLength(s.name)..]
  }

  // ---------------------------------------------------------------- all arguments

  /** The arguments that cut makes a switch of, up to the terminator, and everything else, each in the order given. */
  function Partition<S>(cut: string -> Option<S>, args: seq<string>, parse: bool): (r: (seq<S>, seq<string>))
    ensures |r.0| + |r.1| == |args|
    decreases |args|
  {
    if args == [] then ([], [])
    else
      var p := parse && args[0] != SWITCH_TERMINATOR;
      var r := Partition(cut, args[1..], p);
      if p && cut(args[0]).Some? then ([cut(args[0]).value] + r.0, r.1) else (r.0, [args[0]] + r.1)
  }

  /** An argument that is a switch: parsing goes on, no argument up to it is the terminator, and it can be cut. */
  predicate SwitchAt<S>(cut: string -> Option<S>, args: seq<string>, parse: bool, i: nat)
    requires i < |args|
  {
    parse && cut(args[i]).Some? && forall j :: 0 <= j <= i ==> args[j] != SWITCH_TERMINATOR
  }

  predicate Increasing(at: seq<nat>) {
    forall i, j :: 0 <= i < j < |at| ==> at[i] < at[j]
  }

  function Shifted(at: seq<nat>): (r: seq<nat>)
    ensures |r| == |at| && forall i :: 0 <= i < |at| ==> r[i] == at[i] + 1
  {
    seq(|at|, i requires 0 <= i < |at| => at[i] + 1)
  }

  /** The switches s were cut from the arguments at these places, and these are switches. */
  predicate TakenFrom<S(==)>(cut: string -> Option<S>, args: seq<string>, parse: bool, at: seq<nat>, s: seq<S>) {
    && |at| == |s| && Increasing(at)
    && forall k :: 0 <= k < |at| ==>
      at[k] < |args| && SwitchAt(cut, args, parse, at[k]) && cut(args[at[k]]) == Some(s[k])
  }

  /** The arguments at these places are others, and none of them is a switch. */
  predicate LeftFrom<S>(cut: string -> Option<S>, args: seq<string>, parse: bool, at: seq<nat>, others: seq<string>) {
    && |at| == |others| && Increasing(at)
    && forall k :: 0 <= k < |at| ==>
      at[k] < |args| && !SwitchAt(cut, args, parse, at[k]) && args[at[k]] == others[k]
  }

  lemma {:induction false} SwitchAtTail<S>(cut: string -> Option<S>, args: seq<string>, parse: bool, i: nat)
    requires i + 1 < |args|
    ensures SwitchAt(cut, args, parse, i + 1)
      == SwitchAt(cut, args[1..], parse && args[0] != SWITCH_TERMINATOR, i)
  {
    var tail := args[1..];
    if SwitchAt(cut, args, parse, i + 1) {
      forall j | 0 <= j <= i ensures tail[j] != SWITCH_TERMINATOR { assert tail[j] == args[j + 1]; }
    }
    if SwitchAt(cut, tail, parse && args[0] != SWITCH_TERMINATOR, i) {
      forall j | 0 <= j <= i + 1 ensures args[j] != SWITCH_TERMINATOR { if j > 0 { assert args[j] == tail[j - 1]; } }
    }
  }

  lemma {:induction false} TakenShifted<S>(
      cut: string -> Option<S>, args: seq<string>, parse: bool, at: seq<nat>, s: seq<S>)
    requires args != [] && TakenFrom(cut, args[1..], parse && args[0] != SWITCH_TERMINATOR, at, s)
    ensures TakenFrom(cut, args, parse, Shifted(at), s)
    ensures SwitchAt(cut, args, parse, 0) ==>
      TakenFrom(cut, args, parse, [0] + Shifted(at), [cut(args[0]).value] + s)
  {
    forall k | 0 <= k < |at| ensures SwitchAt(cut, args, parse, at[k] + 1) {
      SwitchAtTail(cut, args, parse, at[k]);
    }
  }

  lemma {:induction false} LeftShifted<S>(
      cut: string -> Option<S>, args: seq<string>, parse: bool, at: seq<nat>, others: seq<string>)
    requires args != [] && LeftFrom(cut, args[1..], parse && args[0] != SWITCH_TERMINATOR, at, others)
    ensures LeftFrom(cut, args, parse, Shifted(at), others)
    ensures !SwitchAt(cut, args, parse, 0) ==> LeftFrom(cut, args, parse, [0] + Shifted(at), [args[0]] + others)
  {
    forall k | 0 <= k < |at| ensures !SwitchAt(cut, args, parse, at[k] + 1) {
      SwitchAtTail(cut, args, parse, at[k]);
    }
  }

  /** The places of the switches and those of the other arguments are both in order, and together all places. */
  lemma {:induction false} PartitionIsStable<S>(cut: string -> Option<S>, args: seq<string>, parse: bool)
    returns (at: seq<nat>, rest: seq<nat>)
    ensures TakenFrom(cut, args, parse, at, Partition(cut, args, parse).0)
    ensures LeftFrom(cut, args, parse, rest, Partition(cut, args, parse).1)
    ensures |at| + |rest| == |args|
    decreases |args|
  {
    at, rest := [], [];
    if args != [] {
      var p := parse && args[0] != SWITCH_TERMINATOR;
      at, rest := PartitionIsStable(cut, args[1..], p);
      var r := Partition(cut, args[1..], p);
      TakenShifted(cut, args, parse, at, r.0);
      LeftShifted(cut, args, parse, rest, r.1);
      at, rest := Shifted(at), Shifted(rest);
      if p && cut(args[0]).Some? { at := [0] + at; } else { rest := [0] + rest; }
    }
  }

  /** The arguments after the program, without the white space around them. */
  function Arguments(argv: seq<string>): (args: seq<string>) {
    if argv == [] then [] else TrimAll(argv[1..])
  }

  function TrimAll(args: seq<string>): (t: seq<string>)
    ensures |t| == |args|
  {
    seq(|args|, i requires 0 <= i < |args| => Trim(args[i]))
  }

  function Texts(s: seq<Switch>): (t: seq<string>)
    ensures |t| == |s|
  {
    seq(|s|, i requires 0 <= i < |s| => Text(s[i]))
  }

  /** The last value for each key. */
  function Values(s: seq<Switch>): map<string, string> {
    if s == [] then map[] else Values(s[..|s| - 1])[Key(s[|s| - 1]) := s[|s| - 1].value]
  }

  lemma {:induction false} LastValueWins(s: seq<Switch>, i: nat)
    requires i < |s| && forall j :: i < j < |s| ==> Key(s[j]) != Key(s[i])
    ensures Key(s[i]) in Values(s) && Values(s)[Key(s[i])] == s[i].value
  {
    if i < |s| - 1 {
      assert s[..|s| - 1][i] == s[i];
      LastValueWins(s[..|s| - 1], i);
    }
  }

  /** What a command line consists of: { program, switches, other arguments }, the table and the divider. */
  datatype State = State(argv: seq<string>, switches: map<string, string>, beginArgs: nat)

  function Assembled(program: string, r: (seq<Switch>, seq<string>)): State {
    State([program] + Texts(r.0) + r.1, Values(r.0), 1 + |r.0|)
  }

  function Init(argv: seq<string>): State {
    Assembled(Trim(if argv == [] then "" else argv[0]), Partition(AsSwitch, Arguments(argv), true))
  }

  /** A pointer to a value in somebody's switch table. */
  datatype Place = Place(owner: CommandLine, key: string)

  class CommandLine {
    var argv: seq<string>
    var switches: map<string, string>
    var switchesByStringPiece: map<string, Place>
    var beginArgs: nat

    ghost predicate Valid()
      reads this
    {
      1 <= beginArgs <= |argv| && Mirrors(switches.Keys)
    }

    /** The lookup table has these keys, and each leads to the value in this object's own switch table. */
    ghost predicate Mirrors(keys: set<string>)
      reads this
    {
      && switchesByStringPiece.Keys == keys
      && forall key :: key in keys ==> switchesByStringPiece[key] == Place(this, key)
    }

    function Now(): State
      reads this
    {
      State(argv, switches, beginArgs)
    }

    constructor (newArgv: seq<string>)
      ensures Valid() && Now() == Init(newArgv)
    {
      argv := [""];
      switches, switchesByStringPiece := map[], map[];
      beginArgs := 1;
      new;
      InitFromArgv(newArgv);
    }

    /** The copy constructor: the pointers are not copied, they would lead into the other object. */
    constructor Copy(other: CommandLine)
      requires other.Valid()
      ensures Valid() && Now() == other.Now()
    {
      argv, switches, beginArgs := other.argv, other.switches, other.beginArgs;
      switchesByStringPiece := map[];
      new;
      ResetStringPieces();
    }

    /** operator=, also with itself. */
    method Assign(other: CommandLine)
      requires other.Valid()
      modifies this
      ensures Valid() && Now() == old(other.Now())
    {
      argv := other.argv;
      switches := other.switches;
      beginArgs := other.beginArgs;
      ResetStringPieces();
    }

    method ResetStringPieces()
      modifies this`switchesByStringPiece
      ensures Mirrors(switches.Keys)
    {
      switchesByStringPiece := map[];
      var rest := switches.Keys;
      while rest != {}
        invariant rest <= switches.Keys && Mirrors(switches.Keys - rest)
        decreases |rest|
      {
        var key :| key in rest;
        switchesByStringPiece := switchesByStringPiece[key := Place(this, key)];
        rest := rest - {key};
      }
      assert switches.Keys - {} == switches.Keys;
    }

    method HasSwitch(switchString: string) returns (r: bool)
      requires Valid()
      ensures r <==> switchString in switches
    {
      r := switchString in switchesByStringPiece;
    }

    method GetSwitchValueNative(switchString: string) returns (value: string)
      requires Valid()
      ensures value == if switchString in switches then switches[switchString] else ""
    {
      if switchString !in switchesByStringPiece {
        return "";
      }
      var result := switchesByStringPiece[switchString];
      value := result.owner.switches[result.key];
    }

    method SetProgram(program: string)
      requires Valid()
      modifies this`argv
      ensures Valid() && argv == [Trim(program)] + old(argv)[1..]
    {
      argv := argv[0 := Trim(program)];
    }

    /** Switches stay in front of the other arguments, wherever they are appended. */
    method AppendSwitchNative(name: string, value: string)
      requires Valid()
      modifies this
      ensures Valid() && beginArgs == old(beginArgs) + 1
      ensures argv == old(argv[..beginArgs]) + [Text(Switch(name, value))] + old(argv[beginArgs..])
      ensures switches == old(switches)[Key(Switch(name, value)) := value]
    {
      var text := name;
      var prefixLength := PrefixLength(text);
      var key := name[prefixLength..];
      switches := switches[key := value];
      switchesByStringPiece := switchesByStringPiece[key := Place(this, key)];
      if prefixLength == 0 {
        text := "--" + text;
      }
      if value != "" {
        text := text + ("=" + value);
      } else {
        assert text + "" == text;
      }
      argv := argv[..beginArgs] + [text] + argv[beginArgs..];
      beginArgs := beginArgs + 1;
    }

    method AppendArgNative(value: string)
      requires Valid()
      modifies this`argv
      ensures Valid() && argv == old(argv) + [value]
    {
      argv := argv + [value];
    }

    /** The effect of appending these switches and these other arguments. */
    twostate predicate Appended(s: seq<Switch>, rest: seq<string>)
      requires old(Valid())
      reads this
    {
      && Valid() && beginArgs == old(beginArgs) + |s|
      && argv == old(argv[..beginArgs]) + Texts(s) + old(argv[beginArgs..]) + rest
      && switches == old(switches) + Values(s)
    }

    /** front and back are what there was; s and rest have been appended. */
    ghost predicate Built(
        front: seq<string>, back: seq<string>, table: map<string, string>, s: seq<Switch>, rest: seq<string>)
      reads this
    {
      && Valid() && beginArgs == |front| + |s|
      && argv == (front + Texts(s)) + (back + rest) && switches == table + Values(s)
    }

    /** One turn of AppendSwitchesAndArguments: a switch or another argument. */
    method AppendOne(arg: string, parseSwitches: bool,
                     ghost front: seq<string>, ghost back: seq<string>, ghost table: map<string, string>,
                     ghost s: seq<Switch>, ghost rest: seq<string>,
                     ghost more: seq<string>, ghost parse: bool, ghost all: (seq<Switch>, seq<string>))
      returns (ghost s': seq<Switch>, ghost rest': seq<string>)
      requires Built(front, back, table, s, rest) && Joins(AsSwitch, s, rest, more, parse, all)
      requires more != [] && arg == more[0] && parseSwitches == (parse && arg != SWITCH_TERMINATOR)
      modifies this
      ensures Built(front, back, table, s', rest') && Joins(AsSwitch, s', rest', more[1..], parseSwitches, all)
    {
      JoinNext(AsSwitch, s, rest, more, parse, all);
      var r := AsSwitch(arg);
      if parseSwitches && r.Some? {
        NextSwitch(front, s, r.value, back + rest);
        AppendSwitchNative(r.value.name, r.value.value);
        s', rest' := s + [r.value], rest;
      } else {
        AppendArgNative(arg);
        s', rest' := s, rest + [arg];
      }
    }

    /** Everything after the program. */
    method AppendSwitchesAndArguments(newArgv: seq<string>)
      requires Valid()
      modifies this
      ensures var r := Partition(AsSwitch, Arguments(newArgv), true); Appended(r.0, r.1)
    {
      var parseSwitches := true;
      ghost var front, back, table := argv[..beginArgs], argv[beginArgs..], switches;
      ghost var s, rest: seq<string> := [], [];
      assert Texts([]) == [];
      ghost var args := Arguments(newArgv);
      ghost var all := Partition(AsSwitch, args, true);
      var i := 1;
      while i < |newArgv|
        invariant 1 <= i <= 1 + |args|
        invariant Built(front, back, table, s, rest)
        invariant Joins(AsSwitch, s, rest, args[i - 1..], parseSwitches, all)
      {
        var arg := Trim(newArgv[i]);
        ghost var more, parse := args[i - 1..], parseSwitches;
        parseSwitches := parseSwitches && arg != SWITCH_TERMINATOR;
        s, rest := AppendOne(arg, parseSwitches, front, back, table, s, rest, more, parse, all);
        assert more[1..] == args[i..];
        i := i + 1;
      }
      assert front + Texts(s) + back + rest == (front + Texts(s)) + (back + rest);
      assert s + [] == s && rest + [] == rest;
    }

    method InitFromArgv(newArgv: seq<string>)
      modifies this
      ensures Valid() && Now() == Init(newArgv)
    {
      argv := [""];
      switches, switchesByStringPiece := map[], map[];
      beginArgs := 1;
      SetProgram(if newArgv == [] then "" else newArgv[0]);
      ghost var r := Partition(AsSwitch, Arguments(newArgv), true);
      ghost var program := argv;
      assert program[..1] == program && program[1..] == [];
      AppendSwitchesAndArguments(newArgv);
      assert map[] + Values(r.0) == Values(r.0);
      assert program + Texts(r.0) + [] == program + Texts(r.0);
    }
  }

  /** What has been handled and what is still to come make up the whole. */
  ghost predicate Joins<S>(cut: string -> Option<S>, s: seq<S>, rest: seq<string>, more: seq<string>, parse: bool,
                           all: (seq<S>, seq<string>))
  {
    s + Partition(cut, more, parse).0 == all.0 && rest + Partition(cut, more, parse).1 == all.1
  }

  lemma {:induction false} JoinNext<S>(
      cut: string -> Option<S>, s: seq<S>, rest: seq<string>, more: seq<string>, parse: bool,
      all: (seq<S>, seq<string>))
    requires more != [] && Joins(cut, s, rest, more, parse, all)
    ensures var p := parse && more[0] != SWITCH_TERMINATOR;
      if p && cut(more[0]).Some? then Joins(cut, s + [cut(more[0]).value], rest, more[1..], p, all)
      else Joins(cut, s, rest + [more[0]], more[1..], p, all)
  {
    var r := Partition(cut, more[1..], parse && more[0] != SWITCH_TERMINATOR);
    if cut(more[0]).Some? {
      assert (s + [cut(more[0]).value]) + r.0 == s + ([cut(more[0]).value] + r.0);
    }
    assert (rest + [more[0]]) + r.1 == rest + ([more[0]] + r.1);
  }

  lemma {:induction false} NextSwitch(front: seq<string>, s: seq<Switch>, next: Switch, behind: seq<string>)
    ensures Texts(s + [next]) == Texts(s) + [Text(next)]
    ensures var argv := (front + Texts(s)) + behind; var at := |front| + |s|;
      argv[..at] + [Text(next)] + argv[at..] == (front + Texts(s + [next])) + behind
    ensures Values(s + [next]) == Values(s)[Key(next) := next.value]
  {
    assert (s + [next])[..|s|] == s;
    var argv, at := (front + Texts(s)) + behind, |front| + |s|;
    assert argv[..at] == front + Texts(s) && argv[at..] == behind;
    assert Texts(s + [next]) == Texts(s) + [Text(next)];
  }

  // ---------------------------------------------------------------- initialising again from its own argv

  /** What holds of every switch cut out of a trimmed argument. */
  predicate Cut(s: Switch) {
    && PrefixLength(s.name) > 0 && Without('=', s.name)
    && (s.value != "" ==> !White(s.value[|s.value| - 1]))
  }

  /** An empty value whose '=' held the argument together: nothing but a prefix is left, or a name to be trimmed. */
  predicate Fragile(s: Switch) {
    s.value == "" && (|s.name| == PrefixLength(s.name) || White(s.name[|s.name| - 1]))
  }

  lemma {:induction false} PrefixOfPart(s: string, n: nat)
    requires n <= |s| && Without('=', s[..n]) && (n < |s| ==> s[n] == '=')
    ensures PrefixLength(s[..n]) == PrefixLength(s)
  {
    var p := s[..n];
    if "-" <= s { assert s[0] == '-'; assert n > 0; assert p[0] == '-'; }
    if "--" <= s { assert s[1] == '-'; assert n > 1; assert p[1] == '-'; }
    if "-" <= p { assert p[0] == '-'; }
    if "--" <= p { assert p[1] == '-'; }
  }

  lemma {:induction false} SwitchesAreCut(arg: string)
    requires Trimmed(arg) && AsSwitch(arg).Some?
    ensures Cut(AsSwitch(arg).value)
  {
    var at := Find(arg, '=');
    if at.Some? {
      PrefixOfPart(arg, at.value);
    }
  }

  /** A switch that is not fragile is printed as an argument that is cut into the same switch again. */
  lemma {:induction false} FirmTextIsCutAgain(s: Switch)
    requires Cut(s) && !Fragile(s)
    ensures Trimmed(Text(s)) && Text(s) != SWITCH_TERMINATOR && AsSwitch(Text(s)) == Some(s)
  {
    var t := Text(s);
    assert "-" <= s.name && t[0] == s.name[0] == '-';
    if s.value == "" {
      assert t == s.name;
      assert Find(t, '=') == None;
    } else {
      var n := |s.name|;
      assert t == s.name + ("=" + s.value) && t[..n] == s.name && t[n] == '=' && t[n + 1..] == s.value;
      PrefixOfPart(t, n);
      FoundAt(t, '=', n);
      assert t[|t| - 1] == s.value[|s.value| - 1];
    }
  }

  /** If the text of a fragile switch is still a switch, it is not the same text. */
  lemma {:induction false} FragileTextChanges(s: Switch)
    requires Cut(s) && Fragile(s) && AsSwitch(Trim(Text(s))).Some?
    ensures Text(AsSwitch(Trim(Text(s))).value) != Text(s)
  {
    var name := s.name;
    assert Text(s) == name;
    assert "-" <= name && name[0] == '-';
    TrimKeepsStart(name);
    var t := Trim(name);
    assert Without('=', t);
    assert Find(t, '=') == None;
    assert Text(Switch(t, "")) == t;
  }

  /** What holds of all arguments holds of the others, and what holds of all that is cut holds of the switches. */
  lemma {:induction false} PartitionKeeps<S>(
      cut: string -> Option<S>, args: seq<string>, parse: bool, fine: string -> bool, whole: S -> bool)
    requires forall i :: 0 <= i < |args| ==> fine(args[i]) && (cut(args[i]).Some? ==> whole(cut(args[i]).value))
    ensures forall i :: 0 <= i < |Partition(cut, args, parse).0| ==> whole(Partition(cut, args, parse).0[i])
    ensures forall i :: 0 <= i < |Partition(cut, args, parse).1| ==> fine(Partition(cut, args, parse).1[i])
    decreases |args|
  {
    if args != [] {
      PartitionKeeps(cut, args[1..], parse && args[0] != SWITCH_TERMINATOR, fine, whole);
    }
  }

  /** Partitioned again, the other arguments all stay other arguments. */
  lemma {:induction false} OthersStayOthers<S>(cut: string -> Option<S>, args: seq<string>, parse: bool)
    ensures var others := Partition(cut, args, parse).1; Partition(cut, others, parse) == ([], others)
    decreases |args|
  {
    if args != [] {
      var p := parse && args[0] != SWITCH_TERMINATOR;
      OthersStayOthers(cut, args[1..], p);
      var others := Partition(cut, args, parse).1;
      if !(p && cut(args[0]).Some?) {
        assert others[0] == args[0] && others[1..] == Partition(cut, args[1..], p).1;
      }
    }
  }

  lemma {:induction false} SwitchesComeFirst<S>(
      cut: string -> Option<S>, texts: seq<string>, s: seq<S>, others: seq<string>)
    requires |texts| == |s| && Partition(cut, others, true) == ([], others)
    requires forall i :: 0 <= i < |s| ==> texts[i] != SWITCH_TERMINATOR && cut(texts[i]) == Some(s[i])
    ensures Partition(cut, texts + others, true) == (s, others)
    decreases |s|
  {
    var args := texts + others;
    if s == [] {
      assert args == others;
    } else {
      SwitchesComeFirst(cut, texts[1..], s[1..], others);
      assert args[1..] == texts[1..] + others;
      assert s == [s[0]] + s[1..];
    }
  }

  lemma {:induction false} NoneUnparsed<S>(cut: string -> Option<S>, args: seq<string>)
    ensures Partition(cut, args, false).0 == []
    decreases |args|
  {
    if args != [] { NoneUnparsed(cut, args[1..]); }
  }

  /** An argument becomes at most one switch, and one that was none stays none. */
  lemma {:induction false} NoNewSwitches<S>(
      cut: string -> Option<S>, texts: seq<string>, others: seq<string>, parse: bool)
    requires Partition(cut, others, true) == ([], others)
    ensures |Partition(cut, texts + others, parse).0| <= |texts|
    decreases |texts|
  {
    var args := texts + others;
    if texts == [] {
      assert args == others;
      if !parse { NoneUnparsed(cut, others); }
    } else {
      assert args[1..] == texts[1..] + others;
      NoNewSwitches(cut, texts[1..], others, parse && args[0] != SWITCH_TERMINATOR);
    }
  }

  /** If there are as many switches as texts, they are the switches of the texts. */
  lemma {:induction false} SwitchesLineUp<S>(
      cut: string -> Option<S>, texts: seq<string>, others: seq<string>, i: nat)
    requires Partition(cut, others, true) == ([], others)
    requires i < |texts| == |Partition(cut, texts + others, true).0|
    ensures cut(texts[i]) == Some(Partition(cut, texts + others, true).0[i])
    decreases |texts|
  {
    var args := texts + others;
    assert args[1..] == texts[1..] + others;
    NoNewSwitches(cut, texts[1..], others, args[0] != SWITCH_TERMINATOR);
    if i > 0 { SwitchesLineUp(cut, texts[1..], others, i - 1); }
  }

  lemma {:induction false} FirmSwitchesStay(s: seq<Switch>, others: seq<string>)
    requires forall i :: 0 <= i < |s| ==> Cut(s[i]) && !Fragile(s[i])
    requires Partition(AsSwitch, others, true) == ([], others)
    ensures Partition(AsSwitch, TrimAll(Texts(s)) + others, true) == (s, others)
  {
    var texts := TrimAll(Texts(s));
    forall i | 0 <= i < |s| ensures texts[i] != SWITCH_TERMINATOR && AsSwitch(texts[i]) == Some(s[i]) {
      FirmTextIsCutAgain(s[i]);
    }
    SwitchesComeFirst(AsSwitch, texts, s, others);
  }

  lemma {:induction false} StayingSwitchIsFirm(s: seq<Switch>, others: seq<string>, i: nat)
    requires Partition(AsSwitch, others, true) == ([], others)
    requires var again := Partition(AsSwitch, TrimAll(Texts(s)) + others, true).0;
      |again| == |s| && Texts(again) == Texts(s)
    requires i < |s| && Cut(s[i])
    ensures !Fragile(s[i])
  {
    var texts := TrimAll(Texts(s));
    var again := Partition(AsSwitch, texts + others, true).0;
    SwitchesLineUp(AsSwitch, texts, others, i);
    assert Text(again[i]) == Texts(again)[i] == Text(s[i]);
    if Fragile(s[i]) { FragileTextChanges(s[i]); }
  }

  /** The switches that Init finds in an argument list. */
  function SwitchesIn(argv: seq<string>): seq<Switch> {
    Partition(AsSwitch, Arguments(argv), true).0
  }

  function OthersIn(argv: seq<string>): seq<string> {
    Partition(AsSwitch, Arguments(argv), true).1
  }

  lemma {:induction false} SameStates(
      program: string, r: (seq<Switch>, seq<string>), again: (seq<Switch>, seq<string>))
    requires Assembled(program, again) == Assembled(program, r)
    ensures |again.0| == |r.0| && Texts(again.0) == Texts(r.0)
  {
    var n := |r.0|;
    var x, y := [program] + Texts(again.0) + again.1, [program] + Texts(r.0) + r.1;
    assert x == y;
    assert Texts(again.0) == x[1..1 + n] && Texts(r.0) == y[1..1 + n];
  }

  lemma {:induction false} InitAssembled(program: string, r: (seq<Switch>, seq<string>))
    requires Trimmed(program) && forall i :: 0 <= i < |r.1| ==> Trimmed(r.1[i])
    ensures Init(Assembled(program, r).argv)
      == Assembled(program, Partition(AsSwitch, TrimAll(Texts(r.0)) + r.1, true))
  {
    var argv := [program] + Texts(r.0) + r.1;
    assert argv[0] == program && Arguments(argv) == TrimAll(Texts(r.0)) + r.1;
  }

  lemma {:induction false} AssembledAgain(now: State, program: string, s: seq<Switch>, others: seq<string>)
    requires now == Assembled(program, (s, others))
    requires Trimmed(program) && Partition(AsSwitch, others, true) == ([], others)
    requires forall i :: 0 <= i < |s| ==> Cut(s[i])
    requires forall i :: 0 <= i < |others| ==> Trimmed(others[i])
    ensures Init(now.argv) == now <==> forall i :: 0 <= i < |s| ==> !Fragile(s[i])
  {
    InitAssembled(program, (s, others));
    var again := Partition(AsSwitch, TrimAll(Texts(s)) + others, true);
    if Assembled(program, again) == now {
      SameStates(program, (s, others), again);
      forall i | 0 <= i < |s| ensures !Fragile(s[i]) {
        StayingSwitchIsFirm(s, others, i);
      }
    } else if forall i :: 0 <= i < |s| ==> !Fragile(s[i]) {
      FirmSwitchesStay(s, others);
    }
  }

  lemma {:induction false} ArgumentsAreFine(argv: seq<string>)
    ensures forall i :: 0 <= i < |SwitchesIn(argv)| ==> Cut(SwitchesIn(argv)[i])
    ensures forall i :: 0 <= i < |OthersIn(argv)| ==> Trimmed(OthersIn(argv)[i])
  {
    var args := Arguments(argv);
    forall i | 0 <= i < |args|
      ensures Trimmed(args[i]) && (AsSwitch(args[i]).Some? ==> Cut(AsSwitch(args[i]).value))
    {
      if AsSwitch(args[i]).Some? { SwitchesAreCut(args[i]); }
    }
    PartitionKeeps(AsSwitch, args, true, Trimmed, Cut);
  }

  /**
    Initialising again from its own argv changes nothing exactly when no argument was a switch whose value after '='
    is empty and whose name is empty or ends in white space.
  */
  lemma {:induction false} InitAgain(argv: seq<string>)
    ensures Init(Init(argv).argv) == Init(argv) <==>
      forall i :: 0 <= i < |SwitchesIn(argv)| ==> !Fragile(SwitchesIn(argv)[i])
  {
    ArgumentsAreFine(argv);
    OthersStayOthers(AsSwitch, Arguments(argv), true);
    var r, s, others := Partition(AsSwitch, Arguments(argv), true), SwitchesIn(argv), OthersIn(argv);
    assert r == (s, others);
    AssembledAgain(Init(argv), Trim(if argv == [] then "" else argv[0]), s, others);
  }

  lemma {:induction false} OneArgument(arg: string, name: string)
    requires Trimmed(arg) && AsSwitch(arg) == Some(Switch(name, "")) && arg != SWITCH_TERMINATOR
    ensures SwitchesIn(["p", arg]) == [Switch(name, "")]
  {
    var args := Arguments(["p", arg]);
    assert args == [arg] && args[1..] == [];
    assert Partition(AsSwitch, args[1..], true) == ([], []);
  }

  /** A prefix and an equals sign: nothing of it is left but the prefix, which is no switch. */
  lemma {:induction false} NamelessSwitchIsForgotten()
    ensures SwitchesIn(["p", "-="]) == [Switch("-", "")]
    ensures Init(Init(["p", "-="]).argv) != Init(["p", "-="])
  {
    var argv := ["p", "-="];
    FoundAt("-=", '=', 1);
    assert "-="[..1] == "-" && "-="[2..] == "" && PrefixLength("-=") == 1;
    assert AsSwitch("-=") == Some(Switch("-", ""));
    OneArgument("-=", "-");
    InitAgain(argv);
    assert Fragile(SwitchesIn(argv)[0]);
  }

  /** A name that ends in white space: without its equals sign it is trimmed to another name. */
  lemma {:induction false} SpacedSwitchIsRenamed()
    ensures SwitchesIn(["p", "--a ="]) == [Switch("--a ", "")]
    ensures Init(Init(["p", "--a ="]).argv) != Init(["p", "--a ="])
  {
    var argv := ["p", "--a ="];
    FoundAt("--a =", '=', 4);
    assert "--a ="[..4] == "--a " && "--a ="[5..] == "" && PrefixLength("--a =") == 2;
    assert AsSwitch("--a =") == Some(Switch("--a ", ""));
    OneArgument("--a =", "--a ");
    InitAgain(argv);
    assert Fragile(SwitchesIn(argv)[0]);
  }

  // ---------------------------------------------------------------- switches by their characters

  /** On POSIX, what is a switch, and what its name and its value are. */
  lemma {:induction false} SwitchesByPrefix(s: string)
    ensures AsSwitch(s).Some? <==> |s| >= 2 && s != "--" && s[0] == '-'
    ensures AsSwitch(s).Some? ==> var r := AsSwitch(s).value;
      '=' !in r.name && (if '=' in s then s == r.name + "=" + r.value else s == r.name && r.value == "")
  {
    assert "--" <= s <==> |s| >= 2 && s[0] == '-' && s[1] == '-';
    assert |s| == 2 && s[0] == '-' && s[1] == '-' <==> s == "--";
    var at := Find(s, '=');
    if at.Some? {
      assert s == s[..at.value] + "=" + s[at.value + 1..] && s[at.value] in s;
    }
  }

  /** The key of a switch is its name without the dashes in front, at most two of them. */
  lemma {:induction false} KeysByPrefix(s: Switch)
    ensures s.name == Key(s) || s.name == "-" + Key(s) || s.name == "--" + Key(s)
    ensures |s.name| >= 2 && s.name[0] == '-' && s.name[1] == '-' ==> s.name == "--" + Key(s)
    ensures s.name != "" && s.name[0] == '-' && (|s.name| == 1 || s.name[1] != '-') ==> s.name == "-" + Key(s)
    ensures s.name == "" || s.name[0] != '-' ==> s.name == Key(s)
  {
    assert "--" <= s.name <==> |s.name| >= 2 && s.name[0] == '-' && s.name[1] == '-';
    assert "-" <= s.name <==> s.name != "" && s.name[0] == '-';
  }

  lemma {:induction false} PartitionFirst<S>(cut: string -> Option<S>, args: seq<string>, parse: bool, p: bool)
    requires args != [] && p == (parse && args[0] != SWITCH_TERMINATOR)
    ensures var r := Partition(cut, args[1..], p); var taken := p && cut(args[0]).Some?;
      && Partition(cut, args, parse).0 == (if taken then [cut(args[0]).value] + r.0 else r.0)
      && Partition(cut, args, parse).1 == (if taken then r.1 else [args[0]] + r.1)
  {
  }

  /** Switches come to the front; what follows the terminator, and the terminator itself, is left alone. */
  lemma {:induction false} FiveArguments<S>(
      cut: string -> Option<S>, a: string, b: string, c: string, d: string, e: string, x: S, y: S)
    requires a != SWITCH_TERMINATOR && b != SWITCH_TERMINATOR && c != SWITCH_TERMINATOR && d == SWITCH_TERMINATOR
    requires cut(a) == None && cut(b) == Some(x) && cut(c) == Some(y)
    ensures var r := Partition(cut, [a, b, c, d, e], true); r.0 == [x, y] && r.1 == [a, d, e]
  {
    var args := [a, b, c, d, e];
    assert args[1..] == [b, c, d, e] && [b, c, d, e][1..] == [c, d, e] && [c, d, e][1..] == [d, e];
    assert [d, e][1..] == [e] && [e][1..] == [];
    PartitionFirst(cut, [e], false, false);
    PartitionFirst(cut, [d, e], true, false);
    PartitionFirst(cut, [c, d, e], true, true);
    PartitionFirst(cut, [b, c, d, e], true, true);
    PartitionFirst(cut, args, true, true);
  }

  lemma {:induction false} FiveAssembled(
      p: string, a: string, b: string, c: string, d: string, e: string, x: Switch, y: Switch)
    requires Trimmed(p) && Trimmed(a) && Trimmed(b) && Trimmed(c) && Trimmed(d) && Trimmed(e)
    requires a != SWITCH_TERMINATOR && b != SWITCH_TERMINATOR && c != SWITCH_TERMINATOR && d == SWITCH_TERMINATOR
    requires AsSwitch(a) == None && AsSwitch(b) == Some(x) && AsSwitch(c) == Some(y)
    ensures Init([p, a, b, c, d, e])
      == State([p, Text(x), Text(y), a, d, e], map[Key(x) := x.value][Key(y) := y.value], 3)
  {
    var argv := [p, a, b, c, d, e];
    assert Arguments(argv) == [a, b, c, d, e];
    FiveArguments(AsSwitch, a, b, c, d, e, x, y);
    TwoValues(x, y);
    assert [p] + Texts([x, y]) + [a, d, e] == [p, Text(x), Text(y), a, d, e];
  }

  lemma {:induction false} TwoValues(x: Switch, y: Switch)
    ensures Texts([x, y]) == [Text(x), Text(y)] && Values([x, y]) == map[Key(x) := x.value][Key(y) := y.value]
  {
    assert [x, y][..1] == [x] && [x][..0] == [];
    assert Values([x]) == map[][Key(x) := x.value];
  }

  lemma {:induction false} SwitchesByExample()
    ensures AsSwitch("x") == None && AsSwitch("-c") == Some(Switch("-c", ""))
    ensures AsSwitch("--a=b") == Some(Switch("--a", "b"))
    ensures Text(Switch("-c", "")) == "-c" && Text(Switch("--a", "b")) == "--a=b"
    ensures Key(Switch("-c", "")) == "c" && Key(Switch("--a", "b")) == "a"
  {
    assert Find("-c", '=') == None;
    FoundAt("--a=b", '=', 3);
    assert "--a=b"[..3] == "--a" && "--a=b"[4..] == "b";
    assert "--a" + ("=" + "b") == "--a=b" && "-c" + "" == "-c";
    assert "-c"[1..] == "c" && "--a"[2..] == "a";
  }

  lemma {:induction false} InitByExample()
    ensures Init(["p", "x", "--a=b", "-c", "--", "--d"])
      == State(["p", "--a=b", "-c", "x", "--", "--d"], map["a" := "b"]["c" := ""], 3)
  {
    SwitchesByExample();
    FiveAssembled("p", "x", "--a=b", "-c", "--", "--d", Switch("--a", "b"), Switch("-c", ""));
  }
}
