/** ParseEnvLine and both versions of AlterEnvironment, src/base/environment.cc. */
module Environments {
  import opened Options
  import opened StringUtil

  const NUL: char := '\0'

  // ---------------------------------------------------------------- lines

  /** Where the key of a line ends: at the first '=', or at its end. */
  function KeyEnd(line: string, from: nat): (end: nat)
    requires from <= |line|
    ensures from <= end <= |line| && (end < |line| ==> line[end] == '=')
    ensures forall i :: from <= i < end ==> line[i] != '='
    decreases |line| - from
  {
    if from == |line| || line[from] == '=' then from else KeyEnd(line, from + 1)
  }

  function KeyOf(line: string): string {
    line[..KeyEnd(line, 0)]
  }

  /** What getenv finds: the first line of the form name=value. */
  function Lookup(lines: seq<string>, name: string): Option<string> {
    if lines == [] then None
    else
      var n := KeyEnd(lines[0], 0);
      if n < |lines[0]| && lines[0][..n] == name then Some(lines[0][n + 1..]) else Lookup(lines[1..], name)
  }

  // ---------------------------------------------------------------- changes

  /** The entries of the map of changes, in its order; an empty value deletes. */
  datatype Change = Change(key: string, value: string)

  /** A map has each key once, and a key that is to be found again contains no '='; nothing contains a NUL. */
  predicate Clean(changes: seq<Change>) {
    && (forall i, j :: 0 <= i < j < |changes| ==> changes[i].key != changes[j].key)
    && forall i :: 0 <= i < |changes| ==>
      Without('=', changes[i].key) && Without(NUL, changes[i].key) && Without(NUL, changes[i].value)
  }

  function ChangeOf(changes: seq<Change>, key: string): (c: Option<string>)
    ensures c.None? ==> forall i :: 0 <= i < |changes| ==> changes[i].key != key
    ensures c.Some? ==> exists i :: 0 <= i < |changes| && changes[i] == Change(key, c.value)
  {
    if changes == [] then None
    else if changes[0].key == key then Some(changes[0].value)
    else
      var c := ChangeOf(changes[1..], key);
      assert c.Some? ==>
        exists i :: 0 <= i < |changes[1..]| && changes[1..][i] == changes[i + 1] == Change(key, c.value);
      c
  }

  function Kept(lines: seq<string>, changes: seq<Change>): seq<string> {
    if lines == [] then []
    else
      var last := lines[|lines| - 1];
      Kept(lines[..|lines| - 1], changes) + (if ChangeOf(changes, KeyOf(last)).None? then [last] else [])
  }

  function Added(changes: seq<Change>): seq<string> {
    if changes == [] then []
    else
      var last := changes[|changes| - 1];
      Added(changes[..|changes| - 1]) + (if last.value != "" then [last.key + "=" + last.value] else [])
  }

  function Altered(lines: seq<string>, changes: seq<Change>): seq<string> {
    Kept(lines, changes) + Added(changes)
  }

  // ---------------------------------------------------------------- what is found afterwards

  lemma {:induction false} LookupBehind(a: seq<string>, b: seq<string>, name: string)
    ensures Lookup(a + b, name) == if Lookup(a, name).Some? then Lookup(a, name) else Lookup(b, name)
    decreases |a|
  {
    if a == [] {
      assert a + b == b;
    } else {
      assert (a + b)[1..] == a[1..] + b;
      LookupBehind(a[1..], b, name);
    }
  }

  lemma {:induction false} KeyEndIs(line: string, from: nat, end: nat)
    requires from <= end <= |line| && (end < |line| ==> line[end] == '=')
    requires forall i :: from <= i < end ==> line[i] != '='
    ensures KeyEnd(line, from) == end
    decreases end - from
  {
    if from < end { KeyEndIs(line, from + 1, end); }
  }

  lemma {:induction false} LookupOne(line: string, name: string)
    ensures Lookup([line], name)
      == if KeyEnd(line, 0) < |line| && KeyOf(line) == name then Some(line[KeyEnd(line, 0) + 1..]) else None
  {
    assert [line][1..] == [];
  }

  lemma {:induction false} LookupKept(lines: seq<string>, changes: seq<Change>, name: string)
    ensures Lookup(Kept(lines, changes), name)
      == if ChangeOf(changes, name).Some? then None else Lookup(lines, name)
    decreases |lines|
  {
    if lines != [] {
      var init, last := lines[..|lines| - 1], lines[|lines| - 1];
      assert lines == init + [last];
      LookupKept(init, changes, name);
      LookupOne(last, name);
      LookupBehind(init, [last], name);
      LookupBehind(Kept(init, changes), [last], name);
      assert Kept(init, changes) + [] == Kept(init, changes);
    }
  }

  lemma {:induction false} LookupChange(c: Change, name: string)
    requires Without('=', c.key)
    ensures Lookup([c.key + "=" + c.value], name) == if c.key == name then Some(c.value) else None
  {
    var line := c.key + "=" + c.value;
    KeyEndIs(line, 0, |c.key|);
    LookupOne(line, name);
  }

  lemma {:induction false} ChangeOfLast(changes: seq<Change>, key: string)
    requires Clean(changes) && changes != []
    ensures var last := changes[|changes| - 1];
      ChangeOf(changes, key) == if last.key == key then Some(last.value) else ChangeOf(changes[..|changes| - 1], key)
  {
    if |changes| > 1 {
      ChangeOfLast(changes[1..], key);
      assert changes[1..][..|changes| - 2] == changes[..|changes| - 1][1..];
    }
  }

  lemma {:induction false} LookupAdded(changes: seq<Change>, name: string)
    requires Clean(changes)
    ensures Lookup(Added(changes), name)
      == var c := ChangeOf(changes, name); if c.Some? && c.value != "" then c else None
    decreases |changes|
  {
    if changes != [] {
      var init, last := changes[..|changes| - 1], changes[|changes| - 1];
      LookupAdded(init, name);
      ChangeOfLast(changes, name);
      LookupChange(last, name);
      LookupBehind(Added(init), [last.key + "=" + last.value], name);
      assert Added(init) + [] == Added(init);
    }
  }

  function Overridden(before: Option<string>, change: Option<string>): Option<string> {
    if change.None? then before else if change.value == "" then None else change
  }

  /** The altered environment looks up as the old one overridden by the changes. */
  lemma {:induction false} LookupAltered(lines: seq<string>, changes: seq<Change>, name: string)
    requires Clean(changes)
    ensures Lookup(Altered(lines, changes), name) == Overridden(Lookup(lines, name), ChangeOf(changes, name))
  {
    LookupKept(lines, changes, name);
    LookupAdded(changes, name);
    LookupBehind(Kept(lines, changes), Added(changes), name);
  }

  /** Two alterations look up as one by the merged map, in which the later change counts. */
  lemma {:induction false} AlteredTwice(
      lines: seq<string>, first: seq<Change>, second: seq<Change>, merged: seq<Change>, name: string)
    requires Clean(first) && Clean(second) && Clean(merged)
    requires ChangeOf(merged, name)
      == if ChangeOf(second, name).Some? then ChangeOf(second, name) else ChangeOf(first, name)
    ensures Lookup(Altered(Altered(lines, first), second), name) == Lookup(Altered(lines, merged), name)
  {
    LookupAltered(Altered(lines, first), second, name);
    LookupAltered(lines, first, name);
    LookupAltered(lines, merged, name);
  }

  // ---------------------------------------------------------------- which lines there are

  predicate Increasing(at: seq<nat>) {
    forall i, j :: 0 <= i < j < |at| ==> at[i] < at[j]
  }

  lemma {:induction false} NextPlace(at: seq<nat>, n: nat)
    requires Increasing(at) && forall k :: 0 <= k < |at| ==> at[k] < n
    ensures Increasing(at + [n]) && forall i :: i in at + [n] <==> i in at || i == n
  {
  }

  /** The old lines that are kept are those that no change is about, each once and in the old order. */
  lemma {:induction false} KeptLines(lines: seq<string>, changes: seq<Change>) returns (at: seq<nat>)
    ensures Increasing(at) && |at| == |Kept(lines, changes)|
    ensures forall k :: 0 <= k < |at| ==> at[k] < |lines| && Kept(lines, changes)[k] == lines[at[k]]
    ensures forall i: nat :: i in at <==> i < |lines| && ChangeOf(changes, KeyOf(lines[i])).None?
    decreases |lines|
  {
    at := [];
    if lines != [] {
      var n := |lines| - 1;
      at := KeptLines(lines[..n], changes);
      NextPlace(at, n);
      if ChangeOf(changes, KeyOf(lines[n])).None? { at := at + [n]; }
    }
  }

  /** The new lines are those of the changes that do not delete, each once and in the order of the changes. */
  lemma {:induction false} AddedLines(changes: seq<Change>) returns (at: seq<nat>)
    ensures Increasing(at) && |at| == |Added(changes)|
    ensures forall k :: 0 <= k < |at| ==>
      at[k] < |changes| && Added(changes)[k] == changes[at[k]].key + "=" + changes[at[k]].value
    ensures forall i: nat :: i in at <==> i < |changes| && changes[i].value != ""
    decreases |changes|
  {
    at := [];
    if changes != [] {
      var n := |changes| - 1;
      at := AddedLines(changes[..n]);
      NextPlace(at, n);
      if changes[n].value != "" { at := at + [n]; }
    }
  }

  // ---------------------------------------------------------------- lines in memory

  /** The lines one after the other, each with its terminating NUL. */
  function Flat(lines: seq<string>): string {
    if lines == [] then "" else Flat(lines[..|lines| - 1]) + lines[|lines| - 1] + [NUL]
  }

  /** Where each line starts. */
  function Offsets(lines: seq<string>): (o: seq<nat>)
    ensures |o| == |lines|
  {
    if lines == [] then [] else Offsets(lines[..|lines| - 1]) + [|Flat(lines[..|lines| - 1])|]
  }

  /** There is a terminated line at this place. */
  predicate LineAt(mem: string, at: nat, line: string) {
    && at + |line| < |mem| && mem[at..at + |line|] == line && mem[at + |line|] == NUL && Without(NUL, line)
  }

  lemma {:induction false} LineStaysAt(mem: string, at: nat, line: string, more: string)
    requires LineAt(mem, at, line)
    ensures LineAt(mem + more, at, line)
  {
    assert (mem + more)[at..at + |line|] == mem[at..at + |line|];
  }

  /** Each offset is the place of its line. */
  lemma {:induction false} LineAtOffset(lines: seq<string>, i: nat)
    requires i < |lines| && Without(NUL, lines[i])
    ensures LineAt(Flat(lines), Offsets(lines)[i], lines[i])
    decreases |lines|
  {
    var init, last := lines[..|lines| - 1], lines[|lines| - 1];
    if i < |init| {
      LineAtOffset(init, i);
      LineStaysAt(Flat(init), Offsets(init)[i], lines[i], last + [NUL]);
      assert Flat(lines) == Flat(init) + (last + [NUL]);
    } else {
      var mem, at := Flat(lines), |Flat(init)|;
      assert mem[at..at + |last|] == last;
    }
  }

  /** ParseEnvLine: the key, and the length of the line with its NUL. */
  method ParseEnvLine(mem: string, at: nat, ghost line: string) returns (key: string, length: nat)
    requires LineAt(mem, at, line)
    ensures key == KeyOf(line) && length == |line| + 1
  {
    ghost var text := mem[at..at + |line|];
    var cur := 0;
    while mem[at + cur] != NUL && mem[at + cur] != '='
      invariant cur <= |line| && forall i :: 0 <= i < cur ==> text[i] != '='
      decreases |line| - cur
    {
      assert text[cur] == mem[at + cur];
      cur := cur + 1;
    }
    if cur < |line| { assert text[cur] == mem[at + cur]; }
    KeyEndIs(line, 0, cur);
    assert mem[at..at + cur] == text[..cur];
    key := mem[at..at + cur];
    while mem[at + cur] != NUL
      invariant cur <= |line|
      decreases |line| - cur
    {
      cur := cur + 1;
    }
    length := cur + 1;
  }

  lemma {:induction false} FlatNext(lines: seq<string>, line: string)
    ensures Flat(lines + [line]) == Flat(lines) + (line + [NUL])
    ensures Offsets(lines + [line]) == Offsets(lines) + [|Flat(lines)|]
  {
    assert (lines + [line])[..|lines|] == lines;
  }

  lemma {:induction false} KeptNext(lines: seq<string>, k: nat, changes: seq<Change>)
    requires k < |lines|
    ensures Kept(lines[..k + 1], changes)
      == if ChangeOf(changes, KeyOf(lines[k])).None? then Kept(lines[..k], changes) + [lines[k]]
         else Kept(lines[..k], changes)
  {
    assert lines[..k + 1][..k] == lines[..k];
    assert Kept(lines[..k], changes) + [] == Kept(lines[..k], changes);
  }

  lemma {:induction false} AddedNext(changes: seq<Change>, k: nat)
    requires k < |changes|
    ensures Added(changes[..k + 1])
      == if changes[k].value != "" then Added(changes[..k]) + [changes[k].key + "=" + changes[k].value]
         else Added(changes[..k])
  {
    assert changes[..k + 1][..k] == changes[..k];
    assert Added(changes[..k]) + [] == Added(changes[..k]);
  }

  // ---------------------------------------------------------------- the Windows version

  /** The lines and the end mark: one more NUL, and two if there is no line. */
  function Block(lines: seq<string>): (b: string)
    ensures |b| >= 2 && b[|b| - 1] == NUL && b[|b| - 2] == NUL
  {
    if lines == [] then [NUL, NUL] else Flat(lines) + [NUL]
  }

  predicate AllLines(lines: seq<string>) {
    forall i :: 0 <= i < |lines| ==> lines[i] != "" && Without(NUL, lines[i])
  }

  /** Where line k starts, or the end mark. */
  function Start(lines: seq<string>, k: nat): nat
    requires k <= |lines|
  {
    if k == 0 then 0 else Start(lines, k - 1) + |lines[k - 1]| + 1
  }

  lemma {:induction false} StartOfPrefix(lines: seq<string>, more: seq<string>, k: nat)
    requires k <= |lines|
    ensures Start(lines + more, k) == Start(lines, k)
  {
    if k > 0 { StartOfPrefix(lines, more, k - 1); }
  }

  lemma {:induction false} StartsAreOffsets(lines: seq<string>, k: nat)
    requires k <= |lines|
    ensures if k < |lines| then Offsets(lines)[k] == Start(lines, k) else |Flat(lines)| == Start(lines, k)
    decreases |lines|, k
  {
    if lines != [] {
      var init, last := lines[..|lines| - 1], lines[|lines| - 1];
      assert lines == init + [last];
      var j := if k < |init| then k else |init|;
      StartsAreOffsets(init, j);
      StartOfPrefix(init, [last], j);
    }
  }

  /** Line k stands in its place, or behind the last line the end mark does. */
  predicate InPlace(env: string, lines: seq<string>, k: nat)
    requires k <= |lines|
  {
    && Start(lines, k) < |env|
    && if k < |lines| then lines[k] != "" && LineAt(env, Start(lines, k), lines[k]) else env[Start(lines, k)] == NUL
  }

  /** The memory begins with these lines and the mark behind them. */
  predicate BeginsWith(env: string, lines: seq<string>) {
    forall k :: 0 <= k <= |lines| ==> InPlace(env, lines, k)
  }

  lemma {:induction false} BlockBegins(lines: seq<string>)
    requires AllLines(lines)
    ensures BeginsWith(Block(lines), lines)
  {
    forall k | 0 <= k <= |lines| ensures InPlace(Block(lines), lines, k) {
      StartsAreOffsets(lines, k);
      if k < |lines| {
        LineAtOffset(lines, k);
        LineStaysAt(Flat(lines), Start(lines, k), lines[k], [NUL]);
      }
    }
  }

  lemma {:induction false} FlatIsEmpty(lines: seq<string>)
    ensures Flat(lines) == "" <==> lines == []
  {
  }

  function TextOf(c: Change): string {
    if c.value != "" then c.key + "=" + c.value + [NUL] else ""
  }

  lemma {:induction false} AppendStep(kept: seq<string>, changes: seq<Change>, i: nat)
    requires i < |changes|
    ensures Flat(kept + Added(changes[..i + 1])) == Flat(kept + Added(changes[..i])) + TextOf(changes[i])
  {
    AddedNext(changes, i);
    var lines := kept + Added(changes[..i]);
    if changes[i].value != "" {
      var line := changes[i].key + "=" + changes[i].value;
      FlatNext(lines, line);
      assert lines + [line] == kept + Added(changes[..i + 1]);
    } else {
      assert Flat(lines) + "" == Flat(lines);
    }
  }

  method AppendChange(text: string, c: Change) returns (result: string)
    ensures result == text + TextOf(c)
  {
    result := text;
    if c.value != "" {
      result := result + c.key;
      result := result + "=";
      result := result + c.value;
      result := result + [NUL];
    }
  }

  /** The second loop of both versions, as far as the text goes. */
  method AppendChanges(text: string, changes: seq<Change>, ghost kept: seq<string>) returns (result: string)
    requires text == Flat(kept)
    ensures result == Flat(kept + Added(changes))
  {
    result := text;
    assert kept + Added([]) == kept;
    for i := 0 to |changes|
      invariant result == Flat(kept + Added(changes[..i]))
    {
      AppendStep(kept, changes, i);
      result := AppendChange(result, changes[i]);
    }
    assert changes[..|changes|] == changes;
  }

  /** One turn of the copying loop: how far the copy grows. */
  lemma {:induction false} CopyStep(lines: seq<string>, k: nat, changes: seq<Change>)
    requires k < |lines|
    ensures Flat(Kept(lines[..k + 1], changes)) == Flat(Kept(lines[..k], changes))
      + (if ChangeOf(changes, KeyOf(lines[k])).None? then lines[k] + [NUL] else "")
  {
    KeptNext(lines, k, changes);
    FlatNext(Kept(lines[..k], changes), lines[k]);
    assert Flat(Kept(lines[..k], changes)) + "" == Flat(Kept(lines[..k], changes));
  }

  lemma {:induction false} WholeLine(env: string, at: nat, line: string)
    requires LineAt(env, at, line)
    ensures env[at..at + |line| + 1] == line + [NUL] && (line != "" ==> env[at] != NUL)
  {
    if line != "" { assert env[at] == env[at..at + |line|][0]; }
  }

  /** One turn of the first loop: the line at curEnv is copied or not, and the next one is reached. */
  method CopyLine(
      env: string, curEnv: nat, changes: seq<Change>, copied: string, ghost lines: seq<string>, ghost k: nat)
    returns (result: string, next: nat)
    requires k < |lines| && InPlace(env, lines, k) && curEnv == Start(lines, k)
    requires copied == Flat(Kept(lines[..k], changes))
    ensures result == Flat(Kept(lines[..k + 1], changes)) && next == Start(lines, k + 1)
  {
    var key, lineLength := ParseEnvLine(env, curEnv, lines[k]);
    WholeLine(env, curEnv, lines[k]);
    CopyStep(lines, k, changes);
    result := copied;
    if ChangeOf(changes, key).None? {
      result := result + env[curEnv..curEnv + lineLength];
    }
    next := curEnv + lineLength;
  }

  lemma {:induction false} AtEndMark(env: string, lines: seq<string>, k: nat)
    requires k <= |lines| && InPlace(env, lines, k)
    ensures env[Start(lines, k)] == NUL <==> k == |lines|
  {
    if k < |lines| { WholeLine(env, Start(lines, k), lines[k]); }
  }

  /** The first loop. */
  method CopyUnmodified(env: string, changes: seq<Change>, ghost lines: seq<string>) returns (result: string)
    requires BeginsWith(env, lines)
    ensures result == Flat(Kept(lines, changes))
  {
    result := "";
    var curEnv := 0;
    ghost var k := 0;
    assert InPlace(env, lines, 0);
    AtEndMark(env, lines, 0);
    while env[curEnv] != NUL
      invariant k <= |lines| && curEnv == Start(lines, k) && InPlace(env, lines, k)
      invariant env[curEnv] == NUL <==> k == |lines|
      invariant result == Flat(Kept(lines[..k], changes))
      decreases |lines| - k
    {
      result, curEnv := CopyLine(env, curEnv, changes, result, lines, k);
      k := k + 1;
      assert InPlace(env, lines, k);
      AtEndMark(env, lines, k);
    }
    assert lines[..k] == lines;
  }

  method AlterEnvironmentBlock(env: string, changes: seq<Change>, ghost lines: seq<string>) returns (result: string)
    requires BeginsWith(env, lines)
    ensures result == Block(Altered(lines, changes))
  {
    result := CopyUnmodified(env, changes, lines);
    result := AppendChanges(result, changes, Kept(lines, changes));
    FlatIsEmpty(Altered(lines, changes));
    if result == "" {
      result := result + [NUL];
    }
    result := result + [NUL];
  }

  /** Where the text at this place ends. */
  function TextEnd(mem: string, at: nat): (end: nat)
    requires at <= |mem|
    ensures at <= end <= |mem| && (end < |mem| ==> mem[end] == NUL)
    ensures forall i :: at <= i < end ==> mem[i] != NUL
    decreases |mem| - at
  {
    if at == |mem| || mem[at] == NUL then at else TextEnd(mem, at + 1)
  }

  /** How such a block is read: line by line up to an empty one. */
  function LinesIn(mem: string, at: nat): seq<string>
    requires at <= |mem|
    decreases |mem| - at
  {
    var end := TextEnd(mem, at);
    if end == at || end == |mem| then [] else [mem[at..end]] + LinesIn(mem, end + 1)
  }

  lemma {:induction false} TextEndIs(mem: string, at: nat, line: string)
    requires LineAt(mem, at, line)
    ensures TextEnd(mem, at) == at + |line|
    decreases |line|
  {
    if line != "" {
      assert mem[at] == mem[at..at + |line|][0];
      assert mem[at + 1..at + 1 + |line[1..]|] == mem[at..at + |line|][1..];
      TextEndIs(mem, at + 1, line[1..]);
    }
  }

  lemma {:induction false} LinesNext(mem: string, at: nat, line: string)
    requires LineAt(mem, at, line) && line != ""
    ensures LinesIn(mem, at) == [line] + LinesIn(mem, at + |line| + 1)
  {
    TextEndIs(mem, at, line);
  }

  lemma {:induction false} LinesFrom(mem: string, lines: seq<string>, k: nat)
    requires BeginsWith(mem, lines) && k <= |lines| && Start(lines, k) <= |mem|
    ensures LinesIn(mem, Start(lines, k)) == lines[k..]
    decreases |lines| - k
  {
    assert InPlace(mem, lines, k);
    if k < |lines| {
      LinesNext(mem, Start(lines, k), lines[k]);
      LinesFrom(mem, lines, k + 1);
    }
  }

  /** A block is read back as exactly its lines. */
  lemma {:induction false} BlockIsReadBack(lines: seq<string>)
    requires AllLines(lines)
    ensures LinesIn(Block(lines), 0) == lines
  {
    BlockBegins(lines);
    LinesFrom(Block(lines), lines, 0);
    assert lines[0..] == lines;
  }

  lemma {:induction false} KeptAreLines(lines: seq<string>, changes: seq<Change>)
    requires AllLines(lines)
    ensures AllLines(Kept(lines, changes))
    decreases |lines|
  {
    if lines != [] { KeptAreLines(lines[..|lines| - 1], changes); }
  }

  lemma {:induction false} AddedAreLines(changes: seq<Change>)
    requires Clean(changes)
    ensures AllLines(Added(changes))
    decreases |changes|
  {
    if changes != [] { AddedAreLines(changes[..|changes| - 1]); }
  }

  /** What the Windows version returns is read as the altered lines, whatever they are. */
  lemma {:induction false} AlteredBlockIsReadBack(lines: seq<string>, changes: seq<Change>)
    requires AllLines(lines) && Clean(changes)
    ensures LinesIn(Block(Altered(lines, changes)), 0) == Altered(lines, changes)
  {
    KeptAreLines(lines, changes);
    AddedAreLines(changes);
    BlockIsReadBack(Altered(lines, changes));
  }

  // ---------------------------------------------------------------- the POSIX version

  const POINTER_SIZE := 8

  /**
    The block the function returns: words machine words, of which the first ones hold the pointers and the rest the
    text. A pointer is the distance of its target from the start of the block; None is the null pointer.
  */
  datatype PointerBlock = PointerBlock(words: nat, pointers: array<Option<nat>>, storage: string)

  /** The lines' text behind a pointer to the start of each line and a null pointer; all of it inside the block. */
  ghost predicate LaidOut(b: PointerBlock, lines: seq<string>)
    reads b.pointers
  {
    var text := POINTER_SIZE * b.pointers.Length;
    && b.storage == Flat(lines) && text + |b.storage| <= POINTER_SIZE * b.words
    && b.pointers.Length == |lines| + 1 && b.pointers[|lines|] == None
    && forall i :: 0 <= i < |lines| ==> b.pointers[i] == Some(text + Offsets(lines)[i])
  }

  /** Following the pointers one finds exactly these lines, in order, and then a null pointer. */
  ghost predicate Holds(b: PointerBlock, lines: seq<string>)
    reads b.pointers
  {
    var text := POINTER_SIZE * b.pointers.Length;
    && text + |b.storage| <= POINTER_SIZE * b.words
    && b.pointers.Length == |lines| + 1 && b.pointers[|lines|] == None
    && forall i :: 0 <= i < |lines| ==>
      b.pointers[i].Some? && text <= b.pointers[i].value && LineAt(b.storage, b.pointers[i].value - text, lines[i])
  }

  /** One turn of the first loop: a line that no change is about is kept. */
  method CollectLine(line: string, changes: seq<Change>, storage: string, indices: seq<nat>, ghost kept: seq<string>)
    returns (storage': string, indices': seq<nat>)
    requires Without(NUL, line) && storage == Flat(kept) && indices == Offsets(kept)
    ensures var all := if ChangeOf(changes, KeyOf(line)).None? then kept + [line] else kept;
      storage' == Flat(all) && indices' == Offsets(all)
  {
    var mem := line + [NUL];
    var key, lineLength := ParseEnvLine(mem, 0, line);
    FlatNext(kept, line);
    storage', indices' := storage, indices;
    if ChangeOf(changes, key).None? {
      indices' := indices + [|storage|];
      storage' := storage + mem[..lineLength];
    }
  }

  /** The first loop: the text of the kept lines, and where each of them starts. */
  method CollectUnmodified(env: seq<string>, changes: seq<Change>) returns (storage: string, indices: seq<nat>)
    requires forall i :: 0 <= i < |env| ==> Without(NUL, env[i])
    ensures storage == Flat(Kept(env, changes)) && indices == Offsets(Kept(env, changes))
  {
    storage, indices := "", [];
    var i := 0;
    while i < |env|
      invariant i <= |env| && storage == Flat(Kept(env[..i], changes)) && indices == Offsets(Kept(env[..i], changes))
    {
      storage, indices := CollectLine(env[i], changes, storage, indices, Kept(env[..i], changes));
      KeptNext(env, i, changes);
      i := i + 1;
    }
    assert env[..i] == env;
  }

  /** The last loop. */
  method FillPointers(storageData: nat, indices: seq<nat>) returns (pointers: array<Option<nat>>)
    ensures fresh(pointers) && pointers.Length == |indices| + 1 && pointers[|indices|] == None
    ensures forall i :: 0 <= i < |indices| ==> pointers[i] == Some(storageData + indices[i])
  {
    pointers := new Option<nat>[|indices| + 1];
    for i := 0 to |indices|
      invariant forall j :: 0 <= j < i ==> pointers[j] == Some(storageData + indices[j])
    {
      pointers[i] := Some(storageData + indices[i]);
    }
    pointers[|indices|] := None;
  }

  method AlterEnvironment(env: seq<string>, changes: seq<Change>) returns (result: PointerBlock)
    requires forall i :: 0 <= i < |env| ==> Without(NUL, env[i])
    ensures fresh(result.pointers) && LaidOut(result, Altered(env, changes))
  {
    var valueStorage, resultIndices := CollectUnmodified(env, changes);
    valueStorage, resultIndices := AppendAll(valueStorage, resultIndices, changes, Kept(env, changes));
    var n := |resultIndices|;
    var pointerCountRequired := n + 1 + (|valueStorage| + POINTER_SIZE - 1) / POINTER_SIZE;
    var pointers := FillPointers(POINTER_SIZE * (n + 1), resultIndices);
    result := PointerBlock(pointerCountRequired, pointers, valueStorage);
  }

  /** What the POSIX version returns is found, pointer by pointer, to be the altered lines. */
  lemma {:induction false} AlteredLinesAreFound(b: PointerBlock, env: seq<string>, changes: seq<Change>)
    requires Clean(changes) && forall i :: 0 <= i < |env| ==> Without(NUL, env[i])
    requires LaidOut(b, Altered(env, changes))
    ensures Holds(b, Altered(env, changes))
  {
    AlteredAreNulFree(env, changes);
    LaidOutHolds(b, Altered(env, changes));
  }

  lemma {:induction false} LaidOutHolds(b: PointerBlock, lines: seq<string>)
    requires LaidOut(b, lines) && forall i :: 0 <= i < |lines| ==> Without(NUL, lines[i])
    ensures Holds(b, lines)
  {
    forall i | 0 <= i < |lines| ensures LineAt(Flat(lines), Offsets(lines)[i], lines[i]) {
      LineAtOffset(lines, i);
    }
  }

  lemma {:induction false} AlteredAreNulFree(env: seq<string>, changes: seq<Change>)
    requires Clean(changes) && forall i :: 0 <= i < |env| ==> Without(NUL, env[i])
    ensures forall i :: 0 <= i < |Altered(env, changes)| ==> Without(NUL, Altered(env, changes)[i])
  {
    AddedAreLines(changes);
    KeptAreNulFree(env, changes);
  }

  lemma {:induction false} KeptAreNulFree(lines: seq<string>, changes: seq<Change>)
    requires forall i :: 0 <= i < |lines| ==> Without(NUL, lines[i])
    ensures forall i :: 0 <= i < |Kept(lines, changes)| ==> Without(NUL, Kept(lines, changes)[i])
    decreases |lines|
  {
    if lines != [] { KeptAreNulFree(lines[..|lines| - 1], changes); }
  }

  /** The second loop, with the indices. */
  method AppendAll(text: string, indices: seq<nat>, changes: seq<Change>, ghost kept: seq<string>)
    returns (storage: string, offsets: seq<nat>)
    requires text == Flat(kept) && indices == Offsets(kept)
    ensures storage == Flat(kept + Added(changes)) && offsets == Offsets(kept + Added(changes))
  {
    storage, offsets := text, indices;
    assert kept + Added([]) == kept;
    for i := 0 to |changes|
      invariant storage == Flat(kept + Added(changes[..i])) && offsets == Offsets(kept + Added(changes[..i]))
    {
      AppendStep(kept, changes, i);
      OffsetStep(kept, changes, i);
      if changes[i].value != "" {
        offsets := offsets + [|storage|];
      }
      storage := AppendChange(storage, changes[i]);
    }
    assert changes[..|changes|] == changes;
  }

  lemma {:induction false} OffsetStep(kept: seq<string>, changes: seq<Change>, i: nat)
    requires i < |changes|
    ensures Offsets(kept + Added(changes[..i + 1])) == Offsets(kept + Added(changes[..i]))
      + (if changes[i].value != "" then [|Flat(kept + Added(changes[..i]))|] else [])
  {
    AddedNext(changes, i);
    var lines := kept + Added(changes[..i]);
    if changes[i].value != "" {
      var line := changes[i].key + "=" + changes[i].value;
      FlatNext(lines, line);
      assert lines + [line] == kept + Added(changes[..i + 1]);
    } else {
      assert Offsets(lines) + [] == Offsets(lines);
    }
  }
}