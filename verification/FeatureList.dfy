/**
  The override table of src/base/feature_list.cc: how it is printed as two lists and parsed from them. Field trials are
  looked up by name through a function the caller supplies; a trial is known by its name and its address.
*/
module FeatureLists {
  import opened Options
  import opened StringUtil

  datatype OverrideState = UseDefault | DisableFeature | EnableFeature

  datatype Trial = Trial(name: string, address: nat)

  datatype Entry = Entry(state: OverrideState, trial: Option<Trial>, byTrial: bool)

  type Overrides = map<string, Entry>

  type Finder = string -> Option<Trial>

  // ---------------------------------------------------------------- lists of names

  /** Names joined by commas. */
  function Joined(items: seq<string>): string {
    if items == [] then "" else if |items| == 1 then items[0] else items[0] + "," + Joined(items[1..])
  }

  /** SplitString(input, ",", TRIM_WHITESPACE, SPLIT_WANT_NONEMPTY). */
  function Split(s: string): seq<string>
    decreases |s|
  {
    var comma := Find(s, ',');
    var piece := Trim(if comma.None? then s else s[..comma.value]);
    (if piece == "" then [] else [piece]) + (if comma.None? then [] else Split(s[comma.value + 1..]))
  }

  predicate FineItem(item: string) {
    item != "" && Trimmed(item) && Without(',', item)
  }

  lemma {:induction false} SplitFirst(item: string, rest: string)
    requires FineItem(item)
    ensures Split(item) == [item] && Split(item + "," + rest) == [item] + Split(rest)
  {
    var s := item + "," + rest;
    FoundAt(s, ',', |item|);
    assert s[..|item|] == item && s[|item| + 1..] == rest;
    assert Find(item, ',') == None;
  }

  /** Splitting undoes joining. */
  lemma {:induction false} SplitJoined(items: seq<string>)
    requires forall i :: 0 <= i < |items| ==> FineItem(items[i])
    ensures Split(Joined(items)) == items
    decreases |items|
  {
    if items == [] {
      assert Trim("") == "" && Find("", ',') == None;
    } else {
      SplitFirst(items[0], Joined(items[1..]));
      SplitJoined(items[1..]);
      assert items == [items[0]] + items[1..];
    }
  }

  lemma {:induction false} JoinedNext(items: seq<string>, item: string)
    ensures Joined(items + [item]) == if items == [] then item else Joined(items) + "," + item
    decreases |items|
  {
    var all := items + [item];
    if items != [] {
      assert all[1..] == items[1..] + [item];
      JoinedNext(items[1..], item);
      if |items| > 1 {
        assert items[0] + "," + (Joined(items[1..]) + "," + item) == (items[0] + "," + Joined(items[1..])) + "," + item;
      } else {
        assert items[1..] == [];
      }
    }
  }

  /** What appending the items one after the other gives; the comma depends on whether the list is still empty. */
  function Printed(items: seq<string>): string {
    if items == [] then ""
    else
      var list := Printed(items[..|items| - 1]);
      (if list == "" then "" else list + ",") + items[|items| - 1]
  }

  /** As long as no item is empty, that is joining. */
  lemma {:induction false} PrintedIsJoined(items: seq<string>)
    requires forall i :: 0 <= i < |items| ==> items[i] != ""
    ensures Printed(items) == Joined(items) && (items != [] ==> Printed(items) != "")
    decreases |items|
  {
    if items != [] {
      var init, last := items[..|items| - 1], items[|items| - 1];
      assert items == init + [last];
      PrintedIsJoined(init);
      JoinedNext(init, last);
      assert "" + last == last;
    }
  }

  // ---------------------------------------------------------------- printing

  function HeadOf(name: string, state: OverrideState): string {
    (if state == UseDefault then "*" else "") + name
  }

  function ItemOf(name: string, e: Entry): string {
    HeadOf(name, e.state) + (if e.trial.Some? then "<" + e.trial.value.name else "")
  }

  /** Whether an override is printed in the list of disabled features, and not in the one of enabled features. */
  predicate Listed(e: Entry, disabled: bool) {
    (e.state == DisableFeature) == disabled
  }

  /** The items of one list, in the order in which the table is walked through. */
  function Items(order: seq<string>, table: Overrides, disabled: bool): seq<string>
    requires forall i :: 0 <= i < |order| ==> order[i] in table
  {
    if order == [] then []
    else
      var name := order[|order| - 1];
      Items(order[..|order| - 1], table, disabled)
        + (if Listed(table[name], disabled) then [ItemOf(name, table[name])] else [])
  }

  // ---------------------------------------------------------------- parsing

  function Registered(table: Overrides, name: string, state: OverrideState, trial: Option<Trial>): Overrides {
    var star := "*" <= name;
    var key := if star then name[1..] else name;
    if key in table then table else table[key := Entry(if star then UseDefault else state, trial, trial.Some?)]
  }

  function RegisteredItem(table: Overrides, item: string, state: OverrideState, find: Finder): Overrides {
    var pos := Find(item, '<');
    if pos.None? then Registered(table, item, state, None)
    else Registered(table, item[..pos.value], state, find(item[pos.value + 1..]))
  }

  function RegisteredAll(table: Overrides, items: seq<string>, state: OverrideState, find: Finder): Overrides {
    if items == [] then table
    else RegisteredItem(RegisteredAll(table, items[..|items| - 1], state, find), items[|items| - 1], state, find)
  }

  /** Disabled features come first, and the first registration of a name counts. */
  function Parsed(enable: string, disable: string, find: Finder): Overrides {
    RegisteredAll(RegisteredAll(map[], Split(disable), DisableFeature, find), Split(enable), EnableFeature, find)
  }

  /** Later registrations change no entry. */
  lemma {:induction false} FirstRegistrationCounts(
      table: Overrides, items: seq<string>, state: OverrideState, find: Finder, name: string)
    requires name in table
    ensures name in RegisteredAll(table, items, state, find)
      && RegisteredAll(table, items, state, find)[name] == table[name]
    decreases |items|
  {
    if items != [] { FirstRegistrationCounts(table, items[..|items| - 1], state, find, name); }
  }

  /** A feature in both lists is what the list of disabled features makes of it. */
  lemma {:induction false} DisabledTakesPrecedence(enable: string, disable: string, find: Finder, name: string)
    requires name in Parsed("", disable, find)
    ensures name in Parsed(enable, disable, find)
      && Parsed(enable, disable, find)[name] == Parsed("", disable, find)[name]
  {
    assert Trim("") == "" && Find("", ',') == None;
    FirstRegistrationCounts(
      RegisteredAll(map[], Split(disable), DisableFeature, find), Split(enable), EnableFeature, find, name);
  }

  // ---------------------------------------------------------------- what can be printed and parsed again

  /** A name that is not empty, has no white space around it and none of the reserved characters. */
  predicate FineName(name: string) {
    name != "" && Trimmed(name) && Without(',', name) && Without('<', name) && Without('*', name)
  }

  predicate FineEntry(name: string, e: Entry, find: Finder) {
    FineName(name) && (e.trial.Some? ==> FineName(e.trial.value.name) && find(e.trial.value.name) == e.trial)
  }

  predicate FineTable(table: Overrides, find: Finder) {
    forall name :: name in table ==> FineEntry(name, table[name], find)
  }

  lemma {:induction false} ItemIsFine(name: string, e: Entry, find: Finder)
    requires FineEntry(name, e, find)
    ensures FineItem(ItemOf(name, e))
  {
    var item := ItemOf(name, e);
    var head := HeadOf(name, e.state);
    assert item[0] == head[0] && !White(item[0]);
    if e.trial.Some? {
      var t := e.trial.value.name;
      assert item == head + ("<" + t) && item[|item| - 1] == t[|t| - 1];
    } else {
      assert item == head && item[|item| - 1] == name[|name| - 1];
    }
  }

  /** What parsing makes of an entry: whether the trial decided the state is no longer known. */
  function Reparsed(e: Entry): Entry {
    Entry(e.state, e.trial, e.trial.Some?)
  }

  function StateOf(disabled: bool): OverrideState {
    if disabled then DisableFeature else EnableFeature
  }

  lemma {:induction false} HeadIsParsed(table: Overrides, name: string, e: Entry, disabled: bool)
    requires FineName(name) && name !in table && Listed(e, disabled)
    ensures Registered(table, HeadOf(name, e.state), StateOf(disabled), e.trial) == table[name := Reparsed(e)]
    ensures Without('<', HeadOf(name, e.state))
  {
    var head := HeadOf(name, e.state);
    if e.state == UseDefault {
      assert "*" <= head && head[1..] == name;
    } else {
      assert head == name && !("*" <= name);
    }
  }

  lemma {:induction false} ItemIsCut(head: string, trial: string)
    requires Without('<', head)
    ensures Find(head + ("<" + trial), '<') == Some(|head|) && Find(head, '<') == None
    ensures (head + ("<" + trial))[..|head|] == head && (head + ("<" + trial))[|head| + 1..] == trial
  {
    FoundAt(head + ("<" + trial), '<', |head|);
  }

  /** Printing and parsing one entry. */
  lemma {:induction false} ItemIsParsed(table: Overrides, name: string, e: Entry, disabled: bool, find: Finder)
    requires FineEntry(name, e, find) && name !in table && Listed(e, disabled)
    ensures RegisteredItem(table, ItemOf(name, e), StateOf(disabled), find) == table[name := Reparsed(e)]
  {
    HeadIsParsed(table, name, e, disabled);
    var head := HeadOf(name, e.state);
    ItemIsCut(head, if e.trial.Some? then e.trial.value.name else "");
    if e.trial.None? { assert head + "" == head; }
  }

  predicate Distinct(order: seq<string>) {
    forall i, j :: 0 <= i < j < |order| ==> order[i] != order[j]
  }

  lemma {:induction false} ItemsAreFine(order: seq<string>, table: Overrides, disabled: bool, find: Finder)
    requires FineTable(table, find) && forall i :: 0 <= i < |order| ==> order[i] in table
    ensures forall i :: 0 <= i < |Items(order, table, disabled)| ==> FineItem(Items(order, table, disabled)[i])
  {
    if order != [] {
      var name := order[|order| - 1];
      ItemsAreFine(order[..|order| - 1], table, disabled, find);
      ItemIsFine(name, table[name], find);
    }
  }

  function Get(table: Overrides, name: string): Option<Entry> {
    if name in table then Some(table[name]) else None
  }

  lemma {:induction false} LastItemIsParsed(
      before: Overrides, items: seq<string>, name: string, e: Entry, disabled: bool, find: Finder)
    requires FineEntry(name, e, find) && Listed(e, disabled)
    requires name !in RegisteredAll(before, items, StateOf(disabled), find)
    ensures RegisteredAll(before, items + [ItemOf(name, e)], StateOf(disabled), find)
      == RegisteredAll(before, items, StateOf(disabled), find)[name := Reparsed(e)]
  {
    assert (items + [ItemOf(name, e)])[..|items|] == items;
    ItemIsParsed(RegisteredAll(before, items, StateOf(disabled), find), name, e, disabled, find);
  }

  lemma {:induction false} ItemsOfLast(init: seq<string>, last: string, table: Overrides, disabled: bool)
    requires last in table && forall i :: 0 <= i < |init| ==> init[i] in table
    ensures Items(init + [last], table, disabled) == Items(init, table, disabled)
      + (if Listed(table[last], disabled) then [ItemOf(last, table[last])] else [])
  {
    assert (init + [last])[..|init|] == init;
  }

  /** Parsing one printed list adds exactly its entries. */
  lemma {:induction false} ItemsAreParsed(
      before: Overrides, order: seq<string>, table: Overrides, disabled: bool, find: Finder, name: string)
    requires FineTable(table, find) && Distinct(order) && forall i :: 0 <= i < |order| ==> order[i] in table
    requires forall i :: 0 <= i < |order| && Listed(table[order[i]], disabled) ==> order[i] !in before
    ensures Get(RegisteredAll(before, Items(order, table, disabled), StateOf(disabled), find), name)
      == if name in order && Listed(table[name], disabled) then Some(Reparsed(table[name])) else Get(before, name)
    decreases |order|
  {
    if order != [] {
      var init, last := order[..|order| - 1], order[|order| - 1];
      assert order == init + [last];
      ItemsAreParsed(before, init, table, disabled, find, name);
      ItemsOfLast(init, last, table, disabled);
      var items := Items(init, table, disabled);
      if Listed(table[last], disabled) {
        ItemsAreParsed(before, init, table, disabled, find, last);
        LastItemIsParsed(before, items, last, table[last], disabled, find);
      } else {
        assert items + [] == items;
      }
    }
  }

  function Restored(table: Overrides): Overrides {
    map name | name in table :: Reparsed(table[name])
  }

  lemma {:induction false} RestoredIsSame(table: Overrides)
    ensures Restored(table) == table
      <==> forall name :: name in table ==> table[name].byTrial == table[name].trial.Some?
  {
    var again := Restored(table);
    if again == table {
      forall name | name in table ensures table[name].byTrial == table[name].trial.Some? {
        assert again[name] == table[name];
      }
    } else if forall name :: name in table ==> table[name].byTrial == table[name].trial.Some? {
      SameTables(again, table);
    }
  }

  lemma {:induction false} BothListsAreParsed(table: Overrides, order: seq<string>, find: Finder)
    requires FineTable(table, find) && Distinct(order) && forall name :: name in order <==> name in table
    ensures RegisteredAll(RegisteredAll(map[], Items(order, table, true), DisableFeature, find),
                          Items(order, table, false), EnableFeature, find) == Restored(table)
  {
    var disabled := RegisteredAll(map[], Items(order, table, true), DisableFeature, find);
    var all := RegisteredAll(disabled, Items(order, table, false), EnableFeature, find);
    forall i | 0 <= i < |order| && Listed(table[order[i]], false) ensures order[i] !in disabled {
      ItemsAreParsed(map[], order, table, true, find, order[i]);
      assert Get(disabled, order[i]) == None;
    }
    forall name ensures Get(all, name) == Get(Restored(table), name) {
      ItemsAreParsed(map[], order, table, true, find, name);
      ItemsAreParsed(disabled, order, table, false, find, name);
    }
    SameTables(all, Restored(table));
  }

  /** What the two printed lists are parsed to: each feature with its state and its trial, and no other. */
  lemma {:induction false} RoundTrip(table: Overrides, order: seq<string>, find: Finder)
    requires FineTable(table, find) && Distinct(order) && forall name :: name in order <==> name in table
    ensures Parsed(Printed(Items(order, table, false)), Printed(Items(order, table, true)), find) == Restored(table)
  {
    ItemsAreFine(order, table, false, find);
    ItemsAreFine(order, table, true, find);
    PrintedIsJoined(Items(order, table, false));
    PrintedIsJoined(Items(order, table, true));
    SplitJoined(Items(order, table, false));
    SplitJoined(Items(order, table, true));
    BothListsAreParsed(table, order, find);
  }

  lemma {:induction false} SameTables(x: Overrides, y: Overrides)
    requires forall name :: Get(x, name) == Get(y, name)
    ensures x == y
  {
    forall name ensures name in x <==> name in y && (name in x ==> x[name] == y[name]) {
      assert Get(x, name) == Get(y, name);
    }
  }

  /** The table comes back as it was exactly when no state from the command line was given a trial to report. */
  lemma {:induction false} RoundTripIsExact(table: Overrides, order: seq<string>, find: Finder)
    requires FineTable(table, find) && Distinct(order) && forall name :: name in order <==> name in table
    ensures Parsed(Printed(Items(order, table, false)), Printed(Items(order, table, true)), find) == table
      <==> forall name :: name in table ==> table[name].byTrial == table[name].trial.Some?
  {
    RoundTrip(table, order, find);
    RestoredIsSame(table);
  }

  // ---------------------------------------------------------------- the mutable table

  /** What is still to be split. */
  function SplitFrom(input: string, start: Option<nat>): seq<string>
    requires start.Some? ==> start.value <= |input|
  {
    if start.None? then [] else Split(input[start.value..])
  }

  function Piece(piece: string): seq<string> {
    if piece == "" then [] else [piece]
  }

  /** One turn of the splitting loop: a piece, and where the next one starts. */
  method NextPiece(input: string, start: nat) returns (piece: string, next: Option<nat>)
    requires start <= |input|
    ensures next.Some? ==> start < next.value <= |input|
    ensures SplitFrom(input, Some(start)) == Piece(piece) + SplitFrom(input, next)
  {
    var end := Find(input[start..], ',');
    if end.None? {
      piece := input[start..];
      next := None;
    } else {
      piece := input[start..start + end.value];
      next := Some(start + end.value + 1);
      assert input[start..][..end.value] == piece && input[start..][end.value + 1..] == input[next.value..];
    }
    piece := Trim(piece);
  }

  lemma {:induction false} SplitAll(input: string)
    ensures SplitFrom(input, Some(0)) == Split(input) && (input == "" ==> Split(input) == [])
  {
    assert input[0..] == input;
    assert Trim("") == "" && Find("", ',') == None;
  }

  lemma {:induction false} Gathered(result: seq<string>, piece: string, more: seq<string>)
    ensures (if piece == "" then result else result + [piece]) + more == result + (Piece(piece) + more)
  {
  }

  method SplitFeatureListString(input: string) returns (result: seq<string>)
    ensures result == Split(input)
  {
    result := [];
    SplitAll(input);
    if input == "" {
      return;
    }
    var start := Some(0);
    ghost var all, rest := Split(input), Split(input);
    while start != None
      invariant start.Some? ==> start.value <= |input|
      invariant rest == SplitFrom(input, start) && result + rest == all
      decreases if start.Some? then |input| + 1 - start.value else 0
    {
      var piece;
      piece, start := NextPiece(input, start.value);
      rest := SplitFrom(input, start);
      Gathered(result, piece, rest);
      if piece != "" {
        result := result + [piece];
      }
    }
  }

  class FeatureList {
    var overrides: Overrides
    var initialized: bool

    constructor ()
      ensures overrides == map[] && !initialized
    {
      overrides := map[];
      initialized := false;
    }

    /** insert: an entry that is there stays as it is. */
    method RegisterOverride(featureName: string, overriddenState: OverrideState, fieldTrial: Option<Trial>)
      requires !initialized
      modifies this`overrides
      ensures overrides == Registered(old(overrides), featureName, overriddenState, fieldTrial)
    {
      var name, state := featureName, overriddenState;
      if "*" <= name {
        name := name[1..];
        state := UseDefault;
      }
      if name !in overrides {
        overrides := overrides[name := Entry(state, fieldTrial, fieldTrial.Some?)];
      }
    }

    /** One turn of the loop below: an item with or without the name of a trial. */
    method RegisterItem(value: string, overriddenState: OverrideState, find: Finder)
      requires !initialized
      modifies this`overrides
      ensures overrides == RegisteredItem(old(overrides), value, overriddenState, find)
    {
      var featureName, trial := value, None;
      var pos := Find(featureName, '<');
      if pos.Some? {
        featureName := value[..pos.value];
        trial := find(value[pos.value + 1..]);
      }
      RegisterOverride(featureName, overriddenState, trial);
    }

    method RegisterOverridesFromCommandLine(featureList: string, overriddenState: OverrideState, find: Finder)
      requires !initialized
      modifies this`overrides
      ensures overrides == RegisteredAll(old(overrides), Split(featureList), overriddenState, find)
    {
      var values := SplitFeatureListString(featureList);
      for i := 0 to |values|
        invariant overrides == RegisteredAll(old(overrides), values[..i], overriddenState, find)
      {
        RegisteredNext(old(overrides), values, i, overriddenState, find);
        RegisterItem(values[i], overriddenState, find);
      }
      assert values[..|values|] == values;
    }

    method InitializeFromCommandLine(enableFeatures: string, disableFeatures: string, find: Finder)
      requires !initialized
      modifies this`overrides
      ensures overrides == RegisteredAll(RegisteredAll(old(overrides), Split(disableFeatures), DisableFeature, find),
                                         Split(enableFeatures), EnableFeature, find)
      ensures old(overrides) == map[] ==> overrides == Parsed(enableFeatures, disableFeatures, find)
    {
      RegisterOverridesFromCommandLine(disableFeatures, DisableFeature, find);
      RegisterOverridesFromCommandLine(enableFeatures, EnableFeature, find);
    }

    /** Gives a state that came from the command line a trial to report. */
    method AssociateReportingFieldTrial(featureName: string, forOverriddenState: OverrideState, fieldTrial: Trial)
      requires featureName in overrides
      requires overrides[featureName].state == forOverriddenState && !overrides[featureName].byTrial
      modifies this`overrides
      ensures overrides == if old(overrides)[featureName].trial.Some? then old(overrides)
        else old(overrides)[featureName := Entry(forOverriddenState, Some(fieldTrial), false)]
    {
      if overrides[featureName].trial.Some? { return; }
      overrides := overrides[featureName := overrides[featureName].(trial := Some(fieldTrial))];
    }

    method FinalizeInitialization()
      requires !initialized
      modifies this`initialized
      ensures initialized
    {
      initialized := true;
    }

    /** The table is walked through in the given order; that of a std::map is the alphabetical one. */
    method GetFeatureOverrides(order: seq<string>) returns (enableOverrides: string, disableOverrides: string)
      requires initialized && forall i :: 0 <= i < |order| ==> order[i] in overrides
      ensures enableOverrides == Printed(Items(order, overrides, false))
      ensures disableOverrides == Printed(Items(order, overrides, true))
    {
      enableOverrides, disableOverrides := "", "";
      for i := 0 to |order|
        invariant enableOverrides == Printed(Items(order[..i], overrides, false))
        invariant disableOverrides == Printed(Items(order[..i], overrides, true))
      {
        assert order[..i + 1] == order[..i] + [order[i]];
        enableOverrides, disableOverrides :=
          AppendToOne(enableOverrides, disableOverrides, order[i], overrides, order[..i]);
      }
      assert order[..|order|] == order;
    }
  }

  /** One turn of the loop: the entry goes to one of the lists. */
  method AppendToOne(enable: string, disable: string, name: string, table: Overrides, ghost before: seq<string>)
    returns (enabled: string, disabled: string)
    requires name in table && forall i :: 0 <= i < |before| ==> before[i] in table
    requires enable == Printed(Items(before, table, false)) && disable == Printed(Items(before, table, true))
    ensures enabled == Printed(Items(before + [name], table, false))
    ensures disabled == Printed(Items(before + [name], table, true))
  {
    ItemsOfLast(before, name, table, false);
    ItemsOfLast(before, name, table, true);
    enabled, disabled := enable, disable;
    if table[name].state == DisableFeature {
      assert Items(before, table, false) + [] == Items(before, table, false);
      disabled := AppendOverride(disable, name, table[name], Items(before, table, true));
    } else {
      assert Items(before, table, true) + [] == Items(before, table, true);
      enabled := AppendOverride(enable, name, table[name], Items(before, table, false));
    }
  }

  lemma {:induction false} RegisteredNext(
      table: Overrides, items: seq<string>, k: nat, state: OverrideState, find: Finder)
    requires k < |items|
    ensures RegisteredAll(table, items[..k + 1], state, find)
      == RegisteredItem(RegisteredAll(table, items[..k], state, find), items[k], state, find)
  {
    assert items[..k + 1][..k] == items[..k];
  }

  /** The part of the loop that writes to one of the lists. */
  method AppendOverride(list: string, name: string, e: Entry, ghost items: seq<string>) returns (target: string)
    requires list == Printed(items)
    ensures target == Printed(items + [ItemOf(name, e)])
  {
    assert (items + [ItemOf(name, e)])[..|items|] == items;
    target := list;
    if target != "" {
      target := target + ",";
    }
    ghost var start := target;
    if e.state == UseDefault {
      target := target + "*";
    }
    target := target + name;
    assert target == start + HeadOf(name, e.state);
    if e.trial.Some? {
      target := target + "<";
      target := target + e.trial.value.name;
    }
    assert target == start + ItemOf(name, e);
  }

  /** A browser process ends its set-up and hands its overrides to a child process in two command-line switches. */
  method HandedOn(browser: FeatureList, order: seq<string>, find: Finder) returns (child: FeatureList)
    requires !browser.initialized && FineTable(browser.overrides, find)
    requires Distinct(order) && forall name :: name in order <==> name in browser.overrides
    modifies browser`initialized
    ensures fresh(child) && child.initialized && child.overrides == Restored(browser.overrides)
  {
    browser.FinalizeInitialization();
    var enable, disable := browser.GetFeatureOverrides(order);
    child := new FeatureList();
    child.InitializeFromCommandLine(enable, disable, find);
    child.FinalizeInitialization();
    RoundTrip(browser.overrides, order, find);
  }

  /** A feature from the command line with a trial to report: the child takes the trial for what decided it. */
  method ReportedTrialDecides(find: Finder, trial: Trial) returns (browser: FeatureList, child: FeatureList)
    requires trial.name == "t" && find("t") == Some(trial)
    ensures browser.overrides == map["a" := Entry(EnableFeature, Some(trial), false)]
    ensures child.overrides == map["a" := Entry(EnableFeature, Some(trial), true)]
  {
    browser := new FeatureList();
    OneFeatureIsParsed(find);
    browser.InitializeFromCommandLine("a", "", find);
    browser.AssociateReportingFieldTrial("a", EnableFeature, trial);
    child := HandedOn(browser, ["a"], find);
  }

  lemma {:induction false} OneFeatureIsParsed(find: Finder)
    ensures Parsed("a", "", find) == map["a" := Entry(EnableFeature, None, false)]
  {
    SplitJoined(["a"]);
    SplitJoined([]);
    assert ["a"][..0] == [];
    ItemIsParsed(map[], "a", Entry(EnableFeature, None, false), false, find);
    assert ItemOf("a", Entry(EnableFeature, None, false)) == "a";
    assert RegisteredAll(map[], [], EnableFeature, find) == map[];
  }

  // ---------------------------------------------------------------- which list a feature is printed in

  /** The name in a printed item. */
  function NameIn(item: string): string {
    var text := if "*" <= item then item[1..] else item;
    var at := Find(text, '<');
    if at.None? then text else text[..at.value]
  }

  lemma {:induction false} NameOfItem(name: string, e: Entry)
    requires FineName(name)
    ensures NameIn(ItemOf(name, e)) == name
  {
    var tail := if e.trial.Some? then "<" + e.trial.value.name else "";
    var text := name + tail;
    assert ItemOf(name, e) == if e.state == UseDefault then "*" + text else text;
    assert e.state == UseDefault ==> ("*" + text)[1..] == text;
    assert text[0] == name[0] && name[0] != '*';
    if e.trial.Some? {
      FoundAt(text, '<', |name|);
      assert text[..|name|] == name;
    } else {
      assert text == name && Find(name, '<') == None;
    }
  }

  lemma {:induction false} ListedIf(order: seq<string>, table: Overrides, disabled: bool, name: string)
    requires (forall i :: 0 <= i < |order| ==> order[i] in table) && forall n :: n in table ==> FineName(n)
    requires name in table
    ensures ItemOf(name, table[name]) in Items(order, table, disabled)
      <==> name in order && (disabled <==> table[name].state == DisableFeature)
  {
    if order != [] {
      var init, last := order[..|order| - 1], order[|order| - 1];
      ListedIf(init, table, disabled, name);
      assert order == init + [last];
      NameOfItem(name, table[name]);
      NameOfItem(last, table[last]);
    }
  }

  /** A feature is in the list of disabled ones exactly if its state says so; all others are in the other list. */
  lemma {:induction false} WhereListed(order: seq<string>, table: Overrides, name: string, find: Finder)
    requires FineTable(table, find) && name in table && forall n :: n in order <==> n in table
    ensures ItemOf(name, table[name]) in Items(order, table, true) <==> table[name].state == DisableFeature
    ensures ItemOf(name, table[name]) in Items(order, table, false)
      <==> table[name].state == EnableFeature || table[name].state == UseDefault
  {
    ListedIf(order, table, true, name);
    ListedIf(order, table, false, name);
  }

  /** The item of one feature, if it is in the list. */
  function ItemIn(name: string, table: Overrides, disabled: bool): seq<string>
    requires name in table
  {
    if (table[name].state == DisableFeature) == disabled then [ItemOf(name, table[name])] else []
  }

  lemma {:induction false} FourItems(a: string, b: string, c: string, d: string, table: Overrides, disabled: bool)
    requires a in table && b in table && c in table && d in table
    ensures Items([a, b, c, d], table, disabled) ==
      ItemIn(a, table, disabled) + ItemIn(b, table, disabled) + ItemIn(c, table, disabled) + ItemIn(d, table, disabled)
  {
    TwoItems(a, b, table, disabled);
    ItemsOfLast([a, b], c, table, disabled);
    ItemsOfLast([a, b, c], d, table, disabled);
    assert [a, b] + [c] == [a, b, c] && [a, b, c] + [d] == [a, b, c, d];
  }

  lemma {:induction false} TwoItems(a: string, b: string, table: Overrides, disabled: bool)
    requires a in table && b in table
    ensures Items([a, b], table, disabled) == ItemIn(a, table, disabled) + ItemIn(b, table, disabled)
  {
    assert [a, b][..1] == [a] && [a][..0] == [];
    assert Items([a], table, disabled) == [] + ItemIn(a, table, disabled);
  }

  /** A star in front of a feature that is at its default, and a trial behind a less-than sign. */
  lemma {:induction false} ListsByExample(table: Overrides, trial: Trial)
    requires trial.name == "t" && table.Keys == {"a", "b", "c", "d"}
    requires table["a"] == Entry(UseDefault, None, false) && table["b"] == Entry(EnableFeature, Some(trial), true)
    requires table["c"] == Entry(DisableFeature, None, false) && table["d"] == Entry(EnableFeature, None, false)
    ensures Printed(Items(["a", "b", "c", "d"], table, false)) == "*a,b<t,d"
    ensures Printed(Items(["a", "b", "c", "d"], table, true)) == "c"
  {
    FourItems("a", "b", "c", "d", table, false);
    FourItems("a", "b", "c", "d", table, true);
    ItemsByExample(table, trial);
    assert ["*a"] + ["b<t"] + [] + ["d"] == ["*a", "b<t", "d"] && [] + [] + ["c"] + [] == ["c"];
    PrintedThree("*a", "b<t", "d");
    PrintedOne("c");
  }

  lemma {:induction false} ItemsByExample(table: Overrides, trial: Trial)
    requires trial.name == "t" && table.Keys == {"a", "b", "c", "d"}
    requires table["a"] == Entry(UseDefault, None, false) && table["b"] == Entry(EnableFeature, Some(trial), true)
    requires table["c"] == Entry(DisableFeature, None, false) && table["d"] == Entry(EnableFeature, None, false)
    ensures ItemIn("a", table, false) == ["*a"] && ItemIn("a", table, true) == []
    ensures ItemIn("b", table, false) == ["b<t"] && ItemIn("b", table, true) == []
    ensures ItemIn("c", table, false) == [] && ItemIn("c", table, true) == ["c"]
    ensures ItemIn("d", table, false) == ["d"] && ItemIn("d", table, true) == []
  {
    assert "*" + "a" + "" == "*a" && ItemOf("a", table["a"]) == "*a";
    assert "" + "b" + ("<" + "t") == "b<t" && ItemOf("b", table["b"]) == "b<t";
    assert "" + "c" + "" == "c" && ItemOf("c", table["c"]) == "c";
    assert "" + "d" + "" == "d" && ItemOf("d", table["d"]) == "d";
  }

  lemma {:induction false} PrintedOne(a: string)
    requires a != ""
    ensures Printed([a]) == a
  {
    PrintedIsJoined([a]);
  }

  lemma {:induction false} PrintedThree(a: string, b: string, c: string)
    requires a != "" && b != "" && c != ""
    ensures Printed([a, b, c]) == a + "," + b + "," + c
  {
    PrintedIsJoined([a, b, c]);
    assert [a, b, c][1..] == [b, c] && [b, c][1..] == [c];
    assert Joined([b, c]) == b + "," + c;
    assert a + "," + (b + "," + c) == a + "," + b + "," + c;
  }
}
