/** Searching in strings, and TrimWhitespaceASCII of src/base/strings/string_util.cc. */
module StringUtil {
  import opened Options

  predicate Without(c: char, s: string) {
    forall i :: 0 <= i < |s| ==> s[i] != c
  }

  function Find(s: string, c: char): (at: Option<nat>)
    ensures at.Some? ==> at.value < |s| && s[at.value] == c
    ensures forall i :: 0 <= i < (if at.None? then |s| else at.value) ==> s[i] != c
  {
    if s == "" then None
    else if s[0] == c then Some(0)
    else
      var at := Find(s[1..], c);
      if at.None? then None else Some(at.value + 1)
  }

  lemma {:induction false} FoundAt(s: string, c: char, at: nat)
    requires at < |s| && s[at] == c && forall i :: 0 <= i < at ==> s[i] != c
    ensures Find(s, c) == Some(at)
  {
    if at > 0 {
      FoundAt(s[1..], c, at - 1);
    }
  }

  predicate White(c: char) {
    c == ' ' || '\t' <= c <= '\r'
  }

  /** Space, tab, line feed, vertical tab, form feed and carriage return. */
  lemma {:induction false} WhiteIs(c: char)
    ensures White(c) <==> c as int in {32, 9, 10, 11, 12, 13}
  {
  }

  predicate Trimmed(s: string) {
    s == "" || (!White(s[0]) && !White(s[|s| - 1]))
  }

  /** The stretch from the first to the last character that is not white. */
  function Trim(s: string): (t: string)
    ensures Trimmed(t) && (Trimmed(s) ==> t == s)
  {
    if s == "" then ""
    else if White(s[0]) then Trim(s[1..])
    else if White(s[|s| - 1]) then Trim(s[..|s| - 1])
    else s
  }

  lemma {:induction false} TrimKeepsStart(s: string)
    requires s != "" && !White(s[0])
    ensures Trim(s) != "" && Trim(s) <= s
  {
    if White(s[|s| - 1]) { TrimKeepsStart(s[..|s| - 1]); }
  }

  predicate AllWhite(s: string) {
    forall i :: 0 <= i < |s| ==> White(s[i])
  }

  /** Only white space is lost, and only at the ends. */
  lemma {:induction false} TrimCutsTheEnds(s: string) returns (before: string, after: string)
    ensures s == before + Trim(s) + after && AllWhite(before) && AllWhite(after)
  {
    if s == "" {
      before, after := "", "";
    } else if White(s[0]) {
      before, after := TrimCutsTheEnds(s[1..]);
      before := [s[0]] + before;
    } else if White(s[|s| - 1]) {
      before, after := TrimCutsTheEnds(s[..|s| - 1]);
      after := after + [s[|s| - 1]];
      assert s == s[..|s| - 1] + [s[|s| - 1]];
    } else {
      before, after := "", "";
    }
  }
}
