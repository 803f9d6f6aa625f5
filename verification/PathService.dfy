/**
  src/base/path_service.cc: a cache in front of overrides and a list of providers, which may themselves ask the service.

  What the operating system answers is an input: the current directory, what makes a path absolute, whether a directory
  could be created. A provider is given by what it does next, from the key and the answers it has got so far; it has
  no other source. Since providers may ask forever, a lookup counts its questions and may get stuck at any number.
*/
module PathServices {
  import opened Options

  type Path = string

  const DIR_CURRENT := 1

  /** The next thing a provider does: ask the service, or return; None is false, and an empty path is no path. */
  datatype Action = Ask(key: int) | Answer(path: Option<Path>)

  type Provider = (int, seq<Option<Path>>) -> Action

  datatype Env = Env(
    providers: seq<Provider>, currentDirectory: Option<Path>,
    referencesParent: Path -> bool, makeAbsolute: Path -> Path)

  datatype Outcome = Stuck | Done(path: Option<Path>)

  /** The end of Get: a path that mentions ".." is made absolute, and an empty one is a failure. */
  function Finish(env: Env, path: Path): Option<Path> {
    if path == "" then None
    else if !env.referencesParent(path) then Some(path)
    else if env.makeAbsolute(path) == "" then None
    else Some(env.makeAbsolute(path))
  }

  // ---------------------------------------------------------------- without the cache

  function Lookup(env: Env, overrides: map<int, Path>, key: int, fuel: nat): Outcome
    decreases fuel, |env.providers| + 1
  {
    if key == DIR_CURRENT then Done(env.currentDirectory)
    else if key in overrides then Done(Some(overrides[key]))
    else Consult(env, overrides, key, 0, [], fuel)
  }

  /** From the i-th provider on, which has got these answers. */
  function Consult(
      env: Env, overrides: map<int, Path>, key: int, i: nat, answers: seq<Option<Path>>, fuel: nat): Outcome
    requires i <= |env.providers|
    decreases fuel, |env.providers| - i
  {
    if i == |env.providers| then Done(None)
    else
      match env.providers[i](key, answers)
      case Answer(None) => Consult(env, overrides, key, i + 1, [], fuel)
      case Answer(Some(path)) => Done(Finish(env, path))
      case Ask(other) =>
        if fuel == 0 then Stuck
        else
          var r := Lookup(env, overrides, other, fuel - 1);
          if r.Stuck? then Stuck else Consult(env, overrides, key, i, answers + [r.path], fuel - 1)
  }

  /** More questions do not change an answer. */
  lemma {:induction false} LookupGrows(env: Env, overrides: map<int, Path>, key: int, fuel: nat, more: nat)
    requires fuel <= more && Lookup(env, overrides, key, fuel).Done?
    ensures Lookup(env, overrides, key, more) == Lookup(env, overrides, key, fuel)
    decreases fuel, |env.providers| + 1
  {
    if key != DIR_CURRENT && key !in overrides { ConsultGrows(env, overrides, key, 0, [], fuel, more); }
  }

  lemma {:induction false} ConsultGrows(
      env: Env, overrides: map<int, Path>, key: int, i: nat, answers: seq<Option<Path>>, fuel: nat, more: nat)
    requires i <= |env.providers| && fuel <= more && Consult(env, overrides, key, i, answers, fuel).Done?
    ensures Consult(env, overrides, key, i, answers, more) == Consult(env, overrides, key, i, answers, fuel)
    decreases fuel, |env.providers| - i
  {
    if i < |env.providers| {
      match env.providers[i](key, answers) {
        case Answer(None) => ConsultGrows(env, overrides, key, i + 1, [], fuel, more);
        case Answer(Some(path)) =>
        case Ask(other) =>
          LookupGrows(env, overrides, other, fuel - 1, more - 1);
          var r := Lookup(env, overrides, other, fuel - 1);
          ConsultGrows(env, overrides, key, i, answers + [r.path], fuel - 1, more - 1);
      }
    }
  }

  /** The uncached lookup comes to this result. */
  ghost predicate Finds(env: Env, overrides: map<int, Path>, key: int, path: Option<Path>) {
    exists fuel :: Lookup(env, overrides, key, fuel) == Done(path)
  }

  lemma {:induction false} FindsOnce(env: Env, overrides: map<int, Path>, key: int, a: Option<Path>, b: Option<Path>)
    requires Finds(env, overrides, key, a) && Finds(env, overrides, key, b)
    ensures a == b
  {
    var x :| Lookup(env, overrides, key, x) == Done(a);
    var y :| Lookup(env, overrides, key, y) == Done(b);
    if x <= y { LookupGrows(env, overrides, key, x, y); } else { LookupGrows(env, overrides, key, y, x); }
  }

  // ---------------------------------------------------------------- with the cache

  datatype Data = Data(cache: map<int, Path>, overrides: map<int, Path>, cacheDisabled: bool)

  function Cached(d: Data, key: int, path: Path): Data {
    if d.cacheDisabled then d else d.(cache := d.cache[key := path])
  }

  function Get(env: Env, d: Data, key: int, fuel: nat): (r: (Outcome, Data))
    ensures r.1.overrides == d.overrides && r.1.cacheDisabled == d.cacheDisabled
    decreases fuel, |env.providers| + 1
  {
    if key == DIR_CURRENT then (Done(env.currentDirectory), d)
    else if !d.cacheDisabled && key in d.cache then (Done(Some(d.cache[key])), d)
    else if key in d.overrides then (Done(Some(d.overrides[key])), Cached(d, key, d.overrides[key]))
    else
      var r := GetFrom(env, d, key, 0, [], fuel);
      (r.0, if r.0.Done? && r.0.path.Some? then Cached(r.1, key, r.0.path.value) else r.1)
  }

  function GetFrom(env: Env, d: Data, key: int, i: nat, answers: seq<Option<Path>>, fuel: nat): (r: (Outcome, Data))
    requires i <= |env.providers|
    ensures r.1.overrides == d.overrides && r.1.cacheDisabled == d.cacheDisabled
    decreases fuel, |env.providers| - i
  {
    if i == |env.providers| then (Done(None), d)
    else
      match env.providers[i](key, answers)
      case Answer(None) => GetFrom(env, d, key, i + 1, [], fuel)
      case Answer(Some(path)) => (Done(Finish(env, path)), d)
      case Ask(other) =>
        if fuel == 0 then (Stuck, d)
        else
          var r := Get(env, d, other, fuel - 1);
          if r.0.Stuck? then r else GetFrom(env, r.1, key, i, answers + [r.0.path], fuel - 1)
  }

  /** Each cached entry is what an uncached lookup under the current overrides comes to. */
  ghost predicate Coherent(env: Env, d: Data) {
    && (d.cacheDisabled ==> d.cache == map[])
    && forall key :: key in d.cache ==> Finds(env, d.overrides, key, Some(d.cache[key]))
  }

  lemma {:induction false} CachedIsCoherent(env: Env, d: Data, key: int, path: Path)
    requires Coherent(env, d) && Finds(env, d.overrides, key, Some(path))
    ensures Coherent(env, Cached(d, key, path))
  {
  }

  /** What Get comes to, the uncached lookup comes to as well, if it may ask often enough; the cache stays coherent. */
  lemma {:induction false} GetFinds(env: Env, d: Data, key: int, fuel: nat) returns (enough: nat)
    requires Coherent(env, d)
    ensures Coherent(env, Get(env, d, key, fuel).1)
    ensures Get(env, d, key, fuel).0.Done? ==> Lookup(env, d.overrides, key, enough) == Get(env, d, key, fuel).0
    decreases fuel, |env.providers| + 1
  {
    enough := 0;
    if key == DIR_CURRENT {
    } else if !d.cacheDisabled && key in d.cache {
      enough :| Lookup(env, d.overrides, key, enough) == Done(Some(d.cache[key]));
    } else if key in d.overrides {
      assert Lookup(env, d.overrides, key, 0) == Done(Some(d.overrides[key]));
      CachedIsCoherent(env, d, key, d.overrides[key]);
    } else {
      enough := GetFromFinds(env, d, key, 0, [], fuel);
      var r := GetFrom(env, d, key, 0, [], fuel);
      if r.0.Done? {
        assert Lookup(env, d.overrides, key, enough) == r.0;
        if r.0.path.Some? { CachedIsCoherent(env, r.1, key, r.0.path.value); }
      }
    }
  }

  lemma {:induction false} GetFromFinds(
      env: Env, d: Data, key: int, i: nat, answers: seq<Option<Path>>, fuel: nat) returns (enough: nat)
    requires i <= |env.providers| && Coherent(env, d)
    ensures Coherent(env, GetFrom(env, d, key, i, answers, fuel).1)
    ensures GetFrom(env, d, key, i, answers, fuel).0.Done? ==>
      Consult(env, d.overrides, key, i, answers, enough) == GetFrom(env, d, key, i, answers, fuel).0
    decreases fuel, |env.providers| - i
  {
    enough := 0;
    if i < |env.providers| {
      match env.providers[i](key, answers) {
        case Answer(None) => enough := GetFromFinds(env, d, key, i + 1, [], fuel);
        case Answer(Some(path)) =>
        case Ask(other) =>
          if fuel > 0 {
            var asked := GetFinds(env, d, other, fuel - 1);
            var r := Get(env, d, other, fuel - 1);
            if r.0.Done? {
              var more := answers + [r.0.path];
              var rest := GetFromFinds(env, r.1, key, i, more, fuel - 1);
              if GetFrom(env, r.1, key, i, more, fuel - 1).0.Done? {
                var most := if asked < rest then rest else asked;
                LookupGrows(env, d.overrides, other, asked, most);
                ConsultGrows(env, d.overrides, key, i, more, rest, most);
                enough := most + 1;
              }
            }
          }
      }
    }
  }

  /** Where the uncached lookup comes to a result, Get does so without asking more often, and to the same one. */
  lemma {:induction false} LookupIsGot(env: Env, d: Data, key: int, fuel: nat)
    requires Coherent(env, d) && Lookup(env, d.overrides, key, fuel).Done?
    ensures Get(env, d, key, fuel).0 == Lookup(env, d.overrides, key, fuel)
    decreases fuel, |env.providers| + 1
  {
    if key == DIR_CURRENT {
    } else if !d.cacheDisabled && key in d.cache {
      FindsOnce(env, d.overrides, key, Some(d.cache[key]), Lookup(env, d.overrides, key, fuel).path);
    } else if key !in d.overrides {
      ConsultIsGot(env, d, key, 0, [], fuel);
    }
  }

  lemma {:induction false} ConsultIsGot(env: Env, d: Data, key: int, i: nat, answers: seq<Option<Path>>, fuel: nat)
    requires i <= |env.providers| && Coherent(env, d) && Consult(env, d.overrides, key, i, answers, fuel).Done?
    ensures GetFrom(env, d, key, i, answers, fuel).0 == Consult(env, d.overrides, key, i, answers, fuel)
    decreases fuel, |env.providers| - i
  {
    if i < |env.providers| {
      match env.providers[i](key, answers) {
        case Answer(None) => ConsultIsGot(env, d, key, i + 1, [], fuel);
        case Answer(Some(path)) =>
        case Ask(other) =>
          LookupIsGot(env, d, other, fuel - 1);
          var enough := GetFinds(env, d, other, fuel - 1);
          var r := Get(env, d, other, fuel - 1);
          ConsultIsGot(env, r.1, key, i, answers + [r.0.path], fuel - 1);
      }
    }
  }

  /** In a coherent state, with the cache or without it, a key has the same result. */
  lemma {:induction false} GetAgrees(env: Env, d: Data, key: int, path: Option<Path>)
    requires Coherent(env, d)
    ensures (exists fuel :: Get(env, d, key, fuel).0 == Done(path)) <==> Finds(env, d.overrides, key, path)
  {
    if fuel :| Get(env, d, key, fuel).0 == Done(path) {
      var enough := GetFinds(env, d, key, fuel);
    }
    if Finds(env, d.overrides, key, path) {
      var fuel :| Lookup(env, d.overrides, key, fuel) == Done(path);
      LookupIsGot(env, d, key, fuel);
    }
  }

  // ---------------------------------------------------------------- runs

  /** made says whether the directory exists or could be created. */
  datatype Op =
    | GetOp(key: int, fuel: nat)
    | OverrideOp(key: int, path: Path, isAbsolute: bool, create: bool, made: bool)
    | RemoveOverrideOp(key: int)
    | DisableCacheOp

  /** What is to be recorded, or None if it cannot be. */
  function OverridePath(env: Env, path: Path, isAbsolute: bool, create: bool, made: bool): Option<Path> {
    if create && !made then None
    else if isAbsolute then Some(path)
    else if env.makeAbsolute(path) == "" then None
    else Some(env.makeAbsolute(path))
  }

  function Overridden(env: Env, d: Data, key: int, path: Option<Path>): Data {
    if path.None? then d else d.(cache := map[], overrides := d.overrides[key := path.value])
  }

  function OverrideRemoved(d: Data, key: int): Data {
    if key !in d.overrides then d else d.(cache := map[], overrides := d.overrides - {key})
  }

  function CacheDisabled(d: Data): Data {
    d.(cache := map[], cacheDisabled := true)
  }

  function Step(env: Env, d: Data, op: Op): Data {
    match op
    case GetOp(key, fuel) => Get(env, d, key, fuel).1
    case OverrideOp(key, path, isAbsolute, create, made) =>
      Overridden(env, d, key, OverridePath(env, path, isAbsolute, create, made))
    case RemoveOverrideOp(key) => OverrideRemoved(d, key)
    case DisableCacheOp => CacheDisabled(d)
  }

  function Run(env: Env, d: Data, ops: seq<Op>): Data
    decreases |ops|
  {
    if ops == [] then d else Run(env, Step(env, d, ops[0]), ops[1..])
  }

  /** A run is its steps one after the other. */
  lemma {:induction false} RunGrows(env: Env, d: Data, ops: seq<Op>, op: Op)
    ensures Run(env, d, []) == d && Run(env, d, ops + [op]) == Step(env, Run(env, d, ops), op)
    decreases |ops|
  {
    if ops == [] {
      assert [] + [op] == [op] && [op][1..] == [];
    } else {
      assert (ops + [op])[1..] == ops[1..] + [op];
      RunGrows(env, Step(env, d, ops[0]), ops[1..], op);
    }
  }

  /** Over every run, each cached entry is what an uncached lookup under the overrides of that moment comes to. */
  lemma {:induction false} RunIsCoherent(env: Env, d: Data, ops: seq<Op>)
    requires Coherent(env, d)
    ensures Coherent(env, Run(env, d, ops))
    decreases |ops|
  {
    if ops != [] {
      match ops[0] {
        case GetOp(key, fuel) => var enough := GetFinds(env, d, key, fuel);
        case _ =>
      }
      RunIsCoherent(env, Step(env, d, ops[0]), ops[1..]);
    }
  }

  /** So a Get at the end of any run sees the overrides of that moment, and nothing of what went before. */
  lemma {:induction false} GetAfterRun(env: Env, ops: seq<Op>, key: int, path: Option<Path>)
    ensures var d := Run(env, Data(map[], map[], false), ops);
      (exists fuel :: Get(env, d, key, fuel).0 == Done(path)) <==> Finds(env, d.overrides, key, path)
  {
    RunIsCoherent(env, Data(map[], map[], false), ops);
    GetAgrees(env, Run(env, Data(map[], map[], false), ops), key, path);
  }

  // ---------------------------------------------------------------- what a lookup returns

  /** What makes a path absolute leaves no parent reference in it. */
  ghost predicate Absolving(env: Env) {
    forall path :: !env.referencesParent(env.makeAbsolute(path))
  }

  lemma {:induction false} ConsultIsClean(
      env: Env, overrides: map<int, Path>, key: int, i: nat, answers: seq<Option<Path>>, fuel: nat)
    requires i <= |env.providers| && Absolving(env)
    ensures var r := Consult(env, overrides, key, i, answers, fuel);
      r.Done? && r.path.Some? ==> r.path.value != "" && !env.referencesParent(r.path.value)
    decreases fuel, |env.providers| - i
  {
    if i < |env.providers| {
      match env.providers[i](key, answers) {
        case Answer(None) => ConsultIsClean(env, overrides, key, i + 1, [], fuel);
        case Answer(Some(path)) =>
        case Ask(other) =>
          if fuel > 0 {
            var r := Lookup(env, overrides, other, fuel - 1);
            if r.Done? { ConsultIsClean(env, overrides, key, i, answers + [r.path], fuel - 1); }
          }
      }
    }
  }

  /** The only paths with a parent reference that are found are overrides that were recorded with one. */
  lemma {:induction false} FoundIsClean(env: Env, overrides: map<int, Path>, key: int, path: Path)
    requires Absolving(env) && key != DIR_CURRENT && Finds(env, overrides, key, Some(path))
    ensures env.referencesParent(path) <==> key in overrides && env.referencesParent(overrides[key])
  {
    var fuel :| Lookup(env, overrides, key, fuel) == Done(Some(path));
    if key !in overrides { ConsultIsClean(env, overrides, key, 0, [], fuel); }
  }

  /**
    After any run, a Get returns a path with a parent reference exactly if it is the override of its key that has one,
    and the cache holds no other. So none is ever returned if overrides have none, except for the current directory.
  */
  lemma {:induction false} NoParentIsReturned(env: Env, ops: seq<Op>, key: int, fuel: nat)
    requires Absolving(env) && key != DIR_CURRENT
    ensures var d := Run(env, Data(map[], map[], false), ops);
      var r := Get(env, d, key, fuel);
      && (r.0.Done? && r.0.path.Some? ==>
        (env.referencesParent(r.0.path.value) <==> key in d.overrides && env.referencesParent(d.overrides[key])))
      && (key in r.1.cache ==>
        (env.referencesParent(r.1.cache[key]) <==> key in d.overrides && env.referencesParent(d.overrides[key])))
  {
    RunIsCoherent(env, Data(map[], map[], false), ops);
    var d := Run(env, Data(map[], map[], false), ops);
    var r := Get(env, d, key, fuel);
    var enough := GetFinds(env, d, key, fuel);
    if r.0.Done? && r.0.path.Some? {
      FoundIsClean(env, d.overrides, key, r.0.path.value);
    }
    if key in r.1.cache {
      FoundIsClean(env, d.overrides, key, r.1.cache[key]);
    }
  }

  /**
    The path of the first provider that has one, when nothing is cached or overridden: as it is if it mentions no
    parent, else made absolute; an empty one, either way, is a failure. A path that is returned is also cached.
  */
  lemma {:induction false} FirstAnswerIsReturned(env: Env, d: Data, key: int, i: nat, path: Path, fuel: nat)
    requires key != DIR_CURRENT && key !in d.overrides && (d.cacheDisabled || key !in d.cache)
    requires i < |env.providers| && env.providers[i](key, []) == Answer(Some(path))
    requires forall j :: 0 <= j < i ==> env.providers[j](key, []) == Answer(None)
    ensures var r := Get(env, d, key, fuel); var absolute := env.makeAbsolute(path);
      && (path != "" && !env.referencesParent(path) ==> r.0 == Done(Some(path)))
      && (path != "" && env.referencesParent(path) && absolute != "" ==> r.0 == Done(Some(absolute)))
      && (path == "" || (env.referencesParent(path) && absolute == "") ==> r.0 == Done(None) && r.1 == d)
      && (r.0.path.Some? && !d.cacheDisabled ==> r.1.cache == d.cache[key := r.0.path.value])
      && (d.cacheDisabled ==> r.1.cache == d.cache)
  {
    SilentAreSkipped(env, d, key, 0, i, fuel);
  }

  lemma {:induction false} SilentAreSkipped(env: Env, d: Data, key: int, i: nat, j: nat, fuel: nat)
    requires i <= j <= |env.providers|
    requires forall k :: i <= k < j ==> env.providers[k](key, []) == Answer(None)
    ensures GetFrom(env, d, key, i, [], fuel) == GetFrom(env, d, key, j, [], fuel)
    decreases j - i
  {
    if i < j { SilentAreSkipped(env, d, key, i + 1, j, fuel); }
  }

  /** A key that no provider has an answer for is not found, and nothing is cached for it. */
  lemma {:induction false} NoAnswerIsFailure(env: Env, d: Data, key: int, fuel: nat)
    requires key != DIR_CURRENT && key !in d.overrides && (d.cacheDisabled || key !in d.cache)
    requires forall j :: 0 <= j < |env.providers| ==> env.providers[j](key, []) == Answer(None)
    ensures Get(env, d, key, fuel) == (Done(None), d)
  {
    SilentAreSkipped(env, d, key, 0, |env.providers|, fuel);
  }

  /** The current directory is asked for every time, whatever has been cached or overridden. */
  lemma {:induction false} CurrentIsAsked(env: Env, d: Data, fuel: nat)
    ensures Get(env, d, DIR_CURRENT, fuel) == (Done(env.currentDirectory), d)
  {
  }

  /** A second Get of the same key asks no provider at all, has the same result and changes nothing. */
  lemma {:induction false} GetAgain(env: Env, d: Data, key: int, fuel: nat)
    requires !d.cacheDisabled && Get(env, d, key, fuel).0.Done? && Get(env, d, key, fuel).0.path.Some?
    ensures var r := Get(env, d, key, fuel); Get(env, r.1, key, 0) == r
  {
  }

  /** Once the cache has been disabled, nothing is ever cached again. */
  lemma {:induction false} DisabledForGood(env: Env, d: Data, before: seq<Op>, after: seq<Op>)
    ensures var d' := Run(env, Step(env, Run(env, d, before), DisableCacheOp), after);
      d'.cacheDisabled && d'.cache == map[]
  {
    StaysDisabled(env, Step(env, Run(env, d, before), DisableCacheOp), after);
  }

  lemma {:induction false} StaysDisabled(env: Env, d: Data, ops: seq<Op>)
    requires d.cacheDisabled && d.cache == map[]
    ensures Run(env, d, ops).cacheDisabled && Run(env, d, ops).cache == map[]
    decreases |ops|
  {
    if ops != [] {
      if ops[0].GetOp? { GetCachesNothing(env, d, ops[0].key, ops[0].fuel); }
      StaysDisabled(env, Step(env, d, ops[0]), ops[1..]);
    }
  }

  lemma {:induction false} GetCachesNothing(env: Env, d: Data, key: int, fuel: nat)
    requires d.cacheDisabled
    ensures Get(env, d, key, fuel).1 == d
    decreases fuel, |env.providers| + 1
  {
    if key != DIR_CURRENT && key !in d.overrides { GetFromCachesNothing(env, d, key, 0, [], fuel); }
  }

  lemma {:induction false} GetFromCachesNothing(
      env: Env, d: Data, key: int, i: nat, answers: seq<Option<Path>>, fuel: nat)
    requires d.cacheDisabled && i <= |env.providers|
    ensures GetFrom(env, d, key, i, answers, fuel).1 == d
    decreases fuel, |env.providers| - i
  {
    if i < |env.providers| {
      match env.providers[i](key, answers) {
        case Answer(None) => GetFromCachesNothing(env, d, key, i + 1, [], fuel);
        case Answer(Some(path)) =>
        case Ask(other) =>
          if fuel > 0 {
            GetCachesNothing(env, d, other, fuel - 1);
            var r := Get(env, d, other, fuel - 1);
            if r.0.Done? { GetFromCachesNothing(env, d, key, i, answers + [r.0.path], fuel - 1); }
          }
      }
    }
  }

  // ---------------------------------------------------------------- what an override does

  /**
    An override is what a Get returns from then on: the path itself if it was said to be absolute, else what makes it
    absolute. It has no effect if the directory cannot be created or the path cannot be made absolute.
  */
  lemma {:induction false} OverrideIsReturned(
      env: Env, d: Data, key: int, path: Path, isAbsolute: bool, create: bool, made: bool, fuel: nat)
    requires key > DIR_CURRENT
    ensures var d' := Step(env, d, OverrideOp(key, path, isAbsolute, create, made));
      var absolute := env.makeAbsolute(path);
      if (create && !made) || (!isAbsolute && absolute == "") then d' == d
      else Get(env, d', key, fuel).0 == Done(Some(if isAbsolute then path else absolute))
  {
  }

  /** An override that is said to be absolute is returned with its parent reference. */
  lemma {:induction false} ParentOverrideIsReturned(env: Env)
    ensures var path := "/a/../b";
      var d := Step(env, Data(map[], map[], false), OverrideOp(7, path, true, false, false));
      Get(env, d, 7, 0).0 == Done(Some(path))
  {
    OverrideIsReturned(env, Data(map[], map[], false), 7, "/a/../b", true, false, false, 0);
  }

  /** Taking an override back leaves no trace of it: every key is found as if it had never been recorded. */
  lemma {:induction false} OverrideIsUndone(
      env: Env, d: Data, key: int, path: Path, isAbsolute: bool, create: bool, made: bool, other: int, r: Option<Path>)
    requires Coherent(env, d) && key !in d.overrides
    ensures var d' := Step(env, Step(env, d, OverrideOp(key, path, isAbsolute, create, made)), RemoveOverrideOp(key));
      (exists fuel :: Get(env, d', other, fuel).0 == Done(r)) <==> Finds(env, d.overrides, other, r)
  {
    var op := OverrideOp(key, path, isAbsolute, create, made);
    var d' := Step(env, Step(env, d, op), RemoveOverrideOp(key));
    assert d'.overrides == d.overrides;
    assert d' == d || d'.cache == map[];
    assert Coherent(env, d');
    GetAgrees(env, d', other, r);
  }

  /** No override is ever recorded that is not absolute, if those given as absolute are. */
  lemma {:induction false} OverridesAreAbsolute(env: Env, d: Data, ops: seq<Op>, absolute: Path -> bool)
    requires forall path :: env.makeAbsolute(path) != "" ==> absolute(env.makeAbsolute(path))
    requires forall key :: key in d.overrides ==> absolute(d.overrides[key])
    requires forall i :: 0 <= i < |ops| && ops[i].OverrideOp? && ops[i].isAbsolute ==> absolute(ops[i].path)
    ensures forall key :: key in Run(env, d, ops).overrides ==> absolute(Run(env, d, ops).overrides[key])
    decreases |ops|
  {
    if ops != [] {
      var d' := Step(env, d, ops[0]);
      assert forall key :: key in d'.overrides ==> absolute(d'.overrides[key]);
      OverridesAreAbsolute(env, d', ops[1..], absolute);
    }
  }

  // ---------------------------------------------------------------- the service

  class PathData {
    const env: Env
    var cache: map<int, Path>
    var overrides: map<int, Path>
    var cacheDisabled: bool

    function Now(): Data
      reads this
    {
      Data(cache, overrides, cacheDisabled)
    }

    constructor (env: Env)
      ensures this.env == env && Now() == Data(map[], map[], false) && Coherent(env, Now())
    {
      this.env, cache, overrides, cacheDisabled := env, map[], map[], false;
    }

    method LockedGetFromCache(key: int) returns (result: Option<Path>)
      ensures result == if !cacheDisabled && key in cache then Some(cache[key]) else None
    {
      if cacheDisabled { return None; }
      result := if key in cache then Some(cache[key]) else None;
    }

    method LockedGetFromOverrides(key: int) returns (result: Option<Path>)
      modifies this`cache
      ensures if key in overrides
        then result == Some(overrides[key]) && Now() == Cached(old(Now()), key, overrides[key])
        else result == None && Now() == old(Now())
    {
      if key !in overrides { return None; }
      if !cacheDisabled {
        cache := cache[key := overrides[key]];
      }
      result := Some(overrides[key]);
    }

    /** The lock is not modelled: nothing else runs between its two sections. */
    method LookUp(key: int, fuel: nat) returns (result: Outcome)
      modifies this`cache
      ensures (result, Now()) == old(Get(env, Now(), key, fuel))
      decreases fuel, |env.providers| + 1
    {
      if key == DIR_CURRENT {
        return Done(env.currentDirectory);
      }
      var cached := LockedGetFromCache(key);
      if cached.Some? {
        return Done(cached);
      }
      var overridden := LockedGetFromOverrides(key);
      if overridden.Some? {
        return Done(overridden);
      }
      result := AskProviders(key, 0, [], fuel);
      if result.Done? && result.path.Some? && !cacheDisabled {
        cache := cache[key := result.path.value];
      }
    }

    /** The walk along the list of providers, from the i-th one, which has got these answers. */
    method AskProviders(key: int, i: nat, answers: seq<Option<Path>>, fuel: nat) returns (result: Outcome)
      requires i <= |env.providers|
      modifies this`cache
      ensures (result, Now()) == old(GetFrom(env, Now(), key, i, answers, fuel))
      decreases fuel, |env.providers| - i
    {
      if i == |env.providers| {
        return Done(None);
      }
      match env.providers[i](key, answers) {
        case Answer(None) =>
          result := AskProviders(key, i + 1, [], fuel);
        case Answer(Some(path)) =>
          if path == "" { return Done(None); }
          var absolute := path;
          if env.referencesParent(path) {
            absolute := env.makeAbsolute(path);
            if absolute == "" { return Done(None); }
          }
          result := Done(Some(absolute));
        case Ask(other) =>
          if fuel == 0 { return Stuck; }
          var r := LookUp(other, fuel - 1);
          if r.Stuck? { return Stuck; }
          result := AskProviders(key, i, answers + [r.path], fuel - 1);
      }
    }

    method OverrideAndCreateIfNeeded(key: int, path: Path, isAbsolute: bool, create: bool, made: bool)
      returns (ok: bool)
      requires key > DIR_CURRENT
      modifies this`cache, this`overrides
      ensures ok <==> OverridePath(env, path, isAbsolute, create, made).Some?
      ensures Now() == Overridden(env, old(Now()), key, OverridePath(env, path, isAbsolute, create, made))
    {
      var filePath := path;
      if create && !made {
        return false;
      }
      if !isAbsolute {
        filePath := env.makeAbsolute(filePath);
        if filePath == "" { return false; }
      }
      cache := map[];
      overrides := overrides[key := filePath];
      ok := true;
    }

    method RemoveOverride(key: int) returns (ok: bool)
      modifies this`cache, this`overrides
      ensures ok <==> key in old(overrides)
      ensures Now() == OverrideRemoved(old(Now()), key)
    {
      if key !in overrides { return false; }
      cache := map[];
      overrides := overrides - {key};
      ok := true;
    }

    method DisableCache()
      modifies this`cache, this`cacheDisabled
      ensures Now() == CacheDisabled(old(Now()))
    {
      cache := map[];
      cacheDisabled := true;
    }
  }
}
