/**
  src/base/lazy_instance.h, src/base/lazy_instance.cc: one instance, created by whichever thread asks first.

  A transition system in which every atomic operation on private_instance_ is one step, so a run is any
  interleaving of any number of threads calling Pointer(). Memory is sequentially consistent.
*/
module LazyInstances {
  import opened Options

  type ThreadId = nat
  type Word = nat  // an AtomicWord: 0, the creating marker, or an address

  const CREATING: Word := 1  // kLazyInstanceStateCreating

  /** The fast-path test of Pointer(): some bit of kLazyInstanceCreatedMask is set; see MaskTest. */
  predicate Created(value: Word) {
    value != 0 && value != CREATING
  }

  /** On 64-bit words, value & ~kLazyInstanceStateCreating tells addresses from the two markers. */
  lemma {:induction false} MaskTest(value: bv64)
    ensures value & 0xFFFF_FFFF_FFFF_FFFE != 0 <==> value != 0 && value != 1
  {
  }

  /** Where a thread stands inside Pointer(). */
  datatype Pc =
    | Idle
    | Swapping                  // in NeedsLazyInstance, before the compare-and-swap
    | Spinning                  // in its wait loop
    | Constructing              // before Traits::New
    | Publishing(made: Word)    // in CompleteLazyInstance, before the store
    | Registering               // before AtExitManager::RegisterCallback
    | Returning                 // before the load in instance()

  /** What happened between two resets of the word. */
  datatype Life = Life(words: seq<Word>, built: seq<Word>, returned: seq<Word>, registrations: nat, deleted: seq<Word>)

  datatype State = State(
    word: Word,
    pcs: map<ThreadId, Pc>,
    builder: Option<ThreadId>,  // who won the compare-and-swap and is not done yet
    registers: bool,            // Traits::kRegisterOnExit
    callbacks: nat,             // registered with the AtExitManager and not run yet
    now: Life,
    past: seq<Life>)

  /** Thread t executes its next operation (made is what New returns, if it is called), or at-exit runs a callback. */
  datatype Step = Go(t: ThreadId, made: Word) | OnExit

  const NEW_LIFE := Life([0], [], [], 0, [])

  function Start(registers: bool): State {
    State(0, map[], None, registers, 0, NEW_LIFE, [])
  }

  function PcOf(s: State, t: ThreadId): Pc {
    if t in s.pcs then s.pcs[t] else Idle
  }

  predicate Quiet(s: State) {
    forall t :: t in s.pcs ==> s.pcs[t].Idle?
  }

  /** Addresses are at least 2, and OnExit does not run while a thread is inside Pointer(). */
  predicate Enabled(s: State, step: Step) {
    match step
    case Go(_, made) => made != 0 && made != CREATING
    case OnExit => s.callbacks > 0 && Quiet(s)
  }

  function SetPc(s: State, t: ThreadId, pc: Pc): State {
    s.(pcs := s.pcs[t := pc])
  }

  function SetWord(s: State, w: Word): State {
    s.(word := w, now := s.now.(words := s.now.words + [w]))
  }

  function Next(s: State, step: Step): State
    requires Enabled(s, step)
  {
    match step
    case Go(t, made) =>
      (match PcOf(s, t)
       case Idle => SetPc(s, t, if Created(s.word) then Returning else Swapping)
       case Swapping =>
         if s.word == 0 then SetPc(SetWord(s, CREATING), t, Constructing).(builder := Some(t))
         else SetPc(s, t, Spinning)
       case Spinning => if s.word == CREATING then s else SetPc(s, t, Returning)
       case Constructing => SetPc(s, t, Publishing(made)).(now := s.now.(built := s.now.built + [made]))
       case Publishing(a) =>
         SetPc(SetWord(s, a), t, if s.registers then Registering else Returning)
           .(builder := if s.registers then Some(t) else None)
       case Registering =>
         SetPc(s, t, Returning).(builder := None, callbacks := s.callbacks + 1,
                                 now := s.now.(registrations := s.now.registrations + 1))
       case Returning => SetPc(s, t, Idle).(now := s.now.(returned := s.now.returned + [s.word])))
    case OnExit =>
      s.(word := 0, callbacks := s.callbacks - 1, now := NEW_LIFE,
         past := s.past + [s.now.(deleted := s.now.deleted + [s.word])])
  }

  predicate EnabledAll(s: State, steps: seq<Step>)
    decreases |steps|
  {
    steps == [] || (Enabled(s, steps[0]) && EnabledAll(Next(s, steps[0]), steps[1..]))
  }

  function Run(s: State, steps: seq<Step>): State
    requires EnabledAll(s, steps)
    decreases |steps|
  {
    if steps == [] then s else Run(Next(s, steps[0]), steps[1..])
  }

  /** A run is its steps one after the other. */
  lemma {:induction false} RunGrows(s: State, steps: seq<Step>, step: Step)
    ensures EnabledAll(s, []) && Run(s, []) == s
    ensures EnabledAll(s, steps + [step]) <==> EnabledAll(s, steps) && Enabled(Run(s, steps), step)
    ensures EnabledAll(s, steps + [step]) ==> Run(s, steps + [step]) == Next(Run(s, steps), step)
    decreases |steps|
  {
    if steps == [] {
      assert [] + [step] == [step] && [step][1..] == [];
    } else {
      assert (steps + [step])[1..] == steps[1..] + [step];
      if Enabled(s, steps[0]) { RunGrows(Next(s, steps[0]), steps[1..], step); }
    }
  }

  // ---------------------------------------------------------------- invariant

  /** Where thread t may be, given the word and who is building. */
  predicate PcOk(s: State, t: ThreadId, pc: Pc) {
    match pc
    case Idle => true
    case Swapping => true
    case Spinning => s.word != 0
    case Constructing => s.word == CREATING && s.builder == Some(t) && s.now.built == []
    case Publishing(a) => s.word == CREATING && s.builder == Some(t) && s.now.built == [a] && a != 0 && a != CREATING
    case Registering => s.word != 0 && s.word != CREATING && s.builder == Some(t) && s.registers
    case Returning => s.word != 0 && s.word != CREATING
  }

  predicate LifeOk(s: State) {
    var l := s.now;
    && l.deleted == []
    && (if s.word == 0 then
          l == NEW_LIFE && s.builder == None && s.callbacks == 0
        else if s.word == CREATING then
          l.words == [0, CREATING] && l.returned == [] && l.registrations == 0 && s.callbacks == 0 &&
          s.builder.Some? && (PcOf(s, s.builder.value).Constructing? || PcOf(s, s.builder.value).Publishing?)
        else
          l.words == [0, CREATING, s.word] && l.built == [s.word] &&
          (forall r :: r in l.returned ==> r == s.word) &&
          l.registrations == s.callbacks == (if s.registers && s.builder == None then 1 else 0) &&
          (s.builder.Some? ==> PcOf(s, s.builder.value).Registering?))
  }

  /** A life that ended: one instance built, published, registered and deleted, and nothing else ever returned. */
  predicate Complete(l: Life) {
    && |l.built| == 1
    && l.words == [0, CREATING, l.built[0]]
    && l.deleted == l.built
    && l.registrations == 1
    && forall r :: r in l.returned ==> r == l.built[0]
  }

  ghost predicate Inv(s: State) {
    && (forall t :: t in s.pcs ==> PcOk(s, t, s.pcs[t]))
    && LifeOk(s)
    && (forall l :: l in s.past ==> Complete(l))
    && (s.past != [] ==> s.registers)
  }

  /** The step of one thread leaves every other thread where it may be. */
  lemma {:induction false} GoOthers(s: State, t: ThreadId, made: Word, u: ThreadId)
    requires Inv(s) && Enabled(s, Go(t, made)) && u != t && u in s.pcs
    ensures PcOk(Next(s, Go(t, made)), u, s.pcs[u])
  {
    assert PcOk(s, t, PcOf(s, t));
    assert PcOk(s, u, s.pcs[u]);
  }

  lemma {:induction false} GoSelf(s: State, t: ThreadId, made: Word)
    requires Inv(s) && Enabled(s, Go(t, made))
    ensures PcOk(Next(s, Go(t, made)), t, PcOf(Next(s, Go(t, made)), t))
  {
    assert PcOk(s, t, PcOf(s, t));
  }

  lemma {:induction false} GoFrame(s: State, t: ThreadId, made: Word)
    requires Enabled(s, Go(t, made))
    ensures var s' := Next(s, Go(t, made));
      && s'.past == s.past && s'.registers == s.registers
      && forall u :: u != t ==> (u in s'.pcs <==> u in s.pcs) && PcOf(s', u) == PcOf(s, u)
  {
  }

  /** A step that leaves the word, the counts and the builder alone. */
  lemma {:induction false} GoLifeQuiet(s: State, t: ThreadId, made: Word)
    requires Inv(s) && Enabled(s, Go(t, made))
    requires PcOf(s, t).Idle? || (PcOf(s, t).Swapping? && s.word != 0) || PcOf(s, t).Spinning?
    ensures LifeOk(Next(s, Go(t, made)))
  {
  }

  lemma {:induction false} GoLifeBuild(s: State, t: ThreadId, made: Word)
    requires Inv(s) && Enabled(s, Go(t, made))
    requires (PcOf(s, t).Swapping? && s.word == 0) || PcOf(s, t).Constructing?
    ensures LifeOk(Next(s, Go(t, made)))
  {
    assert PcOk(s, t, PcOf(s, t));
  }

  lemma {:induction false} GoLifePublish(s: State, t: ThreadId, made: Word)
    requires Inv(s) && Enabled(s, Go(t, made)) && (PcOf(s, t).Publishing? || PcOf(s, t).Registering?)
    ensures LifeOk(Next(s, Go(t, made)))
  {
    assert PcOk(s, t, PcOf(s, t));
  }

  lemma {:induction false} GoLifeReturn(s: State, t: ThreadId, made: Word)
    requires Inv(s) && Enabled(s, Go(t, made)) && PcOf(s, t).Returning?
    ensures LifeOk(Next(s, Go(t, made)))
  {
    assert PcOk(s, t, PcOf(s, t));
  }

  lemma {:induction false} GoLife(s: State, t: ThreadId, made: Word)
    requires Inv(s) && Enabled(s, Go(t, made))
    ensures LifeOk(Next(s, Go(t, made)))
  {
    match PcOf(s, t) {
      case Idle => GoLifeQuiet(s, t, made);
      case Swapping => if s.word == 0 { GoLifeBuild(s, t, made); } else { GoLifeQuiet(s, t, made); }
      case Spinning => GoLifeQuiet(s, t, made);
      case Constructing => GoLifeBuild(s, t, made);
      case Publishing(_) => GoLifePublish(s, t, made);
      case Registering => GoLifePublish(s, t, made);
      case Returning => GoLifeReturn(s, t, made);
    }
  }

  lemma {:induction false} GoPcs(s: State, t: ThreadId, made: Word, u: ThreadId)
    requires Inv(s) && Enabled(s, Go(t, made)) && u in Next(s, Go(t, made)).pcs
    ensures PcOk(Next(s, Go(t, made)), u, Next(s, Go(t, made)).pcs[u])
  {
    GoFrame(s, t, made);
    if u == t { GoSelf(s, t, made); } else { GoOthers(s, t, made, u); }
  }

  lemma {:induction false} GoOk(s: State, t: ThreadId, made: Word)
    requires Inv(s) && Enabled(s, Go(t, made))
    ensures Inv(Next(s, Go(t, made)))
  {
    GoFrame(s, t, made);
    GoLife(s, t, made);
    forall u | u in Next(s, Go(t, made)).pcs
      ensures PcOk(Next(s, Go(t, made)), u, Next(s, Go(t, made)).pcs[u])
    {
      GoPcs(s, t, made, u);
    }
  }

  lemma {:induction false} OnExitOk(s: State)
    requires Inv(s) && Enabled(s, OnExit)
    ensures Inv(Next(s, OnExit))
  {
    if s.builder.Some? { assert false; }
  }

  lemma {:induction false} RunOk(s: State, steps: seq<Step>)
    requires Inv(s) && EnabledAll(s, steps)
    ensures Inv(Run(s, steps)) && Run(s, steps).registers == s.registers
    decreases |steps|
  {
    if steps != [] {
      match steps[0] {
        case Go(t, made) => GoOk(s, t, made);
        case OnExit => OnExitOk(s);
      }
      RunOk(Next(s, steps[0]), steps[1..]);
    }
  }

  // ---------------------------------------------------------------- main results

  lemma {:induction false} StartOk(registers: bool)
    ensures Inv(Start(registers))
  {
  }

  /**
    In any interleaving, within each lifetime: the word only moves 0, creating, address; New runs at most once;
    no call returns before publication; and every call returns the address that was published.
  */
  lemma {:induction false} CreatedOnce(registers: bool, steps: seq<Step>)
    requires EnabledAll(Start(registers), steps)
    ensures var l := Run(Start(registers), steps).now;
      && |l.built| <= 1
      && (l.words == [0] || l.words == [0, CREATING] || (|l.built| == 1 && l.words == [0, CREATING, l.built[0]]))
      && (l.returned != [] ==> |l.words| == 3)
      && forall r :: r in l.returned ==> r == l.built[0]
    ensures forall l :: l in Run(Start(registers), steps).past ==> Complete(l)
  {
    StartOk(registers);
    RunOk(Start(registers), steps);
    var s := Run(Start(registers), steps);
    if s.word == CREATING { assert PcOk(s, s.builder.value, s.pcs[s.builder.value]); }
  }

  /** Once no thread is inside Pointer(), a registering instance was registered exactly as often as it was built. */
  lemma {:induction false} RegisteredOnce(registers: bool, steps: seq<Step>)
    requires EnabledAll(Start(registers), steps) && Quiet(Run(Start(registers), steps))
    ensures var s := Run(Start(registers), steps);
      s.now.registrations == s.callbacks == if registers then |s.now.built| else 0
  {
    StartOk(registers);
    RunOk(Start(registers), steps);
    if Run(Start(registers), steps).builder.Some? { assert false; }
  }

  // ---------------------------------------------------------------- waiting

  /** Thread t is in the wait loop in every state of the run. */
  predicate KeepsWaiting(s: State, steps: seq<Step>, t: ThreadId)
    requires EnabledAll(s, steps)
    decreases |steps|
  {
    PcOf(s, t).Spinning? && (steps != [] ==> KeepsWaiting(Next(s, steps[0]), steps[1..], t))
  }

  /** How many of the steps are taken by thread b. */
  function StepsOf(steps: seq<Step>, b: ThreadId): nat {
    if steps == [] then 0 else (if steps[0].Go? && steps[0].t == b then 1 else 0) + StepsOf(steps[1..], b)
  }

  /** How many steps the builder needs to publish. */
  function Needed(s: State): nat {
    if Created(s.word) || s.builder.None? then 0
    else match PcOf(s, s.builder.value)
      case Constructing => 2
      case _ => 1
  }

  /** While somebody waits, the builder stays who it is, and each of its steps brings it nearer to publication. */
  lemma {:induction false} BuilderGoesOn(s: State, u: ThreadId, made: Word)
    requires Inv(s) && Enabled(s, Go(u, made)) && s.word == CREATING
    ensures s.builder.Some?
    ensures var s' := Next(s, Go(u, made));
      if u == s.builder.value then Needed(s') + 1 == Needed(s) && (Created(s'.word) || s'.builder == s.builder)
      else s'.word == CREATING && s'.builder == s.builder && Needed(s') == Needed(s)
    ensures Next(s, Go(u, made)).word != 0
  {
    assert PcOk(s, u, PcOf(s, u));
    GoFrame(s, u, made);
  }

  lemma {:induction false} CreatedStays(s: State, u: ThreadId, made: Word)
    requires Inv(s) && Enabled(s, Go(u, made)) && Created(s.word)
    ensures Next(s, Go(u, made)).word == s.word
  {
    assert PcOk(s, u, PcOf(s, u));
  }

  lemma {:induction false} BuilderGetsThere(s: State, more: seq<Step>, t: ThreadId, b: ThreadId)
    requires Inv(s) && EnabledAll(s, more) && KeepsWaiting(s, more, t)
    requires Created(s.word) || (s.word == CREATING && s.builder == Some(b) && StepsOf(more, b) >= Needed(s))
    ensures Created(Run(s, more).word)
    decreases |more|
  {
    if more != [] {
      assert t in s.pcs;
      match more[0] {
        case OnExit => assert false;
        case Go(u, made) =>
          GoOk(s, u, made);
          if Created(s.word) { CreatedStays(s, u, made); } else { BuilderGoesOn(s, u, made); }
          BuilderGetsThere(Next(s, more[0]), more[1..], t, b);
      }
    }
  }

  lemma {:induction false} ReturnsPublished(s: State, t: ThreadId, made: Word)
    requires Inv(s) && PcOf(s, t).Spinning? && Created(s.word) && Enabled(s, Go(t, made))
    ensures PcOf(Next(s, Go(t, made)), t) == Returning
    ensures Next(Next(s, Go(t, made)), Go(t, made)).now.returned == s.now.returned + [s.word]
    ensures s.now.built == [s.word]
  {
    GoFrame(s, t, made);
  }

  /**
    Nobody spins for ever: while a thread waits some other thread is building, and after any continuation in which
    that thread takes two steps, whatever the others do in between, the address is published, and the next two steps
    of a thread that still waits leave the loop and return it.
  */
  lemma {:induction false} SpinningEnds(
      registers: bool, steps: seq<Step>, more: seq<Step>, t: ThreadId, made: Word)
    requires EnabledAll(Start(registers), steps) && Enabled(Start(registers), Go(t, made))
    requires EnabledAll(Run(Start(registers), steps), more) && KeepsWaiting(Run(Start(registers), steps), more, t)
    ensures var s := Run(Start(registers), steps);
      Created(s.word) || (s.builder.Some? && s.builder.value != t)
    ensures var s := Run(Start(registers), steps);
      var s1 := Run(s, more);
      Created(s.word) || StepsOf(more, s.builder.value) >= 2 ==>
        && Created(s1.word) && s1.now.built == [s1.word]
        && PcOf(Next(s1, Go(t, made)), t) == Returning
        && Next(Next(s1, Go(t, made)), Go(t, made)).now.returned == s1.now.returned + [s1.word]
  {
    StartOk(registers);
    RunOk(Start(registers), steps);
    var s := Run(Start(registers), steps);
    assert PcOk(s, t, PcOf(s, t));
    if !Created(s.word) {
      assert PcOk(s, s.builder.value, s.pcs[s.builder.value]);
    }
    if Created(s.word) || StepsOf(more, s.builder.value) >= 2 {
      BuilderGetsThere(s, more, t, if Created(s.word) then t else s.builder.value);
      StillWaits(s, more, t);
      RunOk(s, more);
      ReturnsPublished(Run(s, more), t, made);
    }
  }

  lemma {:induction false} StillWaits(s: State, more: seq<Step>, t: ThreadId)
    requires EnabledAll(s, more) && KeepsWaiting(s, more, t)
    ensures PcOf(Run(s, more), t).Spinning?
    decreases |more|
  {
    if more != [] { StillWaits(Next(s, more[0]), more[1..], t); }
  }

  // ---------------------------------------------------------------- every call gets somewhere

  /** An upper bound for the steps a call still has to take, apart from waiting. */
  function Left(pc: Pc): nat {
    match pc
    case Idle => 0
    case Swapping => 5
    case Constructing => 4
    case Publishing(_) => 3
    case Registering => 2
    case Spinning => 2
    case Returning => 1
  }

  /** As long as there is no instance, the first thread to swap becomes its builder. */
  lemma {:induction false} SwapWins(registers: bool, steps: seq<Step>, t: ThreadId, made: Word)
    requires EnabledAll(Start(registers), steps) && Enabled(Start(registers), Go(t, made))
    requires Run(Start(registers), steps).word == 0 && PcOf(Run(Start(registers), steps), t).Swapping?
    ensures var s' := Next(Run(Start(registers), steps), Go(t, made));
      s'.word == CREATING && s'.builder == Some(t) && PcOf(s', t).Constructing?
  {
    StartOk(registers);
    RunOk(Start(registers), steps);
  }

  /**
    In every reachable state each step of a call brings it nearer to its end, unless it waits for a builder; and its
    last step returns the one address that was built.
  */
  lemma {:induction false} StepForward(registers: bool, steps: seq<Step>, t: ThreadId, made: Word)
    requires EnabledAll(Start(registers), steps) && Enabled(Start(registers), Go(t, made))
    ensures var s := Run(Start(registers), steps);
      var s' := Next(s, Go(t, made));
      match PcOf(s, t)
      case Idle => !PcOf(s', t).Idle?
      case Returning =>
        PcOf(s', t).Idle? && s.now.built == [s.word] && s'.now.returned == s.now.returned + [s.word]
      case _ =>
        && !PcOf(s', t).Idle?
        && (Left(PcOf(s', t)) < Left(PcOf(s, t)) || (PcOf(s, t).Spinning? && s.word == CREATING && s' == s))
  {
    StartOk(registers);
    RunOk(Start(registers), steps);
    assert PcOk(Run(Start(registers), steps), t, PcOf(Run(Start(registers), steps), t));
  }

  /** Thread t takes n steps and no other does anything. */
  function Alone(s: State, t: ThreadId, made: Word, n: nat): State
    requires Enabled(s, Go(t, made))
    decreases n
  {
    if n == 0 then s else Alone(Next(s, Go(t, made)), t, made, n - 1)
  }

  /** In every lifetime, a thread that finds no instance and is left alone builds one, and returns it. */
  lemma {:induction false} AloneBuilds(registers: bool, steps: seq<Step>, t: ThreadId, made: Word)
    requires EnabledAll(Start(registers), steps) && Enabled(Start(registers), Go(t, made))
    requires Quiet(Run(Start(registers), steps)) && Run(Start(registers), steps).word == 0
    ensures var s := Run(Start(registers), steps);
      var s' := Alone(s, t, made, if registers then 6 else 5);
      && Quiet(s') && s'.word == made && s'.past == s.past && s'.callbacks == (if registers then 1 else 0)
      && s'.now == Life([0, CREATING, made], [made], [made], if registers then 1 else 0, [])
  {
    StartOk(registers);
    RunOk(Start(registers), steps);
    var s := Run(Start(registers), steps);
    AloneToPublishing(s, t, made);
    AloneFromPublishing(Alone(s, t, made, 3), t, made);
    AloneOn(s, t, made, 3, if registers then 3 else 2);
  }

  lemma {:induction false} AloneOn(s: State, t: ThreadId, made: Word, m: nat, n: nat)
    requires Enabled(s, Go(t, made))
    ensures Alone(Alone(s, t, made, m), t, made, n) == Alone(s, t, made, m + n)
    decreases m
  {
    if m > 0 { AloneOn(Next(s, Go(t, made)), t, made, m - 1, n); }
  }

  lemma {:induction false} AloneToPublishing(s: State, t: ThreadId, made: Word)
    requires Inv(s) && Enabled(s, Go(t, made)) && Quiet(s) && s.word == 0
    ensures var s' := Alone(s, t, made, 3);
      && s'.pcs == s.pcs[t := Publishing(made)] && s'.word == CREATING && s'.registers == s.registers
      && s'.callbacks == 0 && s'.past == s.past && s'.now == Life([0, CREATING], [made], [], 0, [])
  {
    var g := Go(t, made);
    var s1 := Next(s, g);
    var s2 := Next(s1, g);
    var s3 := Next(s2, g);
    assert Alone(s, t, made, 3) == Alone(s1, t, made, 2) == Alone(s2, t, made, 1) == Alone(s3, t, made, 0);
  }

  lemma {:induction false} AloneFromPublishing(s: State, t: ThreadId, made: Word)
    requires Enabled(s, Go(t, made)) && PcOf(s, t) == Publishing(made) && s.callbacks == 0
    requires s.now == Life([0, CREATING], [made], [], 0, [])
    ensures var s' := Alone(s, t, made, if s.registers then 3 else 2);
      && s'.pcs == s.pcs[t := Idle] && s'.word == made && s'.past == s.past
      && s'.callbacks == (if s.registers then 1 else 0)
      && s'.now == Life([0, CREATING, made], [made], [made], if s.registers then 1 else 0, [])
  {
    var g := Go(t, made);
    var s1 := Next(s, g);
    var s2 := Next(s1, g);
    if s.registers {
      var s3 := Next(s2, g);
      assert Alone(s, t, made, 3) == Alone(s1, t, made, 2) == Alone(s2, t, made, 1) == Alone(s3, t, made, 0);
    } else {
      assert Alone(s, t, made, 2) == Alone(s1, t, made, 1) == Alone(s2, t, made, 0);
    }
  }

  /** And one that finds the instance returns it in two steps and builds nothing. */
  lemma {:induction false} AloneReturns(registers: bool, steps: seq<Step>, t: ThreadId, made: Word)
    requires EnabledAll(Start(registers), steps) && Enabled(Start(registers), Go(t, made))
    requires Quiet(Run(Start(registers), steps)) && Run(Start(registers), steps).word != 0
    ensures var s := Run(Start(registers), steps);
      var s' := Alone(s, t, made, 2);
      Quiet(s') && s'.word == s.word && s'.now == s.now.(returned := s.now.returned + [s.word])
  {
    StartOk(registers);
    RunOk(Start(registers), steps);
    var s := Run(Start(registers), steps);
    if s.word == CREATING { assert false; }
    var s1 := Next(s, Go(t, made));
    var s2 := Next(s1, Go(t, made));
    assert Alone(s, t, made, 2) == Alone(s1, t, made, 1) == Alone(s2, t, made, 0);
  }

  /** In every lifetime of a registering instance, once it is built and nobody is inside Pointer(), at-exit ends it. */
  lemma {:induction false} LivesAgain(steps: seq<Step>)
    requires EnabledAll(Start(true), steps)
    requires Quiet(Run(Start(true), steps)) && Run(Start(true), steps).word != 0
    ensures Enabled(Run(Start(true), steps), OnExit)
    ensures var s := Run(Start(true), steps);
      var s' := Next(s, OnExit);
      && Quiet(s') && s'.word == 0 && s'.now == Life([0], [], [], 0, []) && s'.callbacks == 0
      && s'.past == s.past + [s.now.(deleted := [s.word])]
  {
    StartOk(true);
    RunOk(Start(true), steps);
    var s := Run(Start(true), steps);
    if s.word == CREATING { assert false; }
    assert s.builder == None;
    assert s.now.deleted + [s.word] == [s.word];
  }

  /** Any two steps of a thread count. */
  lemma {:induction false} TwoSteps(steps: seq<Step>, b: ThreadId, i: nat, j: nat)
    requires i < j < |steps| && steps[i].Go? && steps[i].t == b && steps[j].Go? && steps[j].t == b
    ensures StepsOf(steps, b) >= 2
  {
    if i > 0 { TwoSteps(steps[1..], b, i - 1, j - 1); } else { OneStep(steps[1..], b, j - 1); }
  }

  lemma {:induction false} OneStep(steps: seq<Step>, b: ThreadId, j: nat)
    requires j < |steps| && steps[j].Go? && steps[j].t == b
    ensures StepsOf(steps, b) >= 1
  {
    if j > 0 { OneStep(steps[1..], b, j - 1); }
  }
}
