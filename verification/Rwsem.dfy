/** The read-write semaphore of `hexahedron/lock/rwsem.c` as a step machine.

Every transition of a thread is one atomic operation on one of the two shared
words (a load, a compare-and-swap, a fetch-and-op) or a purely local move.  Any
number of threads below 2^31 take steps in any order; atomics are sequentially
consistent.  A weak compare-and-swap may fail although the word matches. */
module Rwsem {

  // The state word has 32 bits: bit 31 is the writer, the other 31 count readers.
  const WRITER_BIT: nat := 0x8000_0000
  type Word = w: nat | w < 0x1_0000_0000

  predicate WriterActive(word: Word) { word >= WRITER_BIT }

  function ReadersActive(word: Word): nat { if WriterActive(word) then word - WRITER_BIT else word }

  function SetWriter(word: Word): Word { if WriterActive(word) then word else word + WRITER_BIT }

  function ClearWriter(word: Word): Word { ReadersActive(word) }

  function Incremented(word: Word): Word { if word == 0xFFFF_FFFF then 0 else word + 1 }

  function Decremented(word: Word): Word { if word == 0 then 0xFFFF_FFFF else word - 1 }

  // Program counters.  `once` marks the try variants, which give up instead of sleeping.
  datatype Pc =
    | Idle
    | ReadLoad(once: bool)            // about to load the state word
    | ReadGate(seen: Word, once: bool)  // about to test the loaded word and writers_waiting
    | ReadSleep                       // parked on the reader queue
    | ReadCas(seen: Word, once: bool)   // about to compare-and-swap seen -> seen + 1
    | Reading
    | EndReadLoad                     // finishRead: about to load
    | EndReadCas(seen: Word)            // finishRead: about to compare-and-swap seen -> seen - 1
    | EndReadWake                     // finishRead: about to decide on a wakeup
    | WriteRaise(once: bool)          // about to increment writers_waiting
    | WriteLoad(once: bool)
    | WriteTest(seen: Word, once: bool)
    | WriteSleep                      // parked on the writer queue
    | WriteCas(seen: Word, once: bool)
    | WriteLower                      // owns the lock, about to decrement writers_waiting
    | Writing
    | EndWrite                        // finishWrite: about to clear the writer bit
    | EndWriteWake                    // finishWrite: about to decide on a wakeup

  /** The two shared words.  `leaks` counts the tryStartWrite calls that returned
      -EBUSY; no step reads it. */
  datatype Shared = Shared(word: Word, waiting: int, leaks: nat)

  datatype State = State(sh: Shared, pcs: seq<Pc>)

  predicate HoldsRead(pc: Pc) { pc.Reading? || pc.EndReadLoad? || pc.EndReadCas? }

  predicate HoldsWrite(pc: Pc) { pc.WriteLower? || pc.Writing? || pc.EndWrite? }

  // Between the increment and the decrement of writers_waiting.
  predicate Raised(pc: Pc) {
    pc.WriteLoad? || pc.WriteTest? || pc.WriteSleep? || pc.WriteCas? || pc.WriteLower?
  }

  // Past the reader gate.
  predicate Admitted(pc: Pc) { pc.ReadCas? || HoldsRead(pc) }

  function One(b: bool): nat { if b then 1 else 0 }

  function Count(pcs: seq<Pc>, p: Pc -> bool): nat {
    if pcs == [] then 0 else One(p(pcs[0])) + Count(pcs[1..], p)
  }

  predicate Init(s: State) {
    s.sh == Shared(0, 0, 0) && |s.pcs| < WRITER_BIT &&
    forall t :: 0 <= t < |s.pcs| ==> s.pcs[t] == Idle
  }

  /** One atomic step of a thread at `pc`, which moves to `pc'`. */
  predicate Atomic(pc: Pc, sh: Shared, pc': Pc, sh': Shared) {
    match pc
    case Idle => sh' == sh && (pc'.ReadLoad? || pc'.WriteRaise?)
    case ReadLoad(once) => sh' == sh && pc' == ReadGate(sh.word, once)
    case ReadGate(seen, once) =>
      sh' == sh &&
      pc' == if WriterActive(seen) || sh.waiting > 0
             then if once then Idle else ReadSleep
             else ReadCas(seen, once)
    case ReadSleep => sh' == sh && pc' == ReadLoad(false)
    case ReadCas(seen, once) =>
      || (sh' == sh && pc' == ReadLoad(once))
      || (sh.word == seen && sh' == sh.(word := Incremented(seen)) && pc' == Reading)
    case Reading => sh' == sh && pc' == EndReadLoad
    case EndReadLoad => sh' == sh && pc' == EndReadCas(sh.word)
    case EndReadCas(seen) =>
      || (sh' == sh && pc' == EndReadLoad)
      || (sh.word == seen && sh' == sh.(word := Decremented(seen)) && pc' == EndReadWake)
    case EndReadWake => sh' == sh && pc' == Idle
    case WriteRaise(once) => sh' == sh.(waiting := sh.waiting + 1) && pc' == WriteLoad(once)
    case WriteLoad(once) => sh' == sh && pc' == WriteTest(sh.word, once)
    case WriteTest(seen, once) =>
      if WriterActive(seen) || ReadersActive(seen) > 0
      then if once then sh' == sh.(leaks := sh.leaks + 1) && pc' == Idle else sh' == sh && pc' == WriteSleep
      else sh' == sh && pc' == WriteCas(seen, once)
    case WriteSleep => sh' == sh && pc' == WriteLoad(false)
    case WriteCas(seen, once) =>
      || (sh' == sh && pc' == WriteLoad(once))
      || (sh.word == seen && sh' == sh.(word := SetWriter(seen)) && pc' == WriteLower)
    case WriteLower => sh' == sh.(waiting := sh.waiting - 1) && pc' == Writing
    case Writing => sh' == sh && pc' == EndWrite
    case EndWrite => sh' == sh.(word := ClearWriter(sh.word)) && pc' == EndWriteWake
    case EndWriteWake => sh' == sh && pc' == Idle
  }

  /** Thread `t` takes a step; the others stand still. */
  predicate Step(s: State, t: nat, s': State)
    requires t < |s.pcs|
  {
    |s'.pcs| == |s.pcs| && s'.pcs == s.pcs[t := s'.pcs[t]] && Atomic(s.pcs[t], s.sh, s'.pcs[t], s'.sh)
  }

  // A pair of consecutive states of a run.
  ghost predicate Next(s: State, s': State) {
    exists t: nat :: t < |s.pcs| && Step(s, t, s')
  }

  ghost predicate Run(tr: seq<State>) {
    |tr| > 0 && forall i :: 0 <= i < |tr| - 1 ==> Next(tr[i], tr[i + 1])
  }

  // What a loaded word promises while it waits for its compare-and-swap.
  predicate LocalOk(pc: Pc) {
    (pc.ReadCas? ==> !WriterActive(pc.seen)) && (pc.WriteCas? ==> pc.seen == 0)
  }

  // The word and writers_waiting, given how many threads hold or want the lock.
  predicate Tallied(s: Shared, readers: nat, writers: nat, raised: nat) {
    && s.word == readers + WRITER_BIT * writers
    && writers <= 1
    && (writers == 1 ==> readers == 0)
    && s.waiting == raised + s.leaks
  }

  ghost predicate Inv(s: State) {
    && |s.pcs| < WRITER_BIT
    && Tallied(s.sh, Count(s.pcs, HoldsRead), Count(s.pcs, HoldsWrite), Count(s.pcs, Raised))
    && forall t :: 0 <= t < |s.pcs| ==> LocalOk(s.pcs[t])
  }

  /** Moving one thread changes a count by what that thread contributed. */
  lemma {:induction false} CountMove(pcs: seq<Pc>, t: nat, pc: Pc, p: Pc -> bool)
    requires t < |pcs|
    ensures Count(pcs[t := pc], p) + One(p(pcs[t])) == Count(pcs, p) + One(p(pc))
  {
    if t == 0 {
      assert pcs[t := pc][1..] == pcs[1..];
    } else {
      assert pcs[t := pc][1..] == pcs[1..][t - 1 := pc];
      CountMove(pcs[1..], t - 1, pc, p);
    }
  }

  /** A count never exceeds the threads, and a thread outside leaves room. */
  lemma {:induction false} CountBound(pcs: seq<Pc>, t: nat, p: Pc -> bool)
    requires t < |pcs|
    ensures Count(pcs, p) <= |pcs|
    ensures p(pcs[t]) ==> Count(pcs, p) >= 1
    ensures !p(pcs[t]) ==> Count(pcs, p) < |pcs|
  {
    if |pcs| > 1 {
      if t == 0 { CountBound(pcs[1..], 0, p); } else { CountBound(pcs[1..], t - 1, p); }
    }
  }

  /** Two distinct threads in a class make its count at least two. */
  lemma {:induction false} CountPair(pcs: seq<Pc>, i: nat, j: nat, p: Pc -> bool)
    requires i < j < |pcs| && p(pcs[i]) && p(pcs[j])
    ensures Count(pcs, p) >= 2
  {
    if i == 0 { CountBound(pcs[1..], j - 1, p); } else { CountPair(pcs[1..], i - 1, j - 1, p); }
  }

  lemma {:induction false} CountNone(pcs: seq<Pc>, p: Pc -> bool)
    requires forall t :: 0 <= t < |pcs| ==> !p(pcs[t])
    ensures Count(pcs, p) == 0
  {
    if pcs != [] { CountNone(pcs[1..], p); }
  }

  /** What a step does to the shared words, in terms of what its thread held before and after. */
  lemma {:induction false} AtomicTallied(pc: Pc, sh: Shared, pc': Pc, sh': Shared, readers: nat, writers: nat,
                                         raised: nat)
    requires Atomic(pc, sh, pc', sh') && LocalOk(pc) && Tallied(sh, readers, writers, raised)
    requires One(HoldsRead(pc)) <= readers < WRITER_BIT - One(!HoldsRead(pc))
    requires One(HoldsWrite(pc)) <= writers && One(Raised(pc)) <= raised
    ensures LocalOk(pc')
    ensures Tallied(sh', readers - One(HoldsRead(pc)) + One(HoldsRead(pc')),
                    writers - One(HoldsWrite(pc)) + One(HoldsWrite(pc')),
                    raised - One(Raised(pc)) + One(Raised(pc')))
  {
  }

  /** Every atomic step keeps the word equal to readers + 2^31 * writers. */
  lemma {:induction false} StepKeepsInv(s: State, t: nat, s': State)
    requires Inv(s) && t < |s.pcs| && Step(s, t, s')
    ensures Inv(s') && |s'.pcs| == |s.pcs|
  {
    CountBound(s.pcs, t, HoldsRead);
    CountBound(s.pcs, t, HoldsWrite);
    CountBound(s.pcs, t, Raised);
    AtomicTallied(s.pcs[t], s.sh, s'.pcs[t], s'.sh,
                  Count(s.pcs, HoldsRead), Count(s.pcs, HoldsWrite), Count(s.pcs, Raised));
    CountMove(s.pcs, t, s'.pcs[t], HoldsRead);
    CountMove(s.pcs, t, s'.pcs[t], HoldsWrite);
    CountMove(s.pcs, t, s'.pcs[t], Raised);
  }

  /** Every reachable state satisfies the invariant. */
  lemma {:induction false} RunKeepsInv(tr: seq<State>)
    requires Run(tr) && Init(tr[0])
    ensures Inv(tr[|tr| - 1])
  {
    if |tr| == 1 {
      CountNone(tr[0].pcs, HoldsRead);
      CountNone(tr[0].pcs, HoldsWrite);
      CountNone(tr[0].pcs, Raised);
    } else {
      var front := tr[..|tr| - 1];
      assert Next(tr[|tr| - 2], tr[|tr| - 1]);
      RunKeepsInv(front);
      var t: nat :| t < |tr[|tr| - 2].pcs| && Step(tr[|tr| - 2], t, tr[|tr| - 1]);
      StepKeepsInv(tr[|tr| - 2], t, tr[|tr| - 1]);
    }
  }

  /** Safety over whole runs: a thread that holds the lock for writing excludes
      every other holder, and the word tells exactly how many hold it. */
  lemma {:induction false} MutualExclusion(tr: seq<State>, i: nat, j: nat)
    requires Run(tr) && Init(tr[0])
    requires i < |tr[|tr| - 1].pcs| && j < |tr[|tr| - 1].pcs| && i != j
    requires HoldsWrite(tr[|tr| - 1].pcs[i])
    ensures !HoldsWrite(tr[|tr| - 1].pcs[j]) && !HoldsRead(tr[|tr| - 1].pcs[j])
    ensures tr[|tr| - 1].sh.word == WRITER_BIT
  {
    var s := tr[|tr| - 1];
    RunKeepsInv(tr);
    CountBound(s.pcs, i, HoldsWrite);
    CountBound(s.pcs, j, HoldsRead);
    if HoldsWrite(s.pcs[j]) {
      CountPair(s.pcs, if i < j then i else j, if i < j then j else i, HoldsWrite);
    }
  }

  // While writers_waiting is raised no thread is admitted, and leaks only grow.
  lemma {:induction false} AtomicBlocked(pc: Pc, sh: Shared, pc': Pc, sh': Shared)
    requires Atomic(pc, sh, pc', sh')
    ensures sh'.leaks >= sh.leaks && (sh.waiting > 0 && !Admitted(pc) ==> !Admitted(pc'))
  {
  }

  lemma {:induction false} StepBlocked(s: State, u: nat, s': State, t: nat)
    requires Inv(s) && s.sh.leaks > 0 && u < |s.pcs| && Step(s, u, s') && t < |s.pcs| && !Admitted(s.pcs[t])
    ensures s'.sh.leaks > 0 && |s'.pcs| == |s.pcs| && !Admitted(s'.pcs[t])
  {
    hide Atomic;
    AtomicBlocked(s.pcs[u], s.sh, s'.pcs[u], s'.sh);
  }

  /** A failed tryStartWrite never lowers writers_waiting, so once one has happened
      no step of any later run lets a new reader through the gate. */
  lemma {:induction false} FailedTryBlocksReaders(tr: seq<State>, t: nat)
    requires Run(tr) && Inv(tr[0]) && tr[0].sh.leaks > 0
    requires t < |tr[0].pcs| && !Admitted(tr[0].pcs[t])
    ensures Inv(tr[|tr| - 1]) && tr[|tr| - 1].sh.leaks > 0
    ensures |tr[|tr| - 1].pcs| == |tr[0].pcs| && !Admitted(tr[|tr| - 1].pcs[t])
  {
    if |tr| > 1 {
      hide Inv, Step;
      var s, s' := tr[|tr| - 2], tr[|tr| - 1];
      FailedTryBlocksReaders(tr[..|tr| - 1], t);
      assert Next(s, s');
      var u: nat :| u < |s.pcs| && Step(s, u, s');
      StepKeepsInv(s, u, s');
      StepBlocked(s, u, s', t);
    }
  }

  // ---------- exactly when readers stay admissible ----------

  /** The step in which a tryStartWrite finds the lock taken and returns -EBUSY. */
  ghost predicate FailsTry(s: State, t: nat, s': State) {
    t < |s.pcs| && Step(s, t, s') && s.pcs[t].WriteTest? && s.pcs[t].once && s'.pcs[t] == Idle
  }

  ghost predicate FailedTry(s: State, s': State) { exists t: nat :: FailsTry(s, t, s') }

  /** How many tryStartWrite calls failed during a run. */
  ghost function FailedTries(tr: seq<State>): nat {
    if |tr| <= 1 then 0
    else FailedTries(tr[..|tr| - 1]) + One(FailedTry(tr[|tr| - 2], tr[|tr| - 1]))
  }

  lemma {:induction false} AtomicLeaks(pc: Pc, sh: Shared, pc': Pc, sh': Shared)
    requires Atomic(pc, sh, pc', sh')
    ensures sh'.leaks == sh.leaks + One(pc.WriteTest? && pc.once && pc' == Idle)
    ensures pc.WriteTest? && pc' == Idle ==> pc.once && pc.seen != 0
  {
  }

  // A step that moves a thread does not look like another thread's failure.
  lemma {:induction false} StepLeaks(s: State, t: nat, s': State)
    requires t < |s.pcs| && Step(s, t, s')
    ensures s'.sh.leaks == s.sh.leaks + One(FailedTry(s, s'))
  {
    AtomicLeaks(s.pcs[t], s.sh, s'.pcs[t], s'.sh);
    hide Atomic;
    if FailedTry(s, s') {
      var u: nat :| FailsTry(s, u, s');
      assert u == t || s'.pcs[u] == s.pcs[u];
    } else {
      assert !FailsTry(s, t, s');
    }
  }

  /** The surplus of writers_waiting is exactly the number of failed tries of the run. */
  lemma {:induction false} RunLeaks(tr: seq<State>)
    requires Run(tr) && Init(tr[0])
    ensures tr[|tr| - 1].sh.leaks == FailedTries(tr)
  {
    if |tr| > 1 {
      hide Step;
      var s, s' := tr[|tr| - 2], tr[|tr| - 1];
      RunLeaks(tr[..|tr| - 1]);
      assert Next(s, s');
      var t: nat :| t < |s.pcs| && Step(s, t, s');
      StepLeaks(s, t, s');
    }
  }

  // No thread is between raising and lowering writers_waiting, and none holds the lock for writing.
  ghost predicate NoWriters(s: State) {
    forall t :: 0 <= t < |s.pcs| ==> !Raised(s.pcs[t]) && !HoldsWrite(s.pcs[t])
  }

  lemma {:induction false} NoWritersTally(tr: seq<State>)
    requires Run(tr) && Init(tr[0]) && NoWriters(tr[|tr| - 1])
    ensures var sh := tr[|tr| - 1].sh; !WriterActive(sh.word) && sh.waiting == FailedTries(tr)
  {
    var s := tr[|tr| - 1];
    RunKeepsInv(tr);
    RunLeaks(tr);
    CountNone(s.pcs, HoldsWrite);
    CountNone(s.pcs, Raised);
    ReadersBelow(s.pcs);
  }

  lemma {:induction false} ReadersBelow(pcs: seq<Pc>)
    ensures Count(pcs, HoldsRead) <= |pcs|
  {
    if pcs != [] { CountBound(pcs, 0, HoldsRead); }
  }

  /** In every reachable state without writers, a reader that starts is admitted by its next two steps if
      and only if no tryStartWrite has ever failed. */
  lemma {:induction false} ReaderAdmittedIff(tr: seq<State>, t: nat, s1: State, s2: State)
    requires Run(tr) && Init(tr[0]) && NoWriters(tr[|tr| - 1])
    requires t < |tr[|tr| - 1].pcs| && tr[|tr| - 1].pcs[t].ReadLoad?
    requires Step(tr[|tr| - 1], t, s1) && Step(s1, t, s2)
    ensures Admitted(s2.pcs[t]) <==> FailedTries(tr) == 0
  {
    NoWritersTally(tr);
  }

  /** So is a reader at the gate that loaded the word without a writer in it. */
  lemma {:induction false} GateOpensIff(tr: seq<State>, t: nat, s': State)
    requires Run(tr) && Init(tr[0]) && NoWriters(tr[|tr| - 1])
    requires t < |tr[|tr| - 1].pcs| && tr[|tr| - 1].pcs[t].ReadGate? && !WriterActive(tr[|tr| - 1].pcs[t].seen)
    requires Step(tr[|tr| - 1], t, s')
    ensures Admitted(s'.pcs[t]) <==> FailedTries(tr) == 0
  {
    NoWritersTally(tr);
  }

  // ---------- one call of tryStartWrite ----------

  /** One step of a thread, between the shared words it found and left. */
  datatype Move = Move(pc: Pc, sh: Shared, pc': Pc, sh': Shared)

  predicate Returned(pc: Pc) { pc == Idle || pc == Writing }

  /** The steps of one tryStartWrite, with anything done by other threads in between. */
  ghost predicate TryCall(ms: seq<Move>) {
    && ms != [] && ms[0].pc == WriteRaise(true)
    && (forall i :: 0 <= i < |ms| ==> Atomic(ms[i].pc, ms[i].sh, ms[i].pc', ms[i].sh'))
    && forall i, j :: 0 <= i < |ms| && j == i + 1 < |ms| ==> ms[j].pc == ms[i].pc' && !Returned(ms[i].pc')
  }

  /** What the call itself did to writers_waiting. */
  function Net(ms: seq<Move>): int {
    if ms == [] then 0 else Net(ms[..|ms| - 1]) + ms[|ms| - 1].sh'.waiting - ms[|ms| - 1].sh.waiting
  }

  /** The word the call loaded last and tested. */
  function Loaded(ms: seq<Move>): Word {
    if ms == [] then 0
    else if ms[|ms| - 1].pc.WriteTest? then ms[|ms| - 1].pc.seen else Loaded(ms[..|ms| - 1])
  }

  // Where a call can be, and what it owes.
  ghost predicate Underway(pc: Pc, net: int, loaded: Word) {
    match pc
    case WriteLoad(once) => once && net == 1
    case WriteTest(_, once) => once && net == 1
    case WriteCas(_, once) => once && net == 1 && loaded == 0
    case WriteLower => net == 1 && loaded == 0
    case Writing => net == 0 && loaded == 0
    case Idle => net == 1 && loaded != 0
    case _ => false
  }

  lemma {:induction false} AtomicUnderway(m: Move, net: int, loaded: Word)
    requires Atomic(m.pc, m.sh, m.pc', m.sh') && !Returned(m.pc)
    requires (m.pc == WriteRaise(true) && net == 0) || Underway(m.pc, net, loaded)
    ensures Underway(m.pc', net + m.sh'.waiting - m.sh.waiting, if m.pc.WriteTest? then m.pc.seen else loaded)
  {
  }

  lemma {:induction false} CallUnderway(ms: seq<Move>, i: nat)
    requires TryCall(ms) && i < |ms|
    ensures Underway(ms[i].pc', Net(ms[..i + 1]), Loaded(ms[..i + 1]))
  {
    hide Atomic, Underway;
    assert ms[..i + 1][..i] == ms[..i] && ms[..i + 1][i] == ms[i];
    if i > 0 {
      CallUnderway(ms, i - 1);
      assert ms[i].pc == ms[i - 1].pc' && !Returned(ms[i - 1].pc');
    }
    assert Atomic(ms[i].pc, ms[i].sh, ms[i].pc', ms[i].sh');
    AtomicUnderway(ms[i], Net(ms[..i]), Loaded(ms[..i]));
  }

  /** A finished tryStartWrite leaves writers_waiting as it found it if and only if the word it loaded was
      0, which is also exactly when it takes the lock. */
  lemma {:induction false} TryRestoresIff(ms: seq<Move>)
    requires TryCall(ms) && Returned(ms[|ms| - 1].pc')
    ensures Net(ms) == 0 <==> Loaded(ms) == 0
    ensures Loaded(ms) == 0 <==> ms[|ms| - 1].pc' == Writing
    ensures Loaded(ms) != 0 ==> Net(ms) == 1
  {
    CallUnderway(ms, |ms| - 1);
    assert ms[..|ms|] == ms;
  }

  // ---------- what a call returns with ----------

  /** The steps of one call of rwsem_startRead, rwsem_startWrite or a try variant, with anything done by other
      threads in between. */
  ghost predicate Call(ms: seq<Move>) {
    && ms != [] && (ms[0].pc.ReadLoad? || ms[0].pc.WriteRaise?)
    && (forall i :: 0 <= i < |ms| ==> Atomic(ms[i].pc, ms[i].sh, ms[i].pc', ms[i].sh'))
    && forall i, j :: 0 <= i < |ms| && j == i + 1 < |ms| ==> ms[j].pc == ms[i].pc' && !Over(ms[i].pc')
  }

  predicate Over(pc: Pc) { pc == Idle || pc == Reading || pc == Writing }

  // Where a call of that kind can be; only the plain variants are on the way through a queue.
  predicate OnTheWay(pc: Pc, read: bool, once: bool) {
    match pc
    case ReadLoad(o) => read && o == once
    case ReadGate(_, o) => read && o == once
    case ReadCas(_, o) => read && o == once
    case ReadSleep => read && !once
    case Reading => read
    case WriteRaise(o) => !read && o == once
    case WriteLoad(o) => !read && o == once
    case WriteTest(_, o) => !read && o == once
    case WriteCas(_, o) => !read && o == once
    case WriteSleep => !read && !once
    case WriteLower => !read
    case Writing => !read
    case Idle => once
    case _ => false
  }

  lemma {:induction false} StaysOnTheWay(m: Move, read: bool, once: bool)
    requires Atomic(m.pc, m.sh, m.pc', m.sh') && OnTheWay(m.pc, read, once) && !Over(m.pc)
    ensures OnTheWay(m.pc', read, once)
  {
  }

  lemma {:induction false} CallOnTheWay(ms: seq<Move>, i: nat)
    requires Call(ms) && i < |ms|
    ensures OnTheWay(ms[i].pc', ms[0].pc.ReadLoad?, ms[0].pc.once)
  {
    hide Atomic;
    if i == 0 {
      StaysOnTheWay(ms[0], ms[0].pc.ReadLoad?, ms[0].pc.once);
    } else {
      CallOnTheWay(ms, i - 1);
      assert ms[i].pc == ms[i - 1].pc' && !Over(ms[i - 1].pc');
      StaysOnTheWay(ms[i], ms[0].pc.ReadLoad?, ms[0].pc.once);
    }
  }

  /** Whatever other threads do in between, a finished call holds the lock it asked for, or, in a try variant
      only, none; and a try variant never sleeps. */
  lemma {:induction false} CallReturns(ms: seq<Move>)
    requires Call(ms) && Over(ms[|ms| - 1].pc')
    ensures var last, read, once := ms[|ms| - 1].pc', ms[0].pc.ReadLoad?, ms[0].pc.once;
            (last == if read then Reading else Writing) || (once && last == Idle)
    ensures ms[0].pc.once ==> forall i :: 0 <= i < |ms| ==> ms[i].pc' != ReadSleep && ms[i].pc' != WriteSleep
  {
    hide Atomic;
    CallOnTheWay(ms, |ms| - 1);
    forall i | 0 <= i < |ms| ensures ms[0].pc.once ==> ms[i].pc' != ReadSleep && ms[i].pc' != WriteSleep {
      CallOnTheWay(ms, i);
    }
  }

  /** A start that finds a writer, or for a reader a waiting writer, or for a writer a reader, gives up in the try
      variants and sleeps in the plain ones, and after the sleep begins again; otherwise it goes for the lock. */
  lemma {:induction false} BusyOutcome(pc: Pc, sh: Shared, pc': Pc, sh': Shared)
    requires Atomic(pc, sh, pc', sh')
    ensures pc.ReadGate? ==>
              var busy := pc.seen >= 0x8000_0000 || sh.waiting > 0;
              pc' == if !busy then ReadCas(pc.seen, pc.once) else if pc.once then Idle else ReadSleep
    ensures pc.WriteTest? ==>
              pc' == if pc.seen == 0 then WriteCas(pc.seen, pc.once) else if pc.once then Idle else WriteSleep
    ensures (pc == ReadSleep ==> pc' == ReadLoad(false)) && (pc == WriteSleep ==> pc' == WriteLoad(false))
  {
  }

  /** The only steps that change the state word: the end of a successful start adds one reader to the word it
      loaded or sets the writer bit in an empty one, and a finish takes the same away again. */
  lemma {:induction false} WordChanges(pc: Pc, sh: Shared, pc': Pc, sh': Shared)
    requires Atomic(pc, sh, pc', sh') && LocalOk(pc)
    ensures pc' == Reading ==> sh.word < 0x8000_0000 && sh'.word == sh.word + 1
    ensures pc' == WriteLower ==> sh.word == 0 && sh'.word == 0x8000_0000
    ensures pc' == EndReadWake && sh.word > 0 ==> sh'.word == sh.word - 1
    ensures pc' == EndWriteWake && sh.word >= 0x8000_0000 ==> sh'.word == sh.word - 0x8000_0000
    ensures pc' !in {Reading, WriteLower, EndReadWake, EndWriteWake} ==> sh'.word == sh.word
  {
  }

  // ---------- a run that leaks ----------

  lemma {:induction false} Extend(tr: seq<State>, t: nat, s': State)
    requires Run(tr) && t < |tr[|tr| - 1].pcs| && Step(tr[|tr| - 1], t, s')
    ensures Run(tr + [s'])
  {
    assert Next(tr[|tr| - 1], s');
    var tr' := tr + [s'];
    forall i | 0 <= i < |tr'| - 1 ensures Next(tr'[i], tr'[i + 1]) {}
  }

  /** One thread takes the lock for reading. */
  lemma {:induction false} ReaderEnters() returns (tr: seq<State>)
    ensures Run(tr) && Init(tr[0]) && tr[|tr| - 1] == State(Shared(1, 0, 0), [Reading, Idle])
  {
    var free := Shared(0, 0, 0);
    tr := [State(free, [Idle, Idle])];
    Extend(tr, 0, State(free, [ReadLoad(false), Idle]));
    tr := tr + [State(free, [ReadLoad(false), Idle])];
    Extend(tr, 0, State(free, [ReadGate(0, false), Idle]));
    tr := tr + [State(free, [ReadGate(0, false), Idle])];
    Extend(tr, 0, State(free, [ReadCas(0, false), Idle]));
    tr := tr + [State(free, [ReadCas(0, false), Idle])];
    Extend(tr, 0, State(Shared(1, 0, 0), [Reading, Idle]));
    tr := tr + [State(Shared(1, 0, 0), [Reading, Idle])];
  }

  /** Another tries to write meanwhile and fails, having raised writers_waiting. */
  lemma {:induction false} TryFails() returns (tr: seq<State>)
    ensures Run(tr) && Init(tr[0]) && tr[|tr| - 1] == State(Shared(1, 1, 1), [Reading, Idle])
  {
    tr := ReaderEnters();
    Extend(tr, 1, State(Shared(1, 0, 0), [Reading, WriteRaise(true)]));
    tr := tr + [State(Shared(1, 0, 0), [Reading, WriteRaise(true)])];
    Extend(tr, 1, State(Shared(1, 1, 0), [Reading, WriteLoad(true)]));
    tr := tr + [State(Shared(1, 1, 0), [Reading, WriteLoad(true)])];
    Extend(tr, 1, State(Shared(1, 1, 0), [Reading, WriteTest(1, true)]));
    tr := tr + [State(Shared(1, 1, 0), [Reading, WriteTest(1, true)])];
    Extend(tr, 1, State(Shared(1, 1, 1), [Reading, Idle]));
    tr := tr + [State(Shared(1, 1, 1), [Reading, Idle])];
  }

  /** With one reader and one failed tryStartWrite, the lock ends up free and unwanted by anyone while
      writers_waiting stays raised. */
  lemma {:induction false} FailedTryLeaks() returns (tr: seq<State>)
    ensures Run(tr) && Init(tr[0]) && tr[|tr| - 1] == State(Shared(0, 1, 1), [Idle, Idle]) && FailedTries(tr) == 1
  {
    tr := TryFails();
    Extend(tr, 0, State(Shared(1, 1, 1), [EndReadLoad, Idle]));
    tr := tr + [State(Shared(1, 1, 1), [EndReadLoad, Idle])];
    Extend(tr, 0, State(Shared(1, 1, 1), [EndReadCas(1), Idle]));
    tr := tr + [State(Shared(1, 1, 1), [EndReadCas(1), Idle])];
    Extend(tr, 0, State(Shared(0, 1, 1), [EndReadWake, Idle]));
    tr := tr + [State(Shared(0, 1, 1), [EndReadWake, Idle])];
    Extend(tr, 0, State(Shared(0, 1, 1), [Idle, Idle]));
    tr := tr + [State(Shared(0, 1, 1), [Idle, Idle])];
    RunLeaks(tr);
  }
}
