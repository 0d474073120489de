// Appenders and readers of the backend running at the same time (crates/tpx-io/src/mmap.rs).
// Each step is one access to shared state: the buffer lock serialises appends and flushes, while a
// reader loads `write_buffer_start` without any lock and reads the file under the file lock only.

module BackendInterleaving {
  import opened Wrappers
  import opened Types
  import opened Backend

  /** Who holds the buffer lock, and how far that thread has come. */
  datatype Lock =
    | Free
    | Reserved(data: Bytes)          // append: `logical_len` advanced
    | Drained(data: Bytes)           // large append: old buffer written out and cleared
    | Direct(data: Bytes)            // large append: data written, start not yet stored
    | Joined(data: Bytes)            // small append: data is in the buffer
    | Spilled(owner: Owner)             // buffer written out, start not yet stored
    | Advanced(owner: Owner)            // start stored, buffer not yet cleared

  datatype Owner = Appender(pending: nat) | Flusher(reader: nat)

  datatype Phase =
    | Started
    | Loaded(wbStart: nat)
    | MustFlush
    | Ready
    | Done(result: Result<Bytes, TpxError>)

  datatype Reader = Reader(offset: nat, len: nat, phase: Phase)

  datatype State = State(
    file: Bytes,
    buffer: Bytes,
    start: nat,
    logicalLen: nat,
    lock: Lock,
    readers: map<nat, Reader>,
    // history: everything reserved so far, and the offset each append was given
    log: Bytes,
    granted: seq<(nat, Bytes)>)

  datatype Step =
    | BeginAppend(data: Bytes)
    | Drain | WriteDirect | StoreDirect
    | Join | Overflow | Release
    | StoreStart | ClearBuffer
    | BeginRead(id: nat, offset: nat, len: nat)
    | LoadStart(id: nat)
    | Decide(id: nat)
    | FlushEmpty(id: nat)
    | FlushWrite(id: nat)
    | ReadFile(id: nat)

  ghost predicate Init(s: State, file: Bytes) {
    s == State(file, [], |file|, |file|, Free, map[], file, [])
  }

  /** Bytes of appends that have not returned yet. */
  function Pending(l: Lock): nat {
    match l
    case Reserved(d) => |d|
    case Drained(d) => |d|
    case Direct(d) => |d|
    case Joined(d) => |d|
    case Spilled(Appender(n)) => n
    case Advanced(Appender(n)) => n
    case _ => 0
  }

  /** Length of the array as seen by callers whose appends have returned. */
  function Returned(s: State): int {
    |s.log| - Pending(s.lock)
  }

  function ReadExact(file: Bytes, offset: nat, len: nat): Result<Bytes, TpxError> {
    if len == 0 then Success([])
    else if offset + len <= |file| then Success(file[offset..offset + len])
    else Failure(TpxError.Io)
  }

  predicate At(s: State, id: nat, phase: Phase) {
    id in s.readers && s.readers[id].phase == phase
  }

  function Move(s: State, id: nat, phase: Phase): State
    requires id in s.readers
  {
    s.(readers := s.readers[id := s.readers[id].(phase := phase)])
  }

  /** What the thread does when it lets go of the lock: a flushing reader may go on to the file. */
  function Unlock(s: State, owner: Owner): State {
    var t := s.(lock := Free);
    match owner
    case Appender(_) => t
    case Flusher(id) => if id in t.readers then Move(t, id, Ready) else t
  }

  ghost predicate NextStep(s: State, t: State, step: Step) {
    match step
    case BeginAppend(data) =>
      && s.lock == Free
      && t == s.(lock := Reserved(data), logicalLen := s.logicalLen + |data|,
                 log := s.log + data, granted := s.granted + [(s.logicalLen, data)])
    case Drain =>
      && s.lock.Reserved? && |s.lock.data| >= WRITE_BUFFER_LIMIT
      && t == s.(lock := Drained(s.lock.data), file := FileWrite(s.file, s.start, s.buffer), buffer := [])
    case WriteDirect =>
      && s.lock.Drained? && |s.lock.data| <= s.logicalLen
      && t == s.(lock := Direct(s.lock.data),
                 file := FileWrite(s.file, s.logicalLen - |s.lock.data|, s.lock.data))
    case StoreDirect =>
      && s.lock.Direct?
      && t == s.(lock := Free, start := s.logicalLen)
    case Join =>
      && s.lock.Reserved? && |s.lock.data| < WRITE_BUFFER_LIMIT
      && t == s.(lock := Joined(s.lock.data), buffer := s.buffer + s.lock.data)
    case Overflow =>
      && s.lock.Joined? && |s.buffer| >= WRITE_BUFFER_LIMIT
      && t == s.(lock := Spilled(Appender(|s.lock.data|)), file := FileWrite(s.file, s.start, s.buffer))
    case Release =>
      && s.lock.Joined? && |s.buffer| < WRITE_BUFFER_LIMIT
      && t == s.(lock := Free)
    case StoreStart =>
      && s.lock.Spilled?
      && t == s.(lock := Advanced(s.lock.owner), start := s.start + |s.buffer|)
    case ClearBuffer =>
      && s.lock.Advanced?
      && t == Unlock(s.(buffer := []), s.lock.owner)
    case BeginRead(id, offset, len) =>
      && id !in s.readers && offset + len <= Returned(s)
      && t == s.(readers := s.readers[id := Reader(offset, len, Started)])
    case LoadStart(id) =>
      && At(s, id, Started)
      && t == Move(s, id, Loaded(s.start))
    case Decide(id) =>
      && id in s.readers && s.readers[id].phase.Loaded?
      && var r := s.readers[id];
         t == Move(s, id, if r.offset + r.len > r.phase.wbStart then MustFlush else Ready)
    case FlushEmpty(id) =>
      && At(s, id, MustFlush) && s.lock == Free && s.buffer == []
      && t == Move(s, id, Ready)
    case FlushWrite(id) =>
      && At(s, id, MustFlush) && s.lock == Free && s.buffer != []
      && t == s.(lock := Spilled(Flusher(id)), file := FileWrite(s.file, s.start, s.buffer))
    case ReadFile(id) =>
      && At(s, id, Ready)
      && var r := s.readers[id];
         t == Move(s, id, Done(ReadExact(s.file, r.offset, r.len)))
  }

  // ---------- the invariant ----------

  /** File, buffer and reservation together spell out the log, however far the lock holder is. */
  ghost predicate Layout(s: State) {
    match s.lock
    case Free => |s.file| == s.start && s.log == s.file + s.buffer
    case Reserved(d) => |s.file| == s.start && s.log == s.file + s.buffer + d
    case Drained(d) => s.start <= |s.file| && s.buffer == [] && s.log == s.file + d
    case Direct(d) => s.start <= |s.file| && s.buffer == [] && s.log == s.file
    case Joined(d) => |s.file| == s.start && s.log == s.file + s.buffer
    case Spilled(_) => s.start + |s.buffer| == |s.file| && s.log == s.file
    case Advanced(_) => s.start == |s.file| && s.log == s.file
  }

  ghost predicate ReaderOk(s: State, r: Reader) {
    && r.offset + r.len <= Returned(s)
    && (r.phase.Loaded? ==> r.phase.wbStart <= s.start)
    && (r.phase.Ready? ==> r.offset + r.len <= |s.file|)
    && (r.phase.Done? ==> r.phase.result == Success(s.log[r.offset..r.offset + r.len]))
  }

  /** Granted ranges follow one another without gap or overlap and hold the appended bytes. */
  ghost predicate GrantsOk(s: State) {
    && (forall i :: 0 <= i < |s.granted| ==> Holds(s.log, s.granted[i]))
    && (forall i, j :: 0 <= i < j < |s.granted| ==> s.granted[i].0 + |s.granted[i].1| <= s.granted[j].0)
  }

  ghost predicate Inv(s: State) {
    && Layout(s)
    && s.logicalLen == |s.log|
    && 0 <= Returned(s)
    && (forall id :: id in s.readers ==> ReaderOk(s, s.readers[id]))
    && GrantsOk(s)
  }

  lemma InitInv(s: State, file: Bytes)
    requires Init(s, file)
    ensures Inv(s)
  {
  }

  /** One step extends the log and never shrinks the file, the start or the returned length. */
  ghost predicate Grows(s: State, t: State) {
    s.log <= t.log && |s.file| <= |t.file| && s.start <= t.start && Returned(s) <= Returned(t)
  }

  lemma LayoutStep(s: State, t: State, step: Step)
    requires Inv(s) && NextStep(s, t, step)
    ensures Layout(t) && t.logicalLen == |t.log| && Grows(s, t) && 0 <= Returned(t)
  {
    hide ReaderOk, GrantsOk, FileWrite;
    if s.buffer != [] && |s.file| <= s.start {
      WriteAtEnd(s.file, s.start, s.buffer);
    }
    if s.buffer == [] {
      WriteNothing(s.file, s.start);
    }
    if step.WriteDirect? && s.lock.data != [] {
      WriteAtEnd(s.file, |s.file|, s.lock.data);
    }
    if step.WriteDirect? {
      WriteNothing(s.file, |s.file|);
    }
  }

  lemma WriteNothing(file: Bytes, offset: nat)
    ensures FileWrite(file, offset, []) == file
  {
  }

  lemma SameSlice(a: Bytes, b: Bytes, lo: nat, hi: nat)
    requires a <= b && lo <= hi <= |a|
    ensures a[lo..hi] == b[lo..hi]
  {
  }

  lemma ReaderKept(s: State, t: State, r: Reader)
    requires Layout(s) && Grows(s, t) && ReaderOk(s, r)
    ensures ReaderOk(t, r)
  {
    SameSlice(s.log, t.log, r.offset, r.offset + r.len);
  }

  lemma ReadFromFile(s: State, r: Reader)
    requires Layout(s) && ReaderOk(s, r) && r.phase.Ready?
    ensures ReaderOk(s, r.(phase := Done(ReadExact(s.file, r.offset, r.len))))
  {
    SameSlice(s.file, s.log, r.offset, r.offset + r.len);
  }

  lemma ReadersStep(s: State, t: State, step: Step, id: nat)
    requires Inv(s) && NextStep(s, t, step) && Layout(t) && Grows(s, t)
    requires id in t.readers
    ensures ReaderOk(t, t.readers[id])
  {
    hide FileWrite, GrantsOk, ReadExact;
    if id in s.readers {
      ReaderKept(s, t, s.readers[id]);
      if step == ReadFile(id) {
        ReadFromFile(s, s.readers[id]);
        ReaderKept(s, t, t.readers[id]);
      }
    }
  }

  ghost predicate Holds(log: Bytes, grant: (nat, Bytes)) {
    grant.0 + |grant.1| <= |log| && log[grant.0..grant.0 + |grant.1|] == grant.1
  }

  lemma GrantsStep(s: State, t: State, step: Step)
    requires Inv(s) && NextStep(s, t, step)
    ensures GrantsOk(t)
  {
    hide FileWrite, ReaderOk, Layout;
    forall i | 0 <= i < |t.granted| ensures Holds(t.log, t.granted[i]) {
      if i < |s.granted| {
        assert t.granted[i] == s.granted[i] && Holds(s.log, s.granted[i]);
        SameSlice(s.log, t.log, s.granted[i].0, s.granted[i].0 + |s.granted[i].1|);
      }
    }
  }

  /** Every step of every thread keeps the invariant. */
  lemma StepInv(s: State, t: State, step: Step)
    requires Inv(s) && NextStep(s, t, step)
    ensures Inv(t) && Grows(s, t)
  {
    hide NextStep, Layout, ReaderOk, GrantsOk;
    LayoutStep(s, t, step);
    GrantsStep(s, t, step);
    forall id | id in t.readers ensures ReaderOk(t, t.readers[id]) {
      ReadersStep(s, t, step, id);
    }
  }

  // ---------- whole runs ----------

  ghost predicate Run(states: seq<State>, steps: seq<Step>, file: Bytes) {
    && |states| == |steps| + 1
    && Init(states[0], file)
    && forall i :: 0 <= i < |steps| ==> NextStep(states[i], states[i + 1], steps[i])
  }

  lemma {:induction false} RunInv(states: seq<State>, steps: seq<Step>, file: Bytes, i: nat)
    requires Run(states, steps, file) && i < |states|
    ensures Inv(states[i])
  {
    hide NextStep, Inv;
    if i == 0 {
      InitInv(states[0], file);
    } else {
      RunInv(states, steps, file, i - 1);
      StepInv(states[i - 1], states[i], steps[i - 1]);
    }
  }

  lemma {:induction false} RunGrows(states: seq<State>, steps: seq<Step>, file: Bytes, i: nat, j: nat)
    requires Run(states, steps, file) && i <= j < |states|
    ensures Grows(states[i], states[j])
  {
    hide NextStep, Inv;
    if i < j {
      RunGrows(states, steps, file, i, j - 1);
      RunInv(states, steps, file, j - 1);
      StepInv(states[j - 1], states[j], steps[j - 1]);
    }
  }

  /** A reader keeps the range it began with. */
  lemma {:induction false} ReaderKeepsRange(states: seq<State>, steps: seq<Step>, file: Bytes, began: nat, j: nat)
    requires Run(states, steps, file) && began < j < |states| && steps[began].BeginRead?
    ensures var id := steps[began].id;
            id in states[j].readers && states[j].readers[id].offset == steps[began].offset
            && states[j].readers[id].len == steps[began].len
  {
    hide FileWrite;
    if j > began + 1 {
      ReaderKeepsRange(states, steps, file, began, j - 1);
    }
    assert NextStep(states[j - 1], states[j], steps[j - 1]);
  }

  /**
   * In every interleaving, a read of a range whose appends had returned when the read began ends
   * with exactly the bytes that were appended there, if it ends at all.
   */
  lemma ReadsAreExact(states: seq<State>, steps: seq<Step>, file: Bytes, began: nat, done: nat)
    requires Run(states, steps, file) && began < done < |states| && steps[began].BeginRead?
    ensures var (id, lo, hi) := (steps[began].id, steps[began].offset, steps[began].offset + steps[began].len);
            && hi <= |states[began].log|
            && id in states[done].readers
            && (states[done].readers[id].phase.Done? ==>
                  states[done].readers[id].phase.result == Success(states[began].log[lo..hi]))
  {
    hide FileWrite;
    var id := steps[began].id;
    RunInv(states, steps, file, began);
    RunInv(states, steps, file, done);
    RunGrows(states, steps, file, began, done);
    ReaderKeepsRange(states, steps, file, began, done);
    assert NextStep(states[began], states[began + 1], steps[began]);
    assert ReaderOk(states[done], states[done].readers[id]);
    SameSlice(states[began].log, states[done].log, steps[began].offset, steps[began].offset + steps[began].len);
  }

  /** Appends never share a byte, and the counter is the sum of file start and buffer at rest. */
  lemma AppendsAreDisjoint(states: seq<State>, steps: seq<Step>, file: Bytes, n: nat, i: nat, j: nat)
    requires Run(states, steps, file) && n < |states|
    requires i < j < |states[n].granted|
    ensures states[n].granted[i].0 + |states[n].granted[i].1| <= states[n].granted[j].0
    ensures states[n].granted[j].0 + |states[n].granted[j].1| <= states[n].logicalLen
    ensures states[n].lock == Free ==> states[n].logicalLen == states[n].start + |states[n].buffer|
  {
    RunInv(states, steps, file, n);
  }

  // ---------- progress ----------

  /** At rest any thread may begin an append, which is given the end of everything reserved so far. */
  lemma AppendBegins(s: State, data: Bytes)
    requires Inv(s) && s.lock == Free
    ensures exists t :: NextStep(s, t, BeginAppend(data)) && t.log == s.log + data && t.granted == s.granted + [(|s.log|, data)]
  {
    var t := s.(lock := Reserved(data), logicalLen := s.logicalLen + |data|,
                log := s.log + data, granted := s.granted + [(s.logicalLen, data)]);
    assert NextStep(s, t, BeginAppend(data));
  }

  /** At any time a new reader may begin with any range of appends that have returned. */
  lemma ReadBegins(s: State, id: nat, offset: nat, len: nat)
    requires Inv(s) && id !in s.readers && offset + len <= |s.log| - Pending(s.lock)
    ensures exists t :: NextStep(s, t, BeginRead(id, offset, len))
  {
    assert NextStep(s, s.(readers := s.readers[id := Reader(offset, len, Started)]), BeginRead(id, offset, len));
  }

  /** In `n` steps of the lock holder alone the lock is free. */
  ghost predicate Frees(s: State, n: nat)
    decreases n
  {
    if n == 0 then s.lock == Free
    else exists step, t :: HolderStep(step) && NextStep(s, t, step) && t.log == s.log && Frees(t, n - 1)
  }

  predicate HolderStep(step: Step) {
    step in {Drain, WriteDirect, StoreDirect, Join, Overflow, Release, StoreStart, ClearBuffer}
  }

  /** How many steps the lock holder still takes. */
  function HolderSteps(s: State): nat {
    match s.lock
    case Free => 0
    case Reserved(d) => if |d| >= 1_048_576 then 3 else if |s.buffer| + |d| >= 1_048_576 then 4 else 2
    case Drained(_) => 2
    case Direct(_) => 1
    case Joined(_) => if |s.buffer| >= 1_048_576 then 3 else 1
    case Spilled(_) => 2
    case Advanced(_) => 1
  }

  /** Whoever holds the lock lets go of it by itself, after four steps at most. */
  lemma {:induction false} LockFrees(s: State)
    requires Inv(s)
    ensures Frees(s, HolderSteps(s)) && HolderSteps(s) <= 4
    decreases HolderSteps(s)
  {
    hide FileWrite, Inv, ReaderOk, GrantsOk;
    if s.lock != Free {
      var step, t := HolderNext(s);
      StepInv(s, t, step);
      LockFrees(t);
    }
  }

  lemma HolderNext(s: State) returns (step: Step, t: State)
    requires Inv(s) && s.lock != Free
    ensures HolderStep(step) && NextStep(s, t, step) && t.log == s.log && HolderSteps(t) + 1 == HolderSteps(s)
  {
    hide FileWrite;
    match s.lock
    case Reserved(d) =>
      if |d| >= WRITE_BUFFER_LIMIT {
        step, t := Drain, s.(lock := Drained(d), file := FileWrite(s.file, s.start, s.buffer), buffer := []);
      } else {
        step, t := Join, s.(lock := Joined(d), buffer := s.buffer + d);
      }
    case Drained(d) =>
      step, t := WriteDirect, s.(lock := Direct(d), file := FileWrite(s.file, s.logicalLen - |d|, d));
    case Direct(d) =>
      step, t := StoreDirect, s.(lock := Free, start := s.logicalLen);
    case Joined(d) =>
      if |s.buffer| >= WRITE_BUFFER_LIMIT {
        step, t := Overflow, s.(lock := Spilled(Appender(|d|)), file := FileWrite(s.file, s.start, s.buffer));
      } else {
        step, t := Release, s.(lock := Free);
      }
    case Spilled(owner) =>
      step, t := StoreStart, s.(lock := Advanced(owner), start := s.start + |s.buffer|);
    case Advanced(owner) =>
      step, t := ClearBuffer, Unlock(s.(buffer := []), owner);
  }

  /** Some `n` steps from here the reader is done. */
  ghost predicate Ends(s: State, id: nat, n: nat)
    decreases n
  {
    && id in s.readers
    && (if n == 0 then s.readers[id].phase.Done?
        else exists step, t :: NextStep(s, t, step) && t.log == s.log && Ends(t, id, n - 1))
  }

  predicate Flushing(l: Lock, id: nat) {
    l == Spilled(Flusher(id)) || l == Advanced(Flusher(id))
  }

  /**
   * How many steps a reader needs at most: three of its own for a range already in the file, and otherwise
   * those of the lock holder it may wait for as well.
   */
  function ReaderSteps(s: State, id: nat): nat
    requires id in s.readers
  {
    var r := s.readers[id];
    match r.phase
    case Started => if r.offset + r.len <= s.start then 3 else HolderSteps(s) + 6
    case Loaded(wbStart) => if r.offset + r.len <= wbStart then 2 else HolderSteps(s) + 5
    case MustFlush => HolderSteps(s) + if Flushing(s.lock, id) then 1 else 4
    case Ready => 1
    case Done(_) => 0
  }

  /** No reader is ever stuck: without any new append it can be done after ten steps at most. */
  lemma {:induction false} ReadEnds(s: State, id: nat) returns (n: nat)
    requires Inv(s) && id in s.readers
    ensures n <= ReaderSteps(s, id) <= 10 && Ends(s, id, n)
    decreases ReaderSteps(s, id)
  {
    hide FileWrite, Inv, ReaderOk, GrantsOk, ReadExact;
    if s.readers[id].phase.Done? {
      n := 0;
    } else {
      var step, t := ReaderNext(s, id);
      StepInv(s, t, step);
      var m := ReadEnds(t, id);
      n := m + 1;
    }
  }

  lemma ReaderNext(s: State, id: nat) returns (step: Step, t: State)
    requires Inv(s) && id in s.readers && !s.readers[id].phase.Done?
    ensures NextStep(s, t, step) && t.log == s.log && id in t.readers && ReaderSteps(t, id) < ReaderSteps(s, id) <= 10
  {
    hide FileWrite, Inv, ReaderOk, GrantsOk, ReadExact;
    var r := s.readers[id];
    match r.phase
    case Started =>
      step, t := LoadStart(id), Move(s, id, Loaded(s.start));
    case Loaded(wbStart) =>
      step, t := Decide(id), Move(s, id, if r.offset + r.len > wbStart then MustFlush else Ready);
    case MustFlush =>
      if s.lock != Free {
        step, t := HolderNext(s);
      } else if s.buffer == [] {
        step, t := FlushEmpty(id), Move(s, id, Ready);
      } else {
        step, t := FlushWrite(id), s.(lock := Spilled(Flusher(id)), file := FileWrite(s.file, s.start, s.buffer));
      }
    case Ready =>
      step, t := ReadFile(id), Move(s, id, Done(ReadExact(s.file, r.offset, r.len)));
  }
}
