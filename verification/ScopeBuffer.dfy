/** The triple buffer that carries scope data from one writer to one reader without locks (`scope_buffer`).
    The writer owns region `input` and the reader region `output`; the two meet only in the exchanges of `stage`. */
module ScopeBuffers {

  datatype Region = Region(data: seq<real>, frames: nat, changed: bool)

  /** The fields that writer and reader share or own (lines 84-109 of scope_buffer.hpp). */
  datatype Buffer = Buffer(regions: seq<Region>, stage: nat, input: nat, output: nat)

  predicate IndicesOk(b: Buffer) {
    && |b.regions| == 3 && b.stage < 3 && b.input < 3 && b.output < 3
    && b.stage != b.input && b.input != b.output && b.output != b.stage
  }

  // ----- what single memory accesses do

  function SampleWritten(b: Buffer, i: nat, x: real): Buffer
    requires IndicesOk(b) && i < |b.regions[b.input].data|
  {
    b.(regions := b.regions[b.input := b.regions[b.input].(data := b.regions[b.input].data[i := x])])
  }

  function FramesStored(b: Buffer, frames: nat): Buffer
    requires IndicesOk(b)
  {
    b.(regions := b.regions[b.input := b.regions[b.input].(frames := frames)])
  }

  function ChangedStored(b: Buffer, r: nat, changed: bool): Buffer
    requires IndicesOk(b) && r < 3
  {
    b.(regions := b.regions[r := b.regions[r].(changed := changed)])
  }

  /** `_in = _stage.exchange(_in)` */
  function WriterSwapped(b: Buffer): Buffer { b.(stage := b.input, input := b.stage) }

  /** `_out = _stage.exchange(_out)` */
  function ReaderSwapped(b: Buffer): Buffer { b.(stage := b.output, output := b.stage) }

  // ----- writer and reader in any interleaving

  /** Where the writer is in `push`. */
  datatype Writer = Writing | Counted | Flagged

  /** Where the reader is in `pull`. */
  datatype Reader = Reading | Loaded(stage: nat) | SawChange | Cleared | Fetched

  /** What one completed `push` offered. */
  datatype Push = Push(data: seq<real>, frames: nat)

  /** The buffer, both threads, and the history of a run: all completed pushes, the number of the push that each region
      last carried, the numbers that the reader's exchanges obtained, and the number of pushes completed when the
      current pull began. */
  datatype System = System(
    b: Buffer, writer: Writer, reader: Reader,
    pushes: seq<Push>, number: seq<nat>, gained: seq<nat>, begun: nat)

  datatype Step =
    | WriteSample(i: nat, x: real) | StoreFrames(frames: nat) | StoreChanged | WriterExchange
    | LoadStage | LoadChanged | ClearChanged | ReaderExchange | Return

  ghost predicate Init(s: System) {
    && |s.b.regions| == 3 && s.b.stage == 0 && s.b.input == 1 && s.b.output == 2
    && (forall r :: 0 <= r < 3 ==> !s.b.regions[r].changed && s.b.regions[r].frames == 0)
    && s.writer == Writing && s.reader == Reading && s.pushes == [] && s.number == [0, 0, 0] && s.gained == []
    && s.begun == 0
  }

  predicate Formed(s: System) {
    IndicesOk(s.b) && |s.number| == 3 && (s.reader.Loaded? ==> s.reader.stage < 3)
  }

  predicate Enabled(s: System, e: Step)
    requires Formed(s)
  {
    match e
    case WriteSample(i, _) => s.writer.Writing? && i < |s.b.regions[s.b.input].data|
    case StoreFrames(_) => s.writer.Writing?
    case StoreChanged => s.writer.Counted?
    case WriterExchange => s.writer.Flagged?
    case LoadStage => s.reader.Reading?
    case LoadChanged => s.reader.Loaded?
    case ClearChanged => s.reader.SawChange?
    case ReaderExchange => s.reader.Cleared?
    case Return => s.reader.Fetched?
  }

  function Take(s: System, e: Step): System
    requires Formed(s) && Enabled(s, e)
  {
    var b := s.b;
    match e
    case WriteSample(i, x) => s.(b := SampleWritten(b, i, x))
    case StoreFrames(frames) => s.(b := FramesStored(b, frames), writer := Counted)
    case StoreChanged => s.(b := ChangedStored(b, b.input, true), writer := Flagged)
    case WriterExchange =>
      var r := b.regions[b.input];
      s.(b := WriterSwapped(b), writer := Writing, pushes := s.pushes + [Push(r.data, r.frames)],
         number := s.number[b.input := |s.pushes| + 1])
    case LoadStage => s.(reader := Loaded(b.stage), begun := |s.pushes|)
    case LoadChanged => s.(reader := if b.regions[s.reader.stage].changed then SawChange else Fetched)
    case ClearChanged => s.(b := ChangedStored(b, b.output, false), reader := Cleared)
    case ReaderExchange => s.(b := ReaderSwapped(b), reader := Fetched, gained := s.gained + [s.number[b.stage]])
    case Return => s.(reader := Reading)
  }

  /** The number of the push in the reader's region; 0 before the first. */
  function Held(s: System): nat
    requires Formed(s)
  {
    s.number[s.b.output]
  }

  /** Region `r` carries, complete, the push that its number names. */
  ghost predicate Carries(s: System, r: nat)
    requires Formed(s) && r < 3
  {
    && s.number[r] <= |s.pushes|
    && (s.number[r] > 0 ==> Push(s.b.regions[r].data, s.b.regions[r].frames) == s.pushes[s.number[r] - 1])
    && (s.number[r] == 0 ==> s.b.regions[r].frames == 0)
  }

  /** The stage offers a push that the reader never obtained. */
  ghost predicate Unread(s: System)
    requires Formed(s)
  {
    s.number[s.b.stage] > 0 && s.number[s.b.stage] !in s.gained
  }

  predicate Increasing(ns: seq<nat>) {
    forall i, j :: 0 <= i < j < |ns| ==> ns[i] < ns[j]
  }

  ghost predicate ReaderOk(s: System)
    requires Formed(s)
  {
    match s.reader
    case Reading => true
    case Loaded(t) =>
      && t != s.b.output && s.begun <= |s.pushes|
      && (t == s.b.stage || s.b.regions[s.b.stage].changed)
      && (s.b.regions[t].changed || s.begun <= Held(s))
    case SawChange => s.b.regions[s.b.stage].changed && s.begun <= |s.pushes|
    case Cleared => s.b.regions[s.b.stage].changed && !s.b.regions[s.b.output].changed && s.begun <= |s.pushes|
    case Fetched => s.begun <= Held(s)
  }

  /** What holds after every single step. */
  ghost predicate Inv(s: System) {
    && Formed(s) && Carries(s, s.b.stage) && Carries(s, s.b.output)
    && (s.b.regions[s.b.stage].changed <==> Held(s) < s.number[s.b.stage])
    && (if Held(s) < s.number[s.b.stage] then s.number[s.b.stage] == |s.pushes| else Held(s) == |s.pushes|)
    && (0 < s.number[s.b.stage] <= Held(s) ==> s.number[s.b.stage] in s.gained)
    && (s.writer.Flagged? ==> s.b.regions[s.b.input].changed)
    && Increasing(s.gained) && Held(s) == (if s.gained == [] then 0 else s.gained[|s.gained| - 1])
    && ReaderOk(s)
  }

  lemma InitInv(s: System)
    requires Init(s)
    ensures Inv(s)
  {}

  lemma WriteSampleInv(s: System, i: nat, x: real)
    requires Inv(s) && Enabled(s, WriteSample(i, x))
    ensures Inv(Take(s, WriteSample(i, x)))
  {}

  lemma StoreFramesInv(s: System, frames: nat)
    requires Inv(s) && Enabled(s, StoreFrames(frames))
    ensures Inv(Take(s, StoreFrames(frames)))
  {}

  lemma StoreChangedInv(s: System)
    requires Inv(s) && Enabled(s, StoreChanged)
    ensures Inv(Take(s, StoreChanged))
  {}

  lemma WriterExchangeInv(s: System)
    requires Inv(s) && Enabled(s, WriterExchange)
    ensures Inv(Take(s, WriterExchange))
  {}

  lemma ReaderStepInv(s: System, e: Step)
    requires Inv(s) && Enabled(s, e) && (e.LoadStage? || e.LoadChanged? || e.ClearChanged? || e.Return?)
    ensures Inv(Take(s, e))
  {}

  lemma ReaderExchangeInv(s: System)
    requires Inv(s) && Enabled(s, ReaderExchange)
    ensures Inv(Take(s, ReaderExchange))
  {
    var s' := Take(s, ReaderExchange);
    LastIsLargest(s.gained);
    assert s'.gained[..|s.gained|] == s.gained;
  }

  lemma StepInv(s: System, e: Step)
    requires Inv(s) && Enabled(s, e)
    ensures Inv(Take(s, e))
  {
    match e
    case WriterExchange => WriterExchangeInv(s);
    case ReaderExchange => ReaderExchangeInv(s);
    case WriteSample(i, x) => WriteSampleInv(s, i, x);
    case StoreFrames(frames) => StoreFramesInv(s, frames);
    case StoreChanged => StoreChangedInv(s);
    case _ => ReaderStepInv(s, e);
  }

  lemma LastIsLargest(ns: seq<nat>)
    requires Increasing(ns)
    ensures forall k :: k in ns ==> k <= ns[|ns| - 1]
  {
    forall k | k in ns ensures k <= ns[|ns| - 1] {
      var i :| 0 <= i < |ns| && ns[i] == k;
    }
  }

  /** The changed flag of the stage says exactly whether it holds an unread push. */
  lemma FlagMeansUnread(s: System)
    requires Inv(s)
    ensures s.b.regions[s.b.stage].changed <==> Unread(s)
  {
    LastIsLargest(s.gained);
  }

  // ----- all runs

  ghost predicate Run(run: seq<System>, steps: seq<Step>) {
    && |run| == |steps| + 1 && Init(run[0])
    && forall i :: 0 <= i < |steps| ==> Formed(run[i]) && Enabled(run[i], steps[i]) && run[i + 1] == Take(run[i],
      steps[i])
  }

  lemma {:induction false} RunInv(run: seq<System>, steps: seq<Step>, i: nat)
    requires Run(run, steps) && i < |run|
    ensures Inv(run[i])
  {
    if i == 0 {
      InitInv(run[0]);
    } else {
      RunInv(run, steps, i - 1);
      StepInv(run[i - 1], steps[i - 1]);
    }
  }

  /** In every state of every run the three indices are distinct and the flag of the stage is exact. */
  lemma RunShape(run: seq<System>, steps: seq<Step>, i: nat)
    requires Run(run, steps) && i < |run|
    ensures IndicesOk(run[i].b) && Formed(run[i])
    ensures run[i].b.regions[run[i].b.stage].changed <==> Unread(run[i])
  {
    RunInv(run, steps, i);
    FlagMeansUnread(run[i]);
  }

  /** A pull that saw the flag set obtains the most recent completed push with its exchange, whatever the writer did
      between the reader's accesses, and a later push than any it obtained before. */
  lemma ExchangeObtainsLatest(run: seq<System>, steps: seq<Step>, i: nat)
    requires Run(run, steps) && i < |steps| && steps[i] == ReaderExchange
    ensures Formed(run[i + 1]) && Held(run[i + 1]) == |run[i].pushes| == |run[i + 1].pushes| > 0
    ensures Carries(run[i + 1], run[i + 1].b.output)
    ensures forall k :: k in run[i].gained ==> k < Held(run[i + 1])
  {
    RunInv(run, steps, i);
    RunInv(run, steps, i + 1);
    var gained := run[i + 1].gained;
    forall k | k in run[i].gained ensures k < Held(run[i + 1]) {
      var j :| 0 <= j < |run[i].gained| && run[i].gained[j] == k;
      assert gained[j] == k && gained[j] < gained[|gained| - 1];
    }
  }

  /** The numbers the reader obtains strictly increase. */
  lemma NumbersIncrease(run: seq<System>, steps: seq<Step>, i: nat)
    requires Run(run, steps) && i < |run|
    ensures Increasing(run[i].gained)
  {
    RunInv(run, steps, i);
  }

  /** No other step than the reader's exchange reaches what the reader reads. */
  lemma StepLeavesReader(s: System, e: Step)
    requires Formed(s) && Enabled(s, e) && e != ReaderExchange
    ensures var s' := Take(s, e);
      && s'.b.output == s.b.output < |s'.b.regions| && |s'.number| == 3 && s'.number[s.b.output] == s.number[s.b.output]
      && s'.b.regions[s.b.output].(changed := s.b.regions[s.b.output].changed) == s.b.regions[s.b.output]
  {}

  /** Between its exchanges the reader's region keeps one push, untouched by the writer. */
  lemma {:induction false} ReaderUndisturbed(run: seq<System>, steps: seq<Step>, i: nat, j: nat)
    requires Run(run, steps) && i <= j < |run| && forall k :: i <= k < j ==> steps[k] != ReaderExchange
    ensures Formed(run[i]) && Formed(run[j]) && run[j].b.output == run[i].b.output && Held(run[j]) == Held(run[i])
    ensures run[j].b.regions[run[j].b.output].data == run[i].b.regions[run[i].b.output].data
    ensures run[j].b.regions[run[j].b.output].frames == run[i].b.regions[run[i].b.output].frames
    ensures Carries(run[j], run[j].b.output)
    decreases j - i
  {
    RunInv(run, steps, i);
    RunInv(run, steps, j);
    if i < j {
      var k := j - 1;
      ReaderUndisturbed(run, steps, i, k);
      ReaderKeeps(run, steps, k);
    }
  }

  lemma ReaderKeeps(run: seq<System>, steps: seq<Step>, i: nat)
    requires Run(run, steps) && i < |steps| && steps[i] != ReaderExchange && Formed(run[i]) && Formed(run[i + 1])
    ensures var s, s' := run[i], run[i + 1];
      && s'.b.output == s.b.output && Held(s') == Held(s)
      && s'.b.regions[s'.b.output].data == s.b.regions[s.b.output].data
      && s'.b.regions[s'.b.output].frames == s.b.regions[s.b.output].frames
  {
    RunInv(run, steps, i);
    StepLeavesReader(run[i], steps[i]);
  }

  /** From state `i` to state `j` the reader carries out one whole pull up to its return. */
  ghost predicate Pulls(run: seq<System>, steps: seq<Step>, i: nat, j: nat) {
    && Run(run, steps) && i < j < |steps| && steps[i] == LoadStage && steps[j] == Return
    && forall k :: i < k < j ==> steps[k] != LoadStage
  }

  lemma {:induction false} BegunKept(run: seq<System>, steps: seq<Step>, i: nat, j: nat)
    requires Run(run, steps) && i < j < |run| && steps[i] == LoadStage && forall k :: i < k < j ==>
      steps[k] != LoadStage
    ensures run[j].begun == |run[i].pushes|
    decreases j
  {
    if i + 1 < j {
      BegunKept(run, steps, i, j - 1);
      assert run[j] == Take(run[j - 1], steps[j - 1]);
    }
  }

  /** Pushes complete one at a time, so every number between two counts is the count of some state in between. */
  lemma {:induction false} CountReached(run: seq<System>, steps: seq<Step>, i: nat, j: nat, n: nat) returns (k: nat)
    requires Run(run, steps) && i <= j < |run| && |run[i].pushes| <= n <= |run[j].pushes|
    ensures i <= k <= j && |run[k].pushes| == n
    decreases j - i
  {
    if n == |run[j].pushes| {
      k := j;
    } else {
      assert run[j] == Take(run[j - 1], steps[j - 1]);
      k := CountReached(run, steps, i, j - 1, n);
    }
  }

  lemma {:induction false} PushesKept(run: seq<System>, steps: seq<Step>, i: nat, j: nat)
    requires Run(run, steps) && i <= j < |run|
    ensures run[i].pushes <= run[j].pushes
    decreases j - i
  {
    if i < j {
      PushesKept(run, steps, i, j - 1);
      assert run[j] == Take(run[j - 1], steps[j - 1]);
    }
  }

  /** Every pull is atomic: there is an instant between its start and its return at which the push it shows, complete,
      was the last one completed. */
  lemma PullIsAtomic(run: seq<System>, steps: seq<Step>, i: nat, j: nat) returns (k: nat)
    requires Pulls(run, steps, i, j)
    ensures i <= k <= j && Formed(run[j]) && Held(run[j]) == |run[k].pushes| && run[k].pushes <= run[j].pushes
    ensures var shown := run[j].b.regions[run[j].b.output];
      if run[k].pushes == [] then shown.frames == 0
      else Push(shown.data, shown.frames) == run[k].pushes[|run[k].pushes| - 1]
  {
    RunInv(run, steps, j);
    BegunKept(run, steps, i, j);
    k := CountReached(run, steps, i, j, Held(run[j]));
    PushesKept(run, steps, k, j);
  }

  lemma {:induction false} NoNewPush(run: seq<System>, steps: seq<Step>, i: nat, j: nat)
    requires Run(run, steps) && i <= j < |run| && forall k :: i <= k < j ==> steps[k] != WriterExchange
    ensures run[j].pushes == run[i].pushes
    decreases j - i
  {
    if i < j {
      NoNewPush(run, steps, i, j - 1);
      assert run[j] == Take(run[j - 1], steps[j - 1]);
    }
  }

  /** Once no further push completes, one further pull shows the last one. */
  lemma PullShowsLast(run: seq<System>, steps: seq<Step>, i: nat, j: nat)
    requires Pulls(run, steps, i, j) && forall k :: i <= k < j ==> steps[k] != WriterExchange
    ensures Formed(run[j]) && Held(run[j]) == |run[j].pushes| && Carries(run[j], run[j].b.output)
  {
    RunInv(run, steps, j);
    var k := PullIsAtomic(run, steps, i, j);
    NoNewPush(run, steps, i, j);
    NoNewPush(run, steps, i, k);
  }

  // ----- a push by the arguments of its steps

  /** Step `w` completes a push, and step `v` before it belongs to this push. */
  ghost predicate InPush(run: seq<System>, steps: seq<Step>, v: nat, w: nat) {
    && Run(run, steps) && v < w < |steps| && steps[w] == WriterExchange
    && forall k :: v < k < w ==> steps[k] != WriterExchange
  }

  /** Only the writer's exchange gives it another region, and only its own steps write there. */
  lemma WriterKeeps(s: System, e: Step)
    requires Formed(s) && Enabled(s, e) && e != WriterExchange
    ensures var s' := Take(s, e);
      && Formed(s') && s'.b.input == s.b.input
      && (!e.StoreFrames? ==> s'.b.regions[s.b.input].frames == s.b.regions[s.b.input].frames)
  {}

  predicate Writes(e: Step, i: nat) { e.WriteSample? && e.i == i }

  /** The writer's region has the sample `x` at index `i`. */
  ghost predicate HasSample(s: System, i: nat, x: real) {
    Formed(s) && i < |s.b.regions[s.b.input].data| && s.b.regions[s.b.input].data[i] == x
  }

  lemma SampleWrites(s: System, i: nat, x: real)
    requires Formed(s) && Enabled(s, WriteSample(i, x))
    ensures HasSample(Take(s, WriteSample(i, x)), i, x)
  {}

  lemma SampleKept(s: System, e: Step, i: nat, x: real)
    requires HasSample(s, i, x) && Enabled(s, e) && e != WriterExchange && !Writes(e, i)
    ensures HasSample(Take(s, e), i, x)
  {}

  /** Step `v` is the last before `w` to write the sample that it writes. */
  ghost predicate LastWrite(steps: seq<Step>, v: nat, w: nat)
    requires v < w <= |steps|
  {
    steps[v].WriteSample? && forall k :: v < k < w ==> !Writes(steps[k], steps[v].i)
  }

  lemma FormedIn(run: seq<System>, steps: seq<Step>, i: nat)
    requires Run(run, steps) && i < |steps|
    ensures Formed(run[i]) && Enabled(run[i], steps[i]) && run[i + 1] == Take(run[i], steps[i])
  {}

  /** The number of frames stays stored until the exchange. */
  lemma {:induction false} FramesStay(run: seq<System>, steps: seq<Step>, v: nat, w: nat, frames: nat)
    requires Run(run, steps) && v < w < |run| && steps[v] == StoreFrames(frames)
    requires forall k :: v < k < w ==> steps[k] != WriterExchange
    ensures Formed(run[w]) && !run[w].writer.Writing? && run[w].b.regions[run[w].b.input].frames == frames
    decreases w
  {
    RunInv(run, steps, w);
    FormedIn(run, steps, w - 1);
    if v + 1 < w {
      FramesStay(run, steps, v, w - 1, frames);
      WriterKeeps(run[w - 1], steps[w - 1]);
    }
  }

  /** A sample stays written until another is written over it. */
  lemma {:induction false} SampleStays(run: seq<System>, steps: seq<Step>, v: nat, w: nat, i: nat, x: real)
    requires Run(run, steps) && v < w < |run| && steps[v] == WriteSample(i, x)
    requires forall k :: v < k < w ==> steps[k] != WriterExchange && !Writes(steps[k], i)
    ensures HasSample(run[w], i, x)
    decreases w
  {
    var u := w - 1;
    if v < u { SampleStays(run, steps, v, u, i, x); }
    NextHas(run, steps, u, i, x);
  }

  lemma NextHas(run: seq<System>, steps: seq<Step>, u: nat, i: nat, x: real)
    requires Run(run, steps) && u < |steps|
    requires steps[u] == WriteSample(i, x)
      || (HasSample(run[u], i, x) && steps[u] != WriterExchange && !Writes(steps[u], i))
    ensures HasSample(run[u + 1], i, x)
  {
    FormedIn(run, steps, u);
    if steps[u] == WriteSample(i, x) { SampleWrites(run[u], i, x); } else { SampleKept(run[u], steps[u], i, x); }
  }

  /** A completed push holds the number of frames that `push` was called with, and at each index the sample that was
      written there last. */
  lemma PushAsOffered(run: seq<System>, steps: seq<Step>, v: nat, w: nat)
    requires InPush(run, steps, v, w)
    ensures |run[w + 1].pushes| == |run[w].pushes| + 1 && run[w + 1].pushes[..|run[w].pushes|] == run[w].pushes
    ensures var p := run[w + 1].pushes[|run[w].pushes|];
      && (steps[v].StoreFrames? ==> p.frames == steps[v].frames)
      && (LastWrite(steps, v, w) ==> steps[v].i < |p.data| && p.data[steps[v].i] == steps[v].x)
  {
    FormedIn(run, steps, w);
    if steps[v].StoreFrames? { FramesStay(run, steps, v, w, steps[v].frames); }
    if LastWrite(steps, v, w) { SampleStays(run, steps, v, w, steps[v].i, steps[v].x); }
  }

  /** The exchange that completed the latest push before state `k`. */
  lemma {:induction false} LastExchange(run: seq<System>, steps: seq<Step>, k: nat) returns (w: nat)
    requires Run(run, steps) && k < |run| && run[k].pushes != []
    ensures w < k && steps[w] == WriterExchange && forall l :: w < l < k ==> steps[l] != WriterExchange
    ensures run[w + 1].pushes == run[k].pushes
    decreases k
  {
    FormedIn(run, steps, k - 1);
    if steps[k - 1] == WriterExchange { w := k - 1; } else { w := LastExchange(run, steps, k - 1); }
  }

  /** What a pull shows was written: at some instant between its start and its return step `w` was the last to complete
      a push, and the frames and samples are those that the steps of this push stored. */
  lemma PullShowsOffered(run: seq<System>, steps: seq<Step>, i: nat, j: nat) returns (k: nat, w: nat)
    requires Pulls(run, steps, i, j) && Formed(run[j]) && Held(run[j]) > 0
    ensures i <= k <= j && w < k && steps[w] == WriterExchange && forall l :: w < l < k ==> steps[l] != WriterExchange
    ensures forall v: nat :: InPush(run, steps, v, w) && steps[v].StoreFrames? ==>
      run[j].b.regions[run[j].b.output].frames == steps[v].frames
    ensures var data := run[j].b.regions[run[j].b.output].data;
      forall v: nat :: InPush(run, steps, v, w) && LastWrite(steps, v, w) ==>
        steps[v].i < |data| && data[steps[v].i] == steps[v].x
  {
    k := PullIsAtomic(run, steps, i, j);
    w := LastExchange(run, steps, k);
    var shown := run[j].b.regions[run[j].b.output];
    forall v: nat | InPush(run, steps, v, w)
      ensures steps[v].StoreFrames? ==> shown.frames == steps[v].frames
      ensures LastWrite(steps, v, w) ==> steps[v].i < |shown.data| && shown.data[steps[v].i] == steps[v].x
    {
      PushAsOffered(run, steps, v, w);
    }
  }

  // ----- the object itself

  datatype Status = Free | Initialized

  class ScopeBuffer {
    var status: Status
    var size: nat
    var channels: nat
    var stage: nat
    var input: nat
    var output: nat
    /** The pool's block: three regions of equal length, one after the other. */
    var data: array<real>
    const frames: array<nat>
    const changed: array<bool>

    function Asset(): nat
      reads this
    {
      channels * size
    }

    ghost predicate Valid()
      reads this, frames, changed, data
    {
      && frames.Length == 3 && changed.Length == 3 && stage < 3 && input < 3 && output < 3
      && stage != input && input != output && output != stage
      && (status.Initialized? ==> data.Length == 3 * Asset())
    }

    function RegionOf(r: nat): Region
      requires Valid() && r < 3 && status.Initialized?
      reads this, frames, changed, data
    {
      Region(Slice(data[..], r, Asset()), frames[r], changed[r])
    }

    function View(): (b: Buffer)
      requires Valid() && status.Initialized?
      reads this, frames, changed, data
      ensures IndicesOk(b)
    {
      Buffer([RegionOf(0), RegionOf(1), RegionOf(2)], stage, input, output)
    }

    constructor ()
      ensures Valid() && status == Free && stage == 0 && input == 1 && output == 2 && fresh(frames) && fresh(changed)
      ensures forall r :: 0 <= r < 3 ==> frames[r] == 0 && !changed[r]
    {
      status, stage, input, output := Free, 0, 1, 2;
      size, channels := 0, 0;
      data := new real[0];
      frames := new nat[3](_ => 0);
      changed := new bool[3](_ => false);
    }

    /** Takes the block that the pool handed out for `channels` times `size` samples in three regions, or none. */
    method Allocate(block: array?<real>, channels: nat, size: nat) returns (ok: bool)
      requires Valid() && (block != null ==> block.Length == 3 * (channels * size))
      modifies this`status, this`size, this`channels, this`data
      ensures Valid() && (ok <==> old(status) == Free && block != null)
      ensures ok ==> status.Initialized? && data == block && forall r :: 0 <= r < 3 ==>
        |View().regions[r].data| == channels * size
      ensures !ok ==> status == old(status) && data == old(data)
    {
      var available := status == Free;
      if !available { return false; }
      this.size := size;
      this.channels := channels;
      if block == null { return false; }
      data := block;
      status := Initialized;
      return true;
    }

    /** One sample written through `write_address`. */
    method Write(i: nat, x: real)
      requires Valid() && status.Initialized? && i < Asset()
      modifies data
      ensures Valid() && View() == SampleWritten(old(View()), i, x)
    {
      ghost var d, b := data[..], View();
      data[Base(input, Asset()) + i] := x;
      assert data[..] == d[Base(input, Asset()) + i := x];
      ViewWritten(d, Asset(), b, View(), i, x);
    }

    /** `_state[r].changed.store(value)` */
    method StoreChangedFlag(r: nat, value: bool)
      requires Valid() && status.Initialized? && r < 3
      modifies changed
      ensures Valid() && View() == ChangedStored(old(View()), r, value)
    {
      changed[r] := value;
    }

    method StoreFrameCount(n: nat)
      requires Valid() && status.Initialized?
      modifies frames
      ensures Valid() && View() == FramesStored(old(View()), n)
    {
      frames[input] := n;
    }

    method WriterExchangeStage()
      requires Valid() && status.Initialized?
      modifies this`stage, this`input
      ensures Valid() && View() == WriterSwapped(old(View()))
    {
      stage, input := input, stage;
    }

    method ReaderExchangeStage()
      requires Valid() && status.Initialized?
      modifies this`stage, this`output
      ensures Valid() && View() == ReaderSwapped(old(View()))
    {
      stage, output := output, stage;
    }

    /** `push`: the accesses of the writer, one after the other. */
    method Push(n: nat)
      requires Valid() && status.Initialized?
      modifies this`stage, this`input, frames, changed
      ensures Valid() && View() == Pushed(old(View()), n)
    {
      StoreFrameCount(n);
      StoreChangedFlag(input, true);
      WriterExchangeStage();
    }

    /** `pull`: the accesses of the reader, one after the other. */
    method Pull() returns (n: nat)
      requires Valid() && status.Initialized?
      modifies this`stage, this`output, changed
      ensures Valid() && View() == Pulled(old(View())) && n == View().regions[View().output].frames
    {
      var seen := stage;
      var flag := changed[seen];
      if flag {
        StoreChangedFlag(output, false);
        ReaderExchangeStage();
      }
      return frames[output];
    }

    method Release()
      requires Valid()
      modifies this`status
      ensures Valid() && status == Free
    {
      var taken := status != Free;
      if !taken { return; }
      status := Free;
    }
  }

  /** What the writer does and then the reader, undisturbed: a sample written, pushed and pulled. The reader sees it,
      and the number of frames that was pushed; the other samples are those that the writer's region had. */
  method WritePushPull(buffer: ScopeBuffer, i: nat, x: real, n: nat) returns (frames: nat)
    requires buffer.Valid() && buffer.status.Initialized? && i < buffer.Asset()
    modifies buffer`stage, buffer`input, buffer`output, buffer.data, buffer.frames, buffer.changed
    ensures buffer.Valid() && buffer.status.Initialized? && frames == n
    ensures var b, b' := old(buffer.View()), buffer.View();
      && b'.output == b.input && b'.regions[b'.output].frames == n
      && b'.regions[b'.output].data == b.regions[b.input].data[i := x]
  {
    buffer.Write(i, x);
    buffer.Push(n);
    frames := buffer.Pull();
  }

  function Pushed(b: Buffer, n: nat): Buffer
    requires IndicesOk(b)
  {
    WriterSwapped(ChangedStored(FramesStored(b, n), b.input, true))
  }

  function Pulled(b: Buffer): Buffer
    requires IndicesOk(b)
  {
    if b.regions[b.stage].changed then ReaderSwapped(ChangedStored(b, b.output, false)) else b
  }

  /** An undisturbed push takes the three steps of the writer. */
  lemma PushedInSteps(s: System, n: nat)
    requires Formed(s) && s.writer.Writing?
    ensures Enabled(s, StoreFrames(n))
    ensures var s1 := Take(s, StoreFrames(n));
      Formed(s1) && Enabled(s1, StoreChanged)
      && (var s2 := Take(s1, StoreChanged);
          Formed(s2) && Enabled(s2, WriterExchange) && Take(s2, WriterExchange).b == Pushed(s.b, n))
  {}

  /** An undisturbed pull takes two steps of the reader, or four when the flag is set. */
  lemma PulledInSteps(s: System)
    requires Formed(s) && s.reader.Reading?
    ensures var s2 := Take(Take(s, LoadStage), LoadChanged);
      Formed(s2)
      && (if s.b.regions[s.b.stage].changed then
            Enabled(s2, ClearChanged) && Take(Take(s2, ClearChanged), ReaderExchange).b == Pulled(s.b)
          else s2.b == Pulled(s.b) && s2.reader.Fetched?)
  {}

  /** The samples of region `r` in the pool's block. */
  function Slice(d: seq<real>, r: nat, asset: nat): seq<real>
    requires r < 3 && |d| == 3 * asset
  {
    d[Base(r, asset)..Base(r, asset) + asset]
  }

  /** A sample written into a region leaves the other regions. */
  lemma SliceWritten(d: seq<real>, input: nat, asset: nat, i: nat, x: real)
    requires input < 3 && |d| == 3 * asset && i < asset
    ensures var d' := d[Base(input, asset) + i := x];
      && (input != 0 ==> Slice(d', 0, asset) == Slice(d, 0, asset))
      && (input != 1 ==> Slice(d', 1, asset) == Slice(d, 1, asset))
      && (input != 2 ==> Slice(d', 2, asset) == Slice(d, 2, asset))
      && Slice(d', input, asset) == Slice(d, input, asset)[i := x]
  {}

  /** What is in the block after a sample was written is what the step says. */
  lemma ViewWritten(d: seq<real>, asset: nat, b: Buffer, b': Buffer, i: nat, x: real)
    requires |d| == 3 * asset && i < asset && IndicesOk(b) && IndicesOk(b')
    requires b'.stage == b.stage && b'.input == b.input && b'.output == b.output
    requires var d' := d[Base(b.input, asset) + i := x];
      forall r :: 0 <= r < 3 ==>
        b.regions[r].data == Slice(d, r, asset) && b'.regions[r] == b.regions[r].(data := Slice(d', r, asset))
    ensures b' == SampleWritten(b, i, x)
  {
    SliceWritten(d, b.input, asset, i, x);
    forall r | 0 <= r < 3 ensures b'.regions[r] == SampleWritten(b, i, x).regions[r] {
      assert r == 0 || r == 1 || r == 2;
    }
  }

  /** The offset of region `r` in the pool's block. */
  function Base(r: nat, asset: nat): nat {
    if r == 0 then 0 else if r == 1 then asset else asset + asset
  }
}
